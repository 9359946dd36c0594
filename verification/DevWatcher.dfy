/**
 * The dev content watcher: file events coalesce into checks, one at a time, and its
 * messages are not repeated, across restarts that share what was last said.
 */
module DevWatcher {
  import opened Options

  // --- Coalescing -----------------------------------------------------------------------------------

  datatype Checks = Checks(running: bool, pending: bool)
  datatype Step = FileEvent | CheckDone

  const IDLE := Checks(false, false)

  /** An event starts a check, or leaves a mark for the running one to see when it ends. */
  function OnEvent(c: Checks): Checks {
    if c.running then c.(pending := true) else Checks(true, false)
  }

  /** A check that ends starts another if there was an event meanwhile. */
  function OnDone(c: Checks): Checks {
    if c.pending then Checks(true, false) else Checks(false, false)
  }

  class Watcher {
    var running: bool
    var pending: bool

    function State(): Checks
      reads this
    {
      Checks(running, pending)
    }

    constructor ()
      ensures State() == IDLE
    {
      running, pending := false, false;
    }

    /** `check`, up to its await; `started` says whether this call is a check and not only a mark. */
    method Check() returns (started: bool)
      modifies this
      ensures State() == OnEvent(old(State())) && started == !old(running)
    {
      if running {
        pending := true;
        return false;
      }
      // Only a running check leaves a mark, and its end clears it.
      running, pending := true, false;
      return true;
    }

    /** A check's `finally`. */
    method EndCheck() returns (started: bool)
      requires running
      modifies this
      ensures State() == OnDone(old(State())) && started == old(pending)
    {
      running := false;
      if pending {
        pending := false;
        started := Check();
      } else {
        started := false;
      }
    }
  }

  function After(steps: seq<Step>): Checks {
    if steps == [] then IDLE
    else
      var c := After(steps[..|steps| - 1]);
      if steps[|steps| - 1].FileEvent? then OnEvent(c) else OnDone(c)
  }

  /** Checks end only while one runs. */
  predicate Possible(steps: seq<Step>) {
    steps == [] ||
    (Possible(steps[..|steps| - 1]) && (steps[|steps| - 1].CheckDone? ==> After(steps[..|steps| - 1]).running))
  }

  /** Step `j` starts a check. */
  predicate StartsCheck(steps: seq<Step>, j: nat)
    requires j < |steps|
  {
    if steps[j].FileEvent? then !After(steps[..j]).running else After(steps[..j]).pending
  }

  ghost predicate CheckedSince(steps: seq<Step>, i: nat) {
    exists j: nat :: i <= j < |steps| && StartsCheck(steps, j)
  }

  lemma {:induction false} UncheckedIsPending(steps: seq<Step>, i: nat)
    requires Possible(steps) && i < |steps| && steps[i].FileEvent? && !CheckedSince(steps, i)
    ensures After(steps).running && After(steps).pending
  {
    var front := steps[..|steps| - 1];
    assert !StartsCheck(steps, |steps| - 1);
    if i < |front| {
      forall j: nat | i <= j < |front| ensures !StartsCheck(front, j) {
        assert front[..j] == steps[..j];
        assert !StartsCheck(steps, j);
      }
      UncheckedIsPending(front, i);
    }
  }

  /** Once no check is running, every file event has been followed by a check that started at it or later. */
  lemma EveryEventIsChecked(steps: seq<Step>, i: nat)
    requires Possible(steps) && i < |steps| && steps[i].FileEvent? && !After(steps).running
    ensures CheckedSince(steps, i)
  {
    if !CheckedSince(steps, i) {
      UncheckedIsPending(steps, i);
    }
  }

  function Starts(steps: seq<Step>): nat {
    if steps == [] then 0
    else Starts(steps[..|steps| - 1]) + if StartsCheck(steps, |steps| - 1) then 1 else 0
  }

  function Ends(steps: seq<Step>): nat {
    if steps == [] then 0
    else Ends(steps[..|steps| - 1]) + if steps[|steps| - 1].CheckDone? then 1 else 0
  }

  /** At most one check is under way: those started are those ended, and the one running. */
  lemma {:induction false} OneCheckAtATime(steps: seq<Step>)
    requires Possible(steps)
    ensures Starts(steps) == Ends(steps) + if After(steps).running then 1 else 0
    ensures After(steps).pending ==> After(steps).running
  {
    if steps != [] {
      OneCheckAtATime(steps[..|steps| - 1]);
    }
  }

  function Events(steps: seq<Step>): nat {
    if steps == [] then 0
    else Events(steps[..|steps| - 1]) + if steps[|steps| - 1].FileEvent? then 1 else 0
  }

  /** No check starts that no event asked for: each was asked for by one of its own. */
  lemma {:induction false} NoIdleChecks(steps: seq<Step>)
    requires Possible(steps)
    ensures Starts(steps) + (if After(steps).pending then 1 else 0) <= Events(steps)
  {
    if steps != [] {
      var front := steps[..|steps| - 1];
      NoIdleChecks(front);
      OneCheckAtATime(front);
      assert steps[..|steps| - 1] == front;
    }
  }

  // --- Messages -------------------------------------------------------------------------------------

  // The kinds of message are worded apart, so none is ever another.
  datatype Message = Divergence(text: string) | Resolved(branch: string) | CheckFailed(error: string) | WatchFailed(error: string)

  // What a check found: nothing to compare with, the trees equal, a difference, or an error.
  datatype Outcome = NoClone | Same(branch: string) | Differ(text: string) | Error(error: string)

  ghost predicate NoRepeat(said: seq<Message>) {
    forall k :: 0 <= k < |said| - 1 ==> said[k] != said[k + 1]
  }

  // Shared by the watchers of one directory, and kept over restarts.
  class WatcherState {
    var lastMessage: Option<Message>
    var reportedDivergence: bool
    // Every message emitted.
    ghost var said: seq<Message>

    constructor ()
      ensures Valid() && said == []
    {
      lastMessage, reportedDivergence, said := None, false, [];
    }

    /** No message is emitted twice running. */
    ghost predicate Remembers()
      reads this
    {
      NoRepeat(said) && lastMessage == if said == [] then None else Some(said[|said| - 1])
    }

    /** While a divergence stands reported, the last message is no resolved notice. */
    ghost predicate Valid()
      reads this
    {
      Remembers() && (reportedDivergence ==> lastMessage.Some? && !lastMessage.value.Resolved?)
    }

    method ReportOnce(message: Message)
      requires Remembers()
      modifies this`lastMessage, this`said
      ensures Remembers() && lastMessage == Some(message)
      ensures said == if old(lastMessage) == Some(message) then old(said) else old(said) + [message]
    {
      if lastMessage == Some(message) {
        return;
      }
      lastMessage := Some(message);
      said := said + [message];
    }

    /** The end of a check: an announced divergence that is gone is always retracted out loud. */
    method Conclude(outcome: Outcome)
      requires Valid()
      modifies this
      ensures Valid()
      ensures outcome.NoClone? ==> said == old(said) && reportedDivergence == old(reportedDivergence)
      ensures outcome.Same? ==>
                !reportedDivergence
                && said == if old(reportedDivergence) then old(said) + [Resolved(outcome.branch)] else old(said)
      ensures outcome.Differ? ==> reportedDivergence && lastMessage == Some(Divergence(outcome.text))
      ensures outcome.Error? ==> reportedDivergence == old(reportedDivergence) && lastMessage == Some(CheckFailed(outcome.error))
      ensures |said| <= |old(said)| + 1 && old(said) <= said
    {
      match outcome
      case NoClone =>
      case Same(branch) =>
        if reportedDivergence {
          reportedDivergence := false;
          ReportOnce(Resolved(branch));
        }
      case Differ(text) =>
        reportedDivergence := true;
        ReportOnce(Divergence(text));
      case Error(error) => ReportOnce(CheckFailed(error));
    }

    method WatchError(error: string)
      requires Valid()
      modifies this`lastMessage, this`said
      ensures Valid() && lastMessage == Some(WatchFailed(error))
      ensures said == if old(lastMessage) == Some(WatchFailed(error)) then old(said) else old(said) + [WatchFailed(error)]
    {
      ReportOnce(WatchFailed(error));
    }
  }
}
