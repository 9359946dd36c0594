/** A credential re-read on demand, whose reads may overlap and finish in any order. */
module ReactiveSecret {
  import opened Options

  // The closure's variables: what is held, when a read last started, how many have
  // started, and the number of the latest-started one that has finished.
  datatype Held = Held(value: string, lastReadAt: Option<int>, readsStarted: nat, newestReadFinished: nat)

  /** A call answers at once without a secret to read, or too soon after the last read. */
  predicate MayRead(h: Held, configured: bool, minIntervalMs: nat, at: int) {
    configured && (h.lastReadAt.None? || at < h.lastReadAt.value || at - h.lastReadAt.value >= minIntervalMs)
  }

  function Begun(h: Held, at: int): Held {
    h.(lastReadAt := Some(at), readsStarted := h.readsStarted + 1)
  }

  /** A result is dropped when a read that started later has finished. */
  function Finished(h: Held, read: nat, fetched: string): Held {
    if read < h.newestReadFinished then h else h.(value := fetched, newestReadFinished := read)
  }

  class Secret {
    const configured: bool
    const minIntervalMs: nat
    var value: string
    var lastReadAt: Option<int>
    var readsStarted: nat
    var newestReadFinished: nat

    function State(): Held
      reads this
    {
      Held(value, lastReadAt, readsStarted, newestReadFinished)
    }

    constructor (configured: bool, minIntervalMs: nat, initial: string)
      ensures State() == Held(initial, None, 0, 0)
      ensures this.configured == configured && this.minIntervalMs == minIntervalMs
    {
      this.configured, this.minIntervalMs := configured, minIntervalMs;
      value, lastReadAt, readsStarted, newestReadFinished := initial, None, 0, 0;
    }

    /** `refresh` up to its await: the number of the read it starts, or none. */
    method BeginRefresh(at: int) returns (read: Option<nat>)
      modifies this
      ensures read.Some? <==> MayRead(old(State()), configured, minIntervalMs, at)
      ensures read.Some? ==> State() == Begun(old(State()), at) && read.value == readsStarted
      ensures read.None? ==> State() == old(State())
    {
      if !configured {
        return None;
      }
      if lastReadAt.Some? && at >= lastReadAt.value && at - lastReadAt.value < minIntervalMs {
        return None;
      }
      lastReadAt := Some(at);
      readsStarted := readsStarted + 1;
      return Some(readsStarted);
    }

    /** `refresh` once its read has succeeded: the new value, or none when there is nothing new. */
    method FinishRefresh(read: nat, fetched: string) returns (answer: Option<string>)
      modifies this
      ensures State() == Finished(old(State()), read, fetched)
      ensures answer == if value != old(value) then Some(value) else None
    {
      if read < newestReadFinished {
        return None;
      }
      newestReadFinished := read;
      if fetched == value {
        return None;
      }
      value := fetched;
      return Some(fetched);
    }
  }

  // --- Runs -------------------------------------------------------------------------------------------

  datatype Event = Refresh(at: int) | Succeed(read: nat, fetched: string) | Fail(read: nat)

  // A run so far: the secret, the reads still out, the results that came back, and when reads started.
  datatype Run = Run(held: Held, open: set<nat>, results: map<nat, string>, starts: seq<int>)

  /** Reads end once, and only after they started. */
  predicate Possible(r: Run, e: Event) {
    match e
    case Refresh(_) => true
    case Succeed(read, _) => read in r.open
    case Fail(read) => read in r.open
  }

  function Next(r: Run, minIntervalMs: nat, e: Event): Run {
    match e
    case Refresh(at) =>
      if !MayRead(r.held, true, minIntervalMs, at) then r
      else Run(Begun(r.held, at), r.open + {r.held.readsStarted + 1}, r.results, r.starts + [at])
    case Succeed(read, fetched) =>
      Run(Finished(r.held, read, fetched), r.open - {read}, r.results[read := fetched], r.starts)
    case Fail(read) => r.(open := r.open - {read})
  }

  function After(initial: string, minIntervalMs: nat, events: seq<Event>): Run {
    if events == [] then Run(Held(initial, None, 0, 0), {}, map[], [])
    else Next(After(initial, minIntervalMs, events[..|events| - 1]), minIntervalMs, events[|events| - 1])
  }

  predicate AllPossible(initial: string, minIntervalMs: nat, events: seq<Event>) {
    events == [] ||
    (&& AllPossible(initial, minIntervalMs, events[..|events| - 1])
     && Possible(After(initial, minIntervalMs, events[..|events| - 1]), events[|events| - 1]))
  }

  /** The value is the result of the latest-started read that has succeeded, else the initial one. */
  ghost predicate HoldsLatest(initial: string, r: Run) {
    if r.results == map[] then r.held.value == initial && r.held.newestReadFinished == 0
    else
      var newest := r.held.newestReadFinished;
      newest in r.results && r.held.value == r.results[newest] && forall read :: read in r.results ==> read <= newest
  }

  predicate Numbered(r: Run) {
    && |r.starts| == r.held.readsStarted
    && (forall read :: read in r.open ==> 1 <= read <= r.held.readsStarted && read !in r.results)
    && (forall read :: read in r.results ==> 1 <= read <= r.held.readsStarted)
    && r.held.lastReadAt == if r.starts == [] then None else Some(r.starts[|r.starts| - 1])
  }

  lemma {:induction false} LatestReadIsHeld(initial: string, minIntervalMs: nat, events: seq<Event>)
    requires AllPossible(initial, minIntervalMs, events)
    ensures HoldsLatest(initial, After(initial, minIntervalMs, events))
    ensures Numbered(After(initial, minIntervalMs, events))
  {
    if events != [] {
      var front, e := events[..|events| - 1], events[|events| - 1];
      LatestReadIsHeld(initial, minIntervalMs, front);
      var r := After(initial, minIntervalMs, front);
      if e.Succeed? && r.results != map[] {
        assert r.held.newestReadFinished in Next(r, minIntervalMs, e).results;
      }
    }
  }

  /** A slow old read never puts its value back over a later one's. */
  lemma RotationIsNotUndone(initial: string, minIntervalMs: nat, events: seq<Event>, read: nat, fetched: string)
    requires AllPossible(initial, minIntervalMs, events)
    requires var r := After(initial, minIntervalMs, events);
             read in r.open && exists later :: later in r.results && later > read
    ensures var r := After(initial, minIntervalMs, events);
            Finished(r.held, read, fetched) == r.held
  {
    LatestReadIsHeld(initial, minIntervalMs, events);
  }

  /** Two reads in a row are an interval apart, unless the clock stepped back between them. */
  predicate Spaced(starts: seq<int>, minIntervalMs: nat) {
    forall k :: 0 <= k < |starts| - 1 ==> starts[k + 1] < starts[k] || starts[k + 1] - starts[k] >= minIntervalMs
  }

  lemma {:induction false} ReadsAreSpaced(initial: string, minIntervalMs: nat, events: seq<Event>)
    requires AllPossible(initial, minIntervalMs, events)
    ensures Spaced(After(initial, minIntervalMs, events).starts, minIntervalMs)
  {
    if events != [] {
      ReadsAreSpaced(initial, minIntervalMs, events[..|events| - 1]);
      LatestReadIsHeld(initial, minIntervalMs, events[..|events| - 1]);
    }
  }

  lemma {:induction false} SpacedSpan(starts: seq<int>, minIntervalMs: nat, i: nat, j: nat)
    requires Spaced(starts, minIntervalMs) && i <= j < |starts|
    requires forall k :: 0 <= k < |starts| - 1 ==> starts[k] <= starts[k + 1]
    ensures starts[j] - starts[i] >= (j - i) * minIntervalMs
    decreases j - i
  {
    if i < j {
      SpacedSpan(starts, minIntervalMs, i, j - 1);
      assert starts[j - 1 + 1] - starts[j - 1] >= minIntervalMs;
      assert (j - i) * minIntervalMs == (j - 1 - i) * minIntervalMs + minIntervalMs;
    }
  }

  /** Under a clock that does not step back, k reads span at least k - 1 intervals. */
  lemma ReadsAreBounded(initial: string, minIntervalMs: nat, events: seq<Event>)
    requires AllPossible(initial, minIntervalMs, events)
    requires var starts := After(initial, minIntervalMs, events).starts;
             starts != [] && forall k :: 0 <= k < |starts| - 1 ==> starts[k] <= starts[k + 1]
    ensures var starts := After(initial, minIntervalMs, events).starts;
            starts[|starts| - 1] - starts[0] >= (|starts| - 1) * minIntervalMs
  {
    ReadsAreSpaced(initial, minIntervalMs, events);
    var starts := After(initial, minIntervalMs, events).starts;
    SpacedSpan(starts, minIntervalMs, 0, |starts| - 1);
  }

  /** A read is due when none was started, the clock stepped back, or the interval has passed. */
  predicate IsDue(starts: seq<int>, minIntervalMs: nat, at: int) {
    starts == [] || at < starts[|starts| - 1] || at - starts[|starts| - 1] >= minIntervalMs
  }

  lemma DueNext(r: Run, minIntervalMs: nat, at: int)
    requires Numbered(r)
    ensures var after := Next(r, minIntervalMs, Refresh(at));
            if IsDue(r.starts, minIntervalMs, at)
            then after.starts == r.starts + [at] && after.open == r.open + {|r.starts| + 1} && after.results == r.results
            else after == r
  {
  }

  /** A refresh starts a read exactly when one is due; else nothing changes. */
  lemma DueReadStarts(initial: string, minIntervalMs: nat, events: seq<Event>, at: int)
    requires AllPossible(initial, minIntervalMs, events)
    ensures var before, after := After(initial, minIntervalMs, events), After(initial, minIntervalMs, events + [Refresh(at)]);
            if IsDue(before.starts, minIntervalMs, at)
            then after.starts == before.starts + [at] && after.open == before.open + {|before.starts| + 1}
                 && after.results == before.results
            else after == before
  {
    hide Next, Numbered, IsDue, AllPossible, HoldsLatest;
    LatestReadIsHeld(initial, minIntervalMs, events);
    assert (events + [Refresh(at)])[..|events|] == events;
    DueNext(After(initial, minIntervalMs, events), minIntervalMs, at);
  }
}
