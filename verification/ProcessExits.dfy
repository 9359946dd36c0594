/** How the worker and the gateway end: which exit code, when several things ask at once. */
module ProcessExits {

  const EXIT_OK: nat := 0
  const EXIT_FATAL: nat := 1
  const EXIT_WORKER_SELF_STOPPED: nat := 69
  const EXIT_DRAINED_FOR_TERMINATION: nat := 75

  // --- The worker -----------------------------------------------------------------------------------

  // A handler that has not run, that is on its way, or that has done what it does.
  datatype Stage = Idle | Waiting | Over

  datatype Worker = Worker(signal: Stage, drain: Stage, selfStop: Stage, failure: Stage, exits: seq<nat>)

  const BOOTED := Worker(Idle, Idle, Idle, Idle, [])

  datatype WorkerStep =
    | Signal
    | SignalStopped
    | Notice
    | Drained
    // The worker stopped itself; its handler looks at once whether a drain is under way.
    | SelfStops
    // `start` failed; the failure is recorded before the drain is looked at.
    | Fails
    | FailureRecorded

  predicate WorkerMay(w: Worker, e: WorkerStep) {
    match e
    case Signal => true
    case SignalStopped => w.signal.Waiting?
    case Notice => w.drain.Idle?
    case Drained => w.drain.Waiting?
    case SelfStops => w.selfStop.Idle?
    case Fails => w.failure.Idle?
    case FailureRecorded => w.failure.Waiting?
  }

  /** `terminating` is set. */
  predicate Terminating(w: Worker) {
    !w.drain.Idle?
  }

  function WorkerNext(w: Worker, e: WorkerStep): Worker {
    match e
    case Signal => w.(signal := Waiting)
    case SignalStopped => w.(signal := Over, exits := w.exits + [EXIT_OK])
    case Notice => w.(drain := Waiting)
    case Drained => w.(drain := Over, exits := w.exits + [EXIT_DRAINED_FOR_TERMINATION])
    case SelfStops =>
      if Terminating(w) then w.(selfStop := Waiting)
      else w.(selfStop := Over, exits := w.exits + [EXIT_WORKER_SELF_STOPPED])
    case Fails => w.(failure := Waiting)
    case FailureRecorded =>
      if Terminating(w) then w.(failure := Over) else w.(failure := Over, exits := w.exits + [EXIT_FATAL])
  }

  function WorkerAfter(w: Worker, steps: seq<WorkerStep>): Worker {
    if steps == [] then w else WorkerNext(WorkerAfter(w, steps[..|steps| - 1]), steps[|steps| - 1])
  }

  predicate WorkerRun(w: Worker, steps: seq<WorkerStep>) {
    steps == [] ||
    (WorkerRun(w, steps[..|steps| - 1]) && WorkerMay(WorkerAfter(w, steps[..|steps| - 1]), steps[|steps| - 1]))
  }

  predicate NoSignal(steps: seq<WorkerStep>) {
    forall i :: 0 <= i < |steps| ==> !steps[i].Signal?
  }

  /**
   * Once a termination drain has begun with nothing having exited yet, and while no signal comes, the
   * process exits at most once and only as drained, whatever stops or fails, in whatever order.
   */
  lemma {:induction false} TerminationOwnsTheExit(w: Worker, steps: seq<WorkerStep>)
    requires w.exits == [] && w.drain.Waiting? && !w.signal.Waiting?
    requires WorkerRun(w, steps) && NoSignal(steps)
    ensures var end := WorkerAfter(w, steps);
            && Terminating(end) && !end.signal.Waiting?
            && end.exits == if end.drain.Over? then [EXIT_DRAINED_FOR_TERMINATION] else []
  {
    if steps != [] {
      var front := steps[..|steps| - 1];
      assert NoSignal(front) by {
        forall i | 0 <= i < |front| ensures !front[i].Signal? {
          assert front[i] == steps[i];
        }
      }
      TerminationOwnsTheExit(w, front);
    }
  }

  lemma {:induction false} WorkerOn(w: Worker, a: seq<WorkerStep>, b: seq<WorkerStep>)
    ensures WorkerAfter(w, a + b) == WorkerAfter(WorkerAfter(w, a), b)
    ensures WorkerRun(w, a + b) ==> WorkerRun(w, a) && WorkerRun(WorkerAfter(w, a), b)
  {
    if b == [] {
      assert a + b == a;
    } else {
      assert (a + b)[..|a + b| - 1] == a + b[..|b| - 1];
      WorkerOn(w, a, b[..|b| - 1]);
    }
  }

  lemma {:induction false} UnsignalledStaysIdle(w: Worker, steps: seq<WorkerStep>)
    requires w.signal.Idle? && WorkerRun(w, steps) && NoSignal(steps)
    ensures WorkerAfter(w, steps).signal.Idle?
  {
    if steps != [] {
      UnsignalledStaysIdle(w, steps[..|steps| - 1]);
    }
  }

  /**
   * A whole life from boot without a signal: if the notice comes before anything has exited, the only
   * exit there ever is is the drained one, and it comes exactly when the drain is over.
   */
  lemma NoticedWorkerExitsDrained(before: seq<WorkerStep>, after: seq<WorkerStep>)
    requires WorkerRun(BOOTED, before + [Notice] + after) && NoSignal(before + [Notice] + after)
    requires WorkerAfter(BOOTED, before).exits == []
    ensures var end := WorkerAfter(BOOTED, before + [Notice] + after);
            end.exits == if end.drain.Over? then [EXIT_DRAINED_FOR_TERMINATION] else []
  {
    var steps := before + [Notice];
    WorkerOn(BOOTED, steps, after);
    assert steps[..|steps| - 1] == before && steps[|steps| - 1] == Notice;
    forall i | 0 <= i < |before| ensures !before[i].Signal? {
      assert (steps + after)[i] == before[i];
    }
    forall i | 0 <= i < |after| ensures !after[i].Signal? {
      assert (steps + after)[|steps| + i] == after[i];
    }
    UnsignalledStaysIdle(BOOTED, before);
    TerminationOwnsTheExit(WorkerAfter(BOOTED, steps), after);
  }

  predicate Asked(steps: seq<WorkerStep>, e: WorkerStep) {
    e in steps
  }

  /**
   * Every exit has its own cause: 0 a handled signal, 75 a drain that is over, and where no termination
   * was under way 69 the worker's own stop and 1 a failure to start.
   */
  lemma {:induction false} ExitsHaveCauses(steps: seq<WorkerStep>)
    requires WorkerRun(BOOTED, steps)
    ensures var exits := WorkerAfter(BOOTED, steps).exits;
            && (0 in exits <==> Asked(steps, SignalStopped))
            && (75 in exits <==> Asked(steps, Drained))
            && (69 in exits ==> Asked(steps, SelfStops)) && (1 in exits ==> Asked(steps, FailureRecorded))
            && (!Asked(steps, Notice) ==>
                  (69 in exits <==> Asked(steps, SelfStops)) && (1 in exits <==> Asked(steps, FailureRecorded)))
            && (forall k :: 0 <= k < |exits| ==> exits[k] in [0, 1, 69, 75])
            && (Terminating(WorkerAfter(BOOTED, steps)) <==> Asked(steps, Notice))
  {
    if steps != [] {
      var front, e := steps[..|steps| - 1], steps[|steps| - 1];
      ExitsHaveCauses(front);
      assert steps == front + [e];
      forall x ensures Asked(steps, x) <==> Asked(front, x) || x == e {
      }
    }
  }

  // --- The gateway ----------------------------------------------------------------------------------

  // Booting; serving what was built, or a stand-in for it until the hold ends; or done.
  datatype Phase = Booting | BootFailed | Serving | Holding | Draining | Ended

  // `claimed` is whether a signal took the stop, and `draining` whether its drain is under way.
  datatype Gateway = Gateway(phase: Phase, stopping: bool, claimed: bool, draining: bool, exits: seq<nat>)

  const STARTING := Gateway(Booting, false, false, false, [])

  datatype GatewayStep =
    | NoListen
    | Boot(ok: bool)
    | ServeStandIn(ok: bool)
    | PrepareFails
    | Stop
    | StopDrained
    | HoldEnds
    | HoldDrained

  /** Signals are watched from the moment something is served. */
  predicate Watched(g: Gateway) {
    g.phase.Serving? || g.phase.Holding? || g.phase.Draining? || (g.phase.Ended? && g.stopping)
  }

  predicate GatewayMay(g: Gateway, e: GatewayStep) {
    match e
    case NoListen => g.phase.Booting?
    case Boot(_) => g.phase.Booting?
    case ServeStandIn(_) => g.phase.BootFailed?
    case PrepareFails => g.phase.Serving?
    case Stop => Watched(g)
    case StopDrained => g.draining
    case HoldEnds => g.phase.Holding?
    case HoldDrained => g.phase.Draining?
  }

  function GatewayNext(g: Gateway, e: GatewayStep): Gateway {
    match e
    case NoListen => g.(phase := Ended, exits := g.exits + [EXIT_FATAL])
    case Boot(ok) => g.(phase := if ok then Serving else BootFailed)
    case ServeStandIn(ok) =>
      if ok then g.(phase := Holding) else g.(phase := Ended, exits := g.exits + [EXIT_FATAL])
    case PrepareFails => g.(phase := Holding)
    case Stop => if g.stopping then g else g.(stopping := true, claimed := true, draining := true)
    case StopDrained => g.(draining := false, exits := g.exits + [EXIT_OK])
    case HoldEnds => if g.stopping then g.(phase := Ended) else g.(phase := Draining, stopping := true)
    case HoldDrained => g.(phase := Ended, exits := g.exits + [EXIT_FATAL])
  }

  function GatewayAfter(steps: seq<GatewayStep>): Gateway {
    if steps == [] then STARTING else GatewayNext(GatewayAfter(steps[..|steps| - 1]), steps[|steps| - 1])
  }

  predicate GatewayRun(steps: seq<GatewayStep>) {
    steps == [] ||
    (GatewayRun(steps[..|steps| - 1]) && GatewayMay(GatewayAfter(steps[..|steps| - 1]), steps[|steps| - 1]))
  }

  /** Who owns the stop, and what has come of it. */
  predicate Owned(g: Gateway) {
    if g.claimed then
      && g.stopping && !g.phase.Draining? && !g.phase.Booting? && !g.phase.BootFailed?
      && g.exits == if g.draining then [] else [EXIT_OK]
    else
      && !g.draining && (g.stopping ==> g.phase.Draining? || g.phase.Ended?)
      && (g.phase.Draining? ==> g.stopping)
      && g.exits == if g.phase.Ended? then [EXIT_FATAL] else []
  }

  /** The gateway exits at most once, with 0 exactly when a signal claimed the stop first. */
  lemma {:induction false} OneExit(steps: seq<GatewayStep>)
    requires GatewayRun(steps)
    ensures Owned(GatewayAfter(steps))
    ensures var exits := GatewayAfter(steps).exits;
            |exits| <= 1 && (|exits| == 1 ==> (exits[0] == EXIT_OK <==> GatewayAfter(steps).claimed))
  {
    if steps != [] {
      OneExit(steps[..|steps| - 1]);
    }
  }

  /** A step of a run of the gateway. */
  ghost predicate Happened(steps: seq<GatewayStep>, e: GatewayStep) {
    e in steps
  }

  /** Each exit code of the gateway has its own cause: 0 a signal's drain, 1 a boot, stand-in or hold that came to nothing. */
  lemma {:induction false} GatewayExitsHaveCauses(steps: seq<GatewayStep>)
    requires GatewayRun(steps)
    ensures var exits := GatewayAfter(steps).exits;
            && (0 in exits <==> Happened(steps, StopDrained))
            && (1 in exits <==> Happened(steps, NoListen) || Happened(steps, ServeStandIn(false)) || Happened(steps, HoldDrained))
            && (forall k :: 0 <= k < |exits| ==> exits[k] in [0, 1])
    ensures GatewayAfter(steps).claimed ==> Happened(steps, Stop)
  {
    if steps != [] {
      var front, e := steps[..|steps| - 1], steps[|steps| - 1];
      GatewayExitsHaveCauses(front);
      assert steps == front + [e];
      forall x ensures Happened(steps, x) <==> Happened(front, x) || x == e {
      }
    }
  }
}
