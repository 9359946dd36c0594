/** What a process answers when a call of its own fails, and what it then leaves behind. */
module ProvisionFailures {
  import opened Options
  import opened ProvisionState
  import opened ProvisionSteps
  import opened ProvisionAlone

  /** `p` has answered: its staging directory is gone, its lock let go if it had one, and nothing else is changed. */
  ghost predicate Answered(s: State, t: State, p: Pid, n: Name, o: Outcome, locked: bool)
    requires p in s.procs
  {
    && p in t.procs && t.procs[p].pc == Done(o)
    && t.locks == (if locked then s.locks - {s.procs[p].branch} else s.locks)
    && t.fs.dir == s.fs.dir - {n} && t.fs.nodes == s.fs.nodes
  }

  lemma CleansUp(s: State, p: Pid, n: Name, o: Outcome, ch: Choice)
    requires DirOk(s.fs) && p in s.procs && s.procs[p].pc == Cleaning(n, o) && o != Exists
    requires ch.report.Honest? && ch.gone
    ensures Answered(s, Alone(s, p, ch, 1), p, n, o, false)
  {
    assert Alone(s, p, ch, 0) == s;
  }

  /** An error, "busy" or "occupied" is answered once the lock is free and the staging directory gone. */
  lemma RefusalIsTold(s: State, p: Pid, n: Name, o: Outcome, ch: Choice)
    requires DirOk(s.fs) && p in s.procs && s.procs[p].pc == Unlock(Some(n), o) && o in {Failed, Busy, Occupied}
    requires ch.report.Honest? && ch.gone
    ensures Answered(s, Alone(s, p, ch, 2), p, n, o, true)
  {
    assert Alone(s, p, ch, 0) == s;
    var one := At(s.(locks := s.locks - {s.procs[p].branch}), p, s.fs, Cleaning(n, o));
    assert Alone(s, p, ch, 1) == one;
    CleansUp(one, p, n, o, ch);
    AloneOn(s, p, ch, 1, 1);
  }

  /** Where no staging directory can be made nothing is left to clear. */
  lemma NoStagingIsFailure(s: State, p: Pid, ch: Choice)
    requires DirOk(s.fs) && p in s.procs && s.procs[p].pc == Before(Clone) && ch.report.Broken?
    ensures Step(s, p, ch) == At(s, p, s.fs, Done(Failed))
  {
  }

  /** A build that fails is an error; one that has built but cannot get the lock in time is "busy". */
  lemma BuildFailureIsTold(s: State, p: Pid, n: Name, phase: Phase, broken: Choice, ch: Choice)
    requires DirOk(s.fs) && p in s.procs && s.procs[p].pc == Building(n, phase)
    requires broken.report.Broken? && ch.report.Honest? && ch.gone
    ensures var failed := Step(s, p, broken);
            && DirOk(failed.fs)
            && Answered(s, Alone(failed, p, ch, 1), p, n, if phase == Staged then Busy else Failed, false)
  {
    CleansUp(Step(s, p, broken), p, n, if phase == Staged then Busy else Failed, ch);
  }

  /** A staging directory that is gone is an error too. */
  lemma MissingStagingIsFailure(s: State, p: Pid, n: Name, phase: Phase, ch: Choice)
    requires DirOk(s.fs) && p in s.procs && s.procs[p].pc == Building(n, phase) && (phase == Cloning || phase == Checkout)
    requires n !in s.fs.dir && ch.report.Honest? && ch.gone
    ensures Answered(s, Alone(s, p, ch, 2), p, n, Failed, false)
  {
    assert Alone(s, p, ch, 0) == s;
    var one := At(s, p, s.fs, Cleaning(n, Failed));
    assert Alone(s, p, ch, 1) == one;
    CleansUp(one, p, n, Failed, ch);
    AloneOn(s, p, ch, 1, 1);
  }

  /**
   * A publish whose rename fails, and not for what is in its way, is an error: even where it landed all
   * the same, since only a staging directory that is gone makes it look for its own `writeId`.
   */
  lemma PublishFailureIsTold(s: State, p: Pid, n: Name, k: nat, broken: Choice, ch: Choice)
    requires DirOk(s.fs) && p in s.procs && s.procs[p].pc == Publishing(n, k, Rename) && n.Staging?
    requires broken.report.Broken? && ch.report.Honest? && ch.gone
    ensures var failed, at := Step(s, p, broken), Final(s.procs[p].branch);
            && DirOk(failed.fs)
            && (var t := Alone(failed, p, ch, 2);
                && t.procs[p].pc == Done(Failed) && t.locks == s.locks - {s.procs[p].branch} && t.fs.nodes == s.fs.nodes
                && t.fs.dir == if RenameOf(s.fs.dir, s.fs.nodes, n, at) == Moved then (s.fs.dir - {n})[at := s.fs.dir[n]]
                               else s.fs.dir - {n})
  {
    RefusalIsTold(Step(s, p, broken), p, n, Failed, ch);
  }

  /** So is one whose quarantine can neither move aside what is in its way nor trash it. */
  lemma QuarantineFailureIsTold(s: State, p: Pid, n: Name, k: nat, stage: QuarantineAt, broken: Choice, ch: Choice)
    requires DirOk(s.fs) && p in s.procs && s.procs[p].pc == Clearing(Publish(n, k), stage)
    requires stage.Take? || (stage.Held? && stage.verdict.ToTrash?)
    requires broken.report.Broken? && ch.report.Honest? && ch.gone
    ensures var failed := Step(s, p, broken); DirOk(failed.fs) && Answered(s, Alone(failed, p, ch, 2), p, n, Failed, true)
  {
    RefusalIsTold(Step(s, p, broken), p, n, Failed, ch);
  }

  /** What cannot be judged is moved back before the error is answered. */
  lemma UnjudgedIsPutBack(s: State, p: Pid, n: Name, k: nat, expected: Ino, cand: Candidate, broken: Choice, ch: Choice)
    requires DirOk(s.fs) && p in s.procs && s.procs[p].pc == Clearing(Publish(n, k), Held(expected, cand, Pending))
    requires cand.name in s.fs.dir && cand.name.Repair? && Final(s.procs[p].branch) !in s.fs.dir && n.Staging?
    requires broken.report.Broken? && ch.report.Honest? && ch.gone
    ensures var unjudged, at := Step(s, p, broken), Final(s.procs[p].branch);
            && DirOk(unjudged.fs)
            && (var t := Alone(unjudged, p, ch, 3);
                && t.procs[p].pc == Done(Failed) && t.locks == s.locks - {s.procs[p].branch}
                && t.fs.dir == (s.fs.dir - {cand.name})[at := s.fs.dir[cand.name]] - {n} && t.fs.nodes == s.fs.nodes)
  {
    var unjudged := Step(s, p, broken);
    assert Alone(unjudged, p, ch, 0) == unjudged;
    var back := At(s, p, Move(s.fs, cand.name, Final(s.procs[p].branch)), Unlock(Some(n), Failed));
    assert Alone(unjudged, p, ch, 1) == back;
    RefusalIsTold(back, p, n, Failed, ch);
    AloneOn(unjudged, p, ch, 1, 2);
  }

  /** A worker that cannot get the lock does nothing. */
  lemma WorkerWaits(s: State, p: Pid, now: Time, ch: Choice)
    requires DirOk(s.fs) && p in s.procs && s.procs[p].pc == WorkerLock(now)
    requires s.procs[p].branch in s.locks || ch.report.Broken?
    ensures Step(s, p, ch) == At(s, p, s.fs, Done(Busy))
  {
  }
}
