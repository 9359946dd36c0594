/** What a process nobody disturbs answers, and what it leaves, whatever it finds at its branch's name. */
module ProvisionAnswers {
  import opened Options
  import opened ProvisionState
  import opened ProvisionSteps
  import opened ProvisionInvariant
  import opened ProvisionAlone

  // --- What may be at a name --------------------------------------------------------------------------

  predicate HoldsValid(t: Tree) {
    t.Dir? && t.meta.Json? && t.meta.file.Valid?
  }

  predicate HoldsMalformed(t: Tree) {
    t.Dir? && t.meta.Json? && t.meta.file.Malformed?
  }

  /** Nothing but `branch.json.corrupt-*`. */
  predicate HoldsArchive(t: Tree) {
    t.Dir? && t.meta.Archived?
  }

  /** Somebody else's repository, and no trace of branch.json. */
  predicate HoldsForeign(t: Tree) {
    t.Dir? && t.meta.NoMeta? && (t.git.GitFile? || (t.git.GitDir? && t.git.remote.Other?))
  }

  /** No trace of branch.json, and no repository but the deployment's own. */
  predicate HoldsResidue(t: Tree) {
    t.File? || (t.meta.NoMeta? && (t.git.NoGit? || (t.git.GitDir? && !t.git.remote.Other?)))
  }

  /** Milliseconds since what is at a name was last touched. */
  function SinceTouched(f: Files, n: Name): int
    requires DirOk(f) && n in f.dir
  {
    f.clock - f.nodes[f.dir[n]].touched
  }

  ghost predicate Starting(s: State, p: Pid) {
    DirOk(s.fs) && p in s.procs && s.procs[p].pc == Before(First)
  }

  lemma StepKeepsWhose(s: State, p: Pid, ch: Choice)
    requires DirOk(s.fs) && p in s.procs
    ensures Step(s, p, ch).procs[p].branch == s.procs[p].branch && Step(s, p, ch).procs[p].writeId == s.procs[p].writeId
  {
    hide Step;
  }

  lemma {:induction false} AloneKeepsWhose(s: State, p: Pid, ch: Choice, k: nat)
    requires DirOk(s.fs) && p in s.procs
    ensures Alone(s, p, ch, k).procs[p].branch == s.procs[p].branch && Alone(s, p, ch, k).procs[p].writeId == s.procs[p].writeId
  {
    hide Step;
    if k > 0 {
      AloneKeepsWhose(s, p, ch, k - 1);
      if DirOk(Alone(s, p, ch, k - 1).fs) {
        StepKeepsWhose(Alone(s, p, ch, k - 1), p, ch);
      }
    }
  }

  // --- A name that is taken ---------------------------------------------------------------------------

  /**
   * A provisioner whose branch's name is taken answers by what is there, and changes nothing: "exists" for
   * branch.json, an error for a malformed one, "busy" for what may still become one or be somebody's, and
   * "occupied" for another repository. Only quiet, unlocked residue lets it go on to build.
   */
  lemma TakenNameAnswers(s: State, p: Pid, ch: Choice)
    requires Starting(s, p) && Final(s.procs[p].branch) in s.fs.dir
    ensures var b := s.procs[p].branch;
            var tree, since := TreeAt(s.fs, Final(b)), SinceTouched(s.fs, Final(b));
            && (HoldsValid(tree) ==> Alone(s, p, ch, 1) == At(s, p, s.fs, Done(Exists)))
            && (HoldsMalformed(tree) ==> Alone(s, p, ch, 1) == At(s, p, s.fs, Done(Failed)))
            && (HoldsArchive(tree) ==> Alone(s, p, ch, 2) == At(s, p, s.fs, Done(Busy)))
            && (HoldsForeign(tree) ==> Alone(s, p, ch, 2) == At(s, p, s.fs, Done(Occupied)))
            && (HoldsResidue(tree) && since < 60_000 ==> Alone(s, p, ch, 2) == At(s, p, s.fs, Done(Busy)))
            && (HoldsResidue(tree) && b in s.locks && s.locks[b] in s.procs ==> Alone(s, p, ch, 2) == At(s, p, s.fs, Done(Busy)))
            && (HoldsResidue(tree) && since >= 60_000 && b !in s.locks ==> Alone(s, p, ch, 2) == At(s, p, s.fs, Before(Clone)))
  {
    assert Alone(s, p, ch, 0) == s;
    assert Alone(s, p, ch, 1) == Step(s, p, ch);
    if !HoldsValid(TreeAt(s.fs, Final(s.procs[p].branch))) && !HoldsMalformed(TreeAt(s.fs, Final(s.procs[p].branch))) {
      assert Alone(s, p, ch, 1) == At(s, p, s.fs, Before(Advise));
    }
  }

  /** One that saw branch.json appear on its way answers by what that says now. */
  lemma LateAnswers(s: State, p: Pid, ch: Choice)
    requires DirOk(s.fs) && p in s.procs && s.procs[p].pc == Before(Existing)
    ensures var at := Final(s.procs[p].branch);
            Alone(s, p, ch, 1) == At(s, p, s.fs, Done(
              if at in s.fs.dir && HoldsValid(TreeAt(s.fs, at)) then Exists
              else if at in s.fs.dir && HoldsMalformed(TreeAt(s.fs, at)) then Failed else Busy))
  {
    assert Alone(s, p, ch, 0) == s;
  }

  /** A process with a staging directory, and valid branch.json at its branch's name. */
  ghost predicate Beaten(s: State, p: Pid, n: Name) {
    && DirOk(s.fs) && p in s.procs && n.Staging? && n in s.fs.dir
    && Final(s.procs[p].branch) in s.fs.dir && HoldsValid(TreeAt(s.fs, Final(s.procs[p].branch)))
  }

  /** From the end of its work to the answer: the staging directory goes, branch.json is read again. */
  lemma BeatenCleansUp(s: State, p: Pid, n: Name, ch: Choice)
    requires Beaten(s, p, n) && s.procs[p].pc == Cleaning(n, Exists) && ch.report.Honest? && ch.gone
    ensures var t := Alone(s, p, ch, 2);
            && t.procs[p].pc == Done(Exists) && t.locks == s.locks
            && t.fs.dir == s.fs.dir - {n} && t.fs.nodes == s.fs.nodes
  {
    assert Alone(s, p, ch, 0) == s;
    var one := Alone(s, p, ch, 1);
    assert one == At(s, p, Unlink(s.fs, n), Before(Existing));
    assert Final(s.procs[p].branch) in one.fs.dir;
    assert DirOk(one.fs);
  }

  /** A builder that finds a competitor has won before its checkout ends with "exists", its staging gone. */
  lemma LoserAtCheckAnswersExists(s: State, p: Pid, n: Name, ch: Choice)
    requires Beaten(s, p, n) && s.procs[p].pc == Building(n, Check) && ch.report.Honest? && ch.gone
    ensures var t := Alone(s, p, ch, 3);
            && t.procs[p].pc == Done(Exists) && t.locks == s.locks
            && t.fs.dir == s.fs.dir - {n} && t.fs.nodes == s.fs.nodes
  {
    var one := Alone(s, p, ch, 1);
    assert Alone(s, p, ch, 0) == s;
    assert one == At(s, p, s.fs, Cleaning(n, Exists));
    BeatenCleansUp(one, p, n, ch);
    AloneOn(s, p, ch, 1, 2);
  }

  /** So does one whose publish finds it: the lock is let go too. */
  lemma LoserAtPublishAnswersExists(s: State, p: Pid, n: Name, k: nat, ch: Choice)
    requires Beaten(s, p, n) && s.procs[p].pc == Publishing(n, k, Rename) && TreeAt(s.fs, n).Dir?
    requires ch.report.Honest? && ch.gone
    ensures var t := Alone(s, p, ch, 5);
            && t.procs[p].pc == Done(Exists) && t.locks == s.locks - {s.procs[p].branch}
            && t.fs.dir == s.fs.dir - {n} && t.fs.nodes == s.fs.nodes
  {
    AloneInspects(s, p, n, k, ch);
    var two := Alone(s, p, ch, 2);
    assert two == At(s, p, s.fs, Unlock(Some(n), Exists));
    var three := Alone(s, p, ch, 3);
    assert three == Step(two, p, ch);
    assert three == At(s.(locks := s.locks - {s.procs[p].branch}), p, s.fs, Cleaning(n, Exists));
    BeatenCleansUp(three, p, n, ch);
    AloneOn(s, p, ch, 3, 2);
  }

  // --- The reply that was lost ------------------------------------------------------------------------

  /** A rename that landed and whose reply was lost is told by the caller's own branch.json: "published". */
  lemma LostReplyAnswersPublished(s: State, p: Pid, n: Name, k: nat, lost: Choice, ch: Choice)
    requires ReadyToPublish(s, p, n, Publishing(n, k, Rename)) && lost.report.Lost? && ch.report.Honest?
    requires TreeAt(s.fs, n) == Dir(Json(Valid(s.procs[p].branch, s.procs[p].writeId)), GitDir(Own), true)
    requires var at := Final(s.procs[p].branch); at in s.fs.dir ==> Empty(TreeAt(s.fs, at))
    ensures var landed := Step(s, p, lost);
            && DirOk(landed.fs)
            && (var t, at := Alone(landed, p, ch, 2), Final(s.procs[p].branch);
                && t.procs[p].pc == Done(Published) && t.locks == s.locks - {s.procs[p].branch}
                && t.fs.dir == (s.fs.dir - {n})[at := s.fs.dir[n]] && t.fs.nodes == s.fs.nodes)
  {
    var landed, at := Step(s, p, lost), Final(s.procs[p].branch);
    assert landed.procs[p].pc == Publishing(n, k, Confirm);
    assert landed.fs.dir == (s.fs.dir - {n})[at := s.fs.dir[n]] && landed.fs.nodes == s.fs.nodes;
    assert DirOk(landed.fs) && landed.locks == s.locks;
    assert TreeAt(landed.fs, at) == TreeAt(s.fs, n);
    assert Alone(landed, p, ch, 0) == landed;
    assert Alone(landed, p, ch, 1) == At(landed, p, landed.fs, Unlock(Some(n), Published));
  }

  /** Without the caller's own `writeId` at the name, a staging directory that is gone is a failure. */
  lemma NotOursIsFailure(s: State, p: Pid, n: Name, k: nat, ch: Choice)
    requires DirOk(s.fs) && p in s.procs && s.procs[p].pc == Publishing(n, k, Confirm)
    requires var at := Final(s.procs[p].branch);
             at in s.fs.dir && HoldsValid(TreeAt(s.fs, at)) ==> TreeAt(s.fs, at).meta.file.writeId != s.procs[p].writeId
    ensures Alone(s, p, ch, 1) == At(s, p, s.fs, Unlock(Some(n), Failed))
  {
    assert Alone(s, p, ch, 0) == s;
  }

  // --- A publish that meets something -----------------------------------------------------------------

  /**
   * What a publish answers after its quarantine has put a directory back: "exists" for branch.json, an
   * error for a malformed one, "occupied" for another repository, "busy" for the rest.
   */
  lemma KeptAnswers(s: State, p: Pid, n: Name, k: nat, ch: Choice)
    requires ReadyToClear(s, p, Publish(n, k), ch.name) && ch.report.Honest?
    ensures var tree, since := TreeAt(s.fs, Final(s.procs[p].branch)), SinceTouched(s.fs, Final(s.procs[p].branch));
            var four := Alone(s, p, ch, 4);
            && (HoldsValid(tree) ==> four.procs[p].pc == Unlock(Some(n), Exists))
            && (HoldsMalformed(tree) ==>
                  four.procs[p].pc == Publishing(n, k, Reread) && Alone(s, p, ch, 5).procs[p].pc == Unlock(Some(n), Failed))
            && (HoldsArchive(tree) ==> four.procs[p].pc == Unlock(Some(n), Busy))
            && (HoldsForeign(tree) ==> four.procs[p].pc == Unlock(Some(n), Occupied))
            && (HoldsResidue(tree) && since < 60_000 ==> four.procs[p].pc == Unlock(Some(n), Busy))
            && (!HoldsResidue(tree) || since < 60_000 ==> four.fs.dir == s.fs.dir && four.fs.nodes == s.fs.nodes && four.locks == s.locks)
  {
    hide Alone;
    var tree := TreeAt(s.fs, Final(s.procs[p].branch));
    if KeptFor(s, p, Publish(n, k)).Some? {
      AloneKeeps(s, p, Publish(n, k), ch);
      if HoldsMalformed(tree) {
        AloneKeepsWhose(s, p, ch, 4);
        RereadAnswers(s, Alone(s, p, ch, 4), p, n, k, ch);
        OneMore(s, p, ch, 4);
      }
    }
  }

  lemma OneMore(s: State, p: Pid, ch: Choice, k: nat)
    requires DirOk(s.fs) && p in s.procs && DirOk(Alone(s, p, ch, k).fs)
    ensures Alone(s, p, ch, k + 1) == Step(Alone(s, p, ch, k), p, ch)
  {
  }

  lemma RereadAnswers(s: State, t: State, p: Pid, n: Name, k: nat, ch: Choice)
    requires DirOk(s.fs) && p in s.procs && Final(s.procs[p].branch) in s.fs.dir
    requires HoldsMalformed(TreeAt(s.fs, Final(s.procs[p].branch)))
    requires p in t.procs && t.procs[p].branch == s.procs[p].branch && t.procs[p].pc == Publishing(n, k, Reread)
    requires t.fs.dir == s.fs.dir && t.fs.nodes == s.fs.nodes
    ensures DirOk(t.fs) && Step(t, p, ch).procs[p].pc == Unlock(Some(n), Failed)
  {
  }

  /** A quarantine that cleared the name leads to one more try, and after that to "busy". */
  lemma ClearedGoesOn(n: Name, now: Time)
    ensures Again(Publish(n, 0)) == Publishing(n, 1, Rename)
    ensures Again(Publish(n, 1)) == Unlock(Some(n), Busy)
    ensures Again(Worker(now)) == Unlock(None, Busy)
  {
  }

  /**
   * Quiet residue in the way of a publish ends in trash with its contents, and the workspace at its name:
   * the rename refused, the look, the quarantine, the second rename.
   */
  lemma QuietResidueIsReplaced(s: State, p: Pid, n: Name, ch: Choice, last: Choice) returns (t: State)
    requires ReadyToPublish(s, p, n, Publishing(n, 0, Rename)) && n.Staging? && Final(s.procs[p].branch) in s.fs.dir
    requires var tree := TreeAt(s.fs, Final(s.procs[p].branch)); HoldsResidue(tree) && !Empty(tree)
    requires SinceTouched(s.fs, Final(s.procs[p].branch)) >= 60_000
    requires ch.report.Honest? && ch.name.Repair? && ch.name !in s.fs.dir && last.report.Honest? && last.name.Trash?
    ensures var blocked := Alone(s, p, ch, 2);
            && DirOk(blocked.fs) && DirOk(Alone(blocked, p, ch, 3).fs)
            && (var cleared := Step(Alone(blocked, p, ch, 3), p, last); DirOk(cleared.fs) && t == Alone(cleared, p, ch, 2))
    ensures var at := Final(s.procs[p].branch);
            && p in t.procs && t.procs[p].pc == Done(Published) && t.locks == s.locks - {s.procs[p].branch}
            && t.fs.nodes == s.fs.nodes
            && t.fs.dir == ((s.fs.dir - {at})[last.name := s.fs.dir[at]] - {n})[at := s.fs.dir[n]]
  {
    hide Alone, Step, Empty;
    var blocked := Alone(s, p, ch, 2);
    AloneInspects(s, p, n, 0, ch);
    AsideThenGone(s, blocked, p, n, ch);
    AloneTrashes(blocked, p, Publish(n, 0), ch, last);
    var cleared := Step(Alone(blocked, p, ch, 3), p, last);
    ClearedGoesOn(n, 0);
    AloneKeepsWhose(blocked, p, ch, 3);
    StepKeepsWhose(Alone(blocked, p, ch, 3), p, last);
    ReadyAgain(s, cleared, p, n, last);
    AloneLands(cleared, p, n, 1, ch);
    t := Alone(cleared, p, ch, 2);
  }

  lemma AsideThenGone(s: State, blocked: State, p: Pid, n: Name, ch: Choice)
    requires DirOk(s.fs) && p in s.procs && Final(s.procs[p].branch) in s.fs.dir
    requires HoldsResidue(TreeAt(s.fs, Final(s.procs[p].branch))) && SinceTouched(s.fs, Final(s.procs[p].branch)) >= 60_000
    requires blocked == At(s, p, s.fs, Clearing(Publish(n, 0), Stat)) && ch.name.Repair? && ch.name !in s.fs.dir
    ensures ReadyToClear(blocked, p, Publish(n, 0), ch.name) && KeptFor(blocked, p, Publish(n, 0)).None?
  {
  }

  lemma ReadyAgain(s: State, cleared: State, p: Pid, n: Name, last: Choice)
    requires ReadyToPublish(s, p, n, Publishing(n, 0, Rename)) && n.Staging? && Final(s.procs[p].branch) in s.fs.dir
    requires last.name.Trash? && p in cleared.procs && cleared.procs[p].branch == s.procs[p].branch
    requires cleared.procs[p].pc == Publishing(n, 1, Rename) && cleared.fs.nodes == s.fs.nodes
    requires cleared.fs.dir == (s.fs.dir - {Final(s.procs[p].branch)})[last.name := s.fs.dir[Final(s.procs[p].branch)]]
    ensures ReadyToPublish(cleared, p, n, Publishing(n, 1, Rename)) && Final(s.procs[p].branch) !in cleared.fs.dir
    ensures cleared.fs.dir[n] == s.fs.dir[n]
  {
  }

  // --- The worker's quarantine ------------------------------------------------------------------------

  ghost predicate WorkerStarts(s: State, p: Pid, now: Time, aside: Name) {
    && DirOk(s.fs) && p in s.procs && s.procs[p].pc == WorkerLock(now) && s.procs[p].branch !in s.locks
    && Final(s.procs[p].branch) in s.fs.dir && aside.Repair? && aside !in s.fs.dir
  }

  lemma WorkerTakesLock(s: State, p: Pid, now: Time, ch: Choice)
    requires WorkerStarts(s, p, now, ch.name) && ch.report.Honest?
    ensures Alone(s, p, ch, 1) == At(s.(locks := s.locks[s.procs[p].branch := p]), p, s.fs, Clearing(Worker(now), Stat))
    ensures ReadyToClear(Alone(s, p, ch, 1), p, Worker(now), ch.name)
  {
    assert Alone(s, p, ch, 0) == s;
  }

  lemma WorkerLetsGo(s: State, p: Pid, ch: Choice)
    requires DirOk(s.fs) && p in s.procs && s.procs[p].pc == Unlock(None, Busy)
    ensures Step(s, p, ch) == At(s.(locks := s.locks - {s.procs[p].branch}), p, s.fs, Done(Busy))
  {
  }

  /** A worker that finds anything but residue quiet for fifteen minutes leaves everything as it was. */
  lemma WorkerKeeps(s: State, p: Pid, now: Time, ch: Choice) returns (t: State)
    requires WorkerStarts(s, p, now, ch.name) && ch.report.Honest?
    requires var tree, node := TreeAt(s.fs, Final(s.procs[p].branch)), s.fs.nodes[s.fs.dir[Final(s.procs[p].branch)]];
             !HoldsResidue(tree) || now - node.touched < 900_000
    ensures var locked := Alone(s, p, ch, 1);
            && DirOk(locked.fs)
            && (var kept := Alone(locked, p, ch, 4); DirOk(kept.fs) && t == Step(kept, p, ch))
    ensures p in t.procs && t.procs[p].pc == Done(Busy)
    ensures t.fs.dir == s.fs.dir && t.fs.nodes == s.fs.nodes && t.locks == s.locks
  {
    hide Alone, Step;
    var locked := Alone(s, p, ch, 1);
    WorkerTakesLock(s, p, now, ch);
    KeptReason(s, locked, p, now);
    AloneKeeps(locked, p, Worker(now), ch);
    AloneKeepsWhose(locked, p, ch, 4);
    var kept := Alone(locked, p, ch, 4);
    WorkerLetsGo(kept, p, ch);
    t := Step(kept, p, ch);
    assert s.locks[s.procs[p].branch := p] - {s.procs[p].branch} == s.locks;
  }

  lemma KeptReason(s: State, locked: State, p: Pid, now: Time)
    requires DirOk(s.fs) && p in s.procs && Final(s.procs[p].branch) in s.fs.dir && p in locked.procs
    requires locked.fs == s.fs && locked.procs[p].branch == s.procs[p].branch
    ensures KeptFor(locked, p, Worker(now)).None? <==>
              && HoldsResidue(TreeAt(s.fs, Final(s.procs[p].branch)))
              && now - s.fs.nodes[s.fs.dir[Final(s.procs[p].branch)]].touched >= 900_000
  {
  }

  /** Residue that has been quiet for that long ends in trash, and the lock is let go. */
  lemma WorkerTrashes(s: State, p: Pid, now: Time, ch: Choice, last: Choice) returns (t: State)
    requires WorkerStarts(s, p, now, ch.name) && ch.report.Honest? && last.report.Honest? && last.name.Trash?
    requires var tree, node := TreeAt(s.fs, Final(s.procs[p].branch)), s.fs.nodes[s.fs.dir[Final(s.procs[p].branch)]];
             HoldsResidue(tree) && now - node.touched >= 900_000
    ensures var locked := Alone(s, p, ch, 1);
            && DirOk(locked.fs)
            && (var held := Alone(locked, p, ch, 3);
                && DirOk(held.fs)
                && (var trashed := Step(held, p, last); DirOk(trashed.fs) && t == Step(trashed, p, ch)))
    ensures p in t.procs && t.procs[p].pc == Done(Busy) && t.locks == s.locks && t.fs.nodes == s.fs.nodes
    ensures t.fs.dir == (s.fs.dir - {Final(s.procs[p].branch)})[last.name := s.fs.dir[Final(s.procs[p].branch)]]
  {
    hide Alone, Step;
    var locked := Alone(s, p, ch, 1);
    WorkerTakesLock(s, p, now, ch);
    KeptReason(s, locked, p, now);
    AloneTrashes(locked, p, Worker(now), ch, last);
    var held := Alone(locked, p, ch, 3);
    AloneKeepsWhose(locked, p, ch, 3);
    StepKeepsWhose(held, p, last);
    ClearedGoesOn(last.name, now);
    var trashed := Step(held, p, last);
    assert DirOk(trashed.fs);
    WorkerLetsGo(trashed, p, ch);
    t := Step(trashed, p, ch);
    assert s.locks[s.procs[p].branch := p] - {s.procs[p].branch} == s.locks;
  }

  // --- Recoveries -------------------------------------------------------------------------------------

  ghost predicate Recoverable(s: State, p: Pid, n: Name, d: Branch, short: Branch -> Short) {
    && DirOk(s.fs) && p in s.sweeps && s.sweeps[p] == RRead(n) && n.Repair? && n in s.fs.dir
    && HoldsValid(TreeAt(s.fs, n)) && TreeAt(s.fs, n).meta.file.branch == d && n.short == short(d)
  }

  /** Where the branch's lock is held a recovery leaves its candidate for the next sweep. */
  lemma RecoveryWaits(s: State, p: Pid, n: Name, d: Branch, short: Branch -> Short)
    requires Recoverable(s, p, n, d, short) && d in s.locks
    ensures Recovering(s, p, short, 2) == SweepAt(s, p, s.fs, RDone)
  {
    assert Recovering(s, p, short, 0) == s;
    assert Recovering(s, p, short, 1) == SweepAt(s, p, s.fs, RLock(n, d));
  }

  lemma RecoveryFindsTaken(s: State, p: Pid, n: Name, d: Branch, short: Branch -> Short)
    requires Recoverable(s, p, n, d, short) && d !in s.locks && Final(d) in s.fs.dir
    ensures Recovering(s, p, short, 3) == SweepAt(s.(locks := s.locks[d := p]), p, s.fs, RRelease(n, d, true))
  {
    var locked := s.(locks := s.locks[d := p]);
    assert Recovering(s, p, short, 0) == s;
    assert Recovering(s, p, short, 1) == SweepAt(s, p, s.fs, RLock(n, d));
    assert Recovering(s, p, short, 2) == SweepAt(locked, p, s.fs, RCheck(n, d));
  }

  /** Where the branch's name is taken the candidate goes to trash, and what has the name keeps it. */
  lemma RecoveryYields(s: State, p: Pid, n: Name, d: Branch, short: Branch -> Short)
    requires Recoverable(s, p, n, d, short) && d !in s.locks && Final(d) in s.fs.dir
    requires Trash(n.short, n.tag, n.stamp) !in s.fs.dir
    ensures var t := Recovering(s, p, short, 5);
            && t.sweeps[p] == RDone && t.locks == s.locks && t.fs.nodes == s.fs.nodes
            && t.fs.dir == (s.fs.dir - {n})[Trash(n.short, n.tag, n.stamp) := s.fs.dir[n]]
  {
    RecoveryFindsTaken(s, p, n, d, short);
    assert s.locks[d := p] - {d} == s.locks;
    assert Recovering(s, p, short, 4) == SweepAt(s, p, s.fs, RTrash(n, Taken(d)));
  }
}
