/** What a provisioner does when nobody moves meanwhile: each answer, and exactly what it leaves. */
module ProvisionAlone {
  import opened Options
  import opened ProvisionState
  import opened ProvisionSteps
  import opened ProvisionInvariant
  import opened ProvisionPreserves

  ghost function Onward(s: State, p: Pid, ch: Choice): (t: State)
    requires p in s.procs
    ensures p in t.procs
  {
    if DirOk(s.fs) then Step(s, p, ch) else s
  }

  /** `p` takes `k` steps, and no one else any. */
  ghost function Alone(s: State, p: Pid, ch: Choice, k: nat): (t: State)
    requires DirOk(s.fs) && p in s.procs
    ensures p in t.procs
  {
    if k == 0 then s else Onward(Alone(s, p, ch, k - 1), p, ch)
  }

  // --- Building ---------------------------------------------------------------------------------------

  /** `p` has a staging directory under way in `t`, and nothing else has changed since `s`. */
  ghost predicate Underway(s: State, t: State, p: Pid, n: Name, ino: Ino, phase: Phase, progress: Progress, tree: Tree)
    requires p in s.procs
  {
    && t.procs == s.procs[p := s.procs[p].(pc := Building(n, phase))]
    && t.locks == s.locks
    && t.fs.clock == s.fs.clock
    && t.fs.dir == s.fs.dir[n := ino]
    && t.fs.nodes == s.fs.nodes[ino := Node(tree, s.fs.clock, progress)]
  }

  predicate Honestly(s: State, p: Pid, ch: Choice, short: Branch -> Short)
    requires p in s.procs
  {
    && ch.report.Honest? && ch.ino !in s.fs.nodes
    && ch.name.Staging? && FreshName(s.fs, ch.name, short(s.procs[p].branch))
  }

  lemma AloneClones(s: State, p: Pid, ch: Choice, short: Branch -> Short)
    requires Inv(s, short) && p in s.procs && s.procs[p].pc == Before(First) && Honestly(s, p, ch, short)
    requires Final(s.procs[p].branch) !in s.fs.dir
    ensures Underway(s, Alone(s, p, ch, 3), p, ch.name, ch.ino, Cloning, Begun, Dir(NoMeta, NoGit, false))
    ensures DirOk(Alone(s, p, ch, 3).fs)
  {
    assert Alone(s, p, ch, 0) == s;
    assert Alone(s, p, ch, 1) == At(s, p, s.fs, Before(Advise));
    assert Alone(s, p, ch, 2) == At(s, p, s.fs, Before(Clone));
  }

  /** One more stage of a build, told by the state before it. */
  lemma NextStage(s: State, t: State, p: Pid, ch: Choice, n: Name, ino: Ino, phase: Phase, progress: Progress, tree: Tree)
    requires DirOk(s.fs) && DirOk(t.fs) && p in s.procs && n != Final(s.procs[p].branch)
    requires Underway(s, t, p, n, ino, phase, progress, tree) && ch.report.Honest?
    requires phase.Check? ==> Final(s.procs[p].branch) !in s.fs.dir
    ensures DirOk(Step(t, p, ch).fs)
    ensures phase.Cloning? && progress.Begun? ==>
              Underway(s, Step(t, p, ch), p, n, ino, Check, Cloned, Dir(NoMeta, GitDir(Own), false))
    ensures phase.Check? ==> Underway(s, Step(t, p, ch), p, n, ino, Checkout, progress, tree)
    ensures phase.Checkout? && progress.Cloned? ==>
              Underway(s, Step(t, p, ch), p, n, ino, WriteMeta, CheckedOut, Dir(NoMeta, GitDir(Own), true))
    ensures phase.WriteMeta? && progress.CheckedOut? ==>
              Underway(s, Step(t, p, ch), p, n, ino, Staged, Whole,
                       Dir(Json(Valid(s.procs[p].branch, s.procs[p].writeId)), GitDir(Own), true))
  {
  }

  /** Seven steps from the first look to a whole staged workspace. */
  lemma AloneStages(s: State, p: Pid, ch: Choice, short: Branch -> Short)
    requires Inv(s, short) && p in s.procs && s.procs[p].pc == Before(First) && Honestly(s, p, ch, short)
    requires Final(s.procs[p].branch) !in s.fs.dir
    ensures Underway(s, Alone(s, p, ch, 7), p, ch.name, ch.ino, Staged, Whole,
                     Dir(Json(Valid(s.procs[p].branch, s.procs[p].writeId)), GitDir(Own), true))
    ensures DirOk(Alone(s, p, ch, 7).fs)
  {
    AloneClones(s, p, ch, short);
    NextStage(s, Alone(s, p, ch, 3), p, ch, ch.name, ch.ino, Cloning, Begun, Dir(NoMeta, NoGit, false));
    assert Alone(s, p, ch, 4) == Step(Alone(s, p, ch, 3), p, ch);
    NextStage(s, Alone(s, p, ch, 4), p, ch, ch.name, ch.ino, Check, Cloned, Dir(NoMeta, GitDir(Own), false));
    assert Alone(s, p, ch, 5) == Step(Alone(s, p, ch, 4), p, ch);
    NextStage(s, Alone(s, p, ch, 5), p, ch, ch.name, ch.ino, Checkout, Cloned, Dir(NoMeta, GitDir(Own), false));
    assert Alone(s, p, ch, 6) == Step(Alone(s, p, ch, 5), p, ch);
    NextStage(s, Alone(s, p, ch, 6), p, ch, ch.name, ch.ino, WriteMeta, CheckedOut, Dir(NoMeta, GitDir(Own), true));
    assert Alone(s, p, ch, 7) == Step(Alone(s, p, ch, 6), p, ch);
  }

  // --- Publishing -------------------------------------------------------------------------------------

  /** A staged workspace, at `n`, about to take the lock or holding it. */
  ghost predicate ReadyToPublish(s: State, p: Pid, n: Name, pc: PC) {
    && DirOk(s.fs) && p in s.procs && s.procs[p].pc == pc
    && n in s.fs.dir && TreeAt(s.fs, n).Dir? && n != Final(s.procs[p].branch)
  }

  /** The name free, or an empty directory there: the workspace lands and the lock is let go. */
  lemma AloneLands(s: State, p: Pid, n: Name, k: nat, ch: Choice)
    requires ReadyToPublish(s, p, n, Publishing(n, k, Rename)) && ch.report.Honest?
    requires var at := Final(s.procs[p].branch); at in s.fs.dir ==> Empty(TreeAt(s.fs, at))
    ensures var t, at := Alone(s, p, ch, 2), Final(s.procs[p].branch);
            && t.procs[p].pc == Done(Published)
            && at in t.fs.dir && t.fs.dir[at] == s.fs.dir[n] && t.fs.nodes == s.fs.nodes
            && t.fs.dir == (s.fs.dir - {n})[at := s.fs.dir[n]]
            && t.locks == s.locks - {s.procs[p].branch}
  {
    var t := Step(s, p, ch);
    assert Alone(s, p, ch, 0) == s;
    assert Alone(s, p, ch, 1) == t;
    assert t.procs[p].pc == Unlock(Some(n), Published);
    assert DirOk(t.fs);
  }

  /** What is at the name and is not empty refuses the rename; the process looks at it, and changes nothing. */
  lemma AloneInspects(s: State, p: Pid, n: Name, k: nat, ch: Choice)
    requires ReadyToPublish(s, p, n, Publishing(n, k, Rename)) && ch.report.Honest?
    requires var at := Final(s.procs[p].branch); at in s.fs.dir && !Empty(TreeAt(s.fs, at))
    ensures var tree := TreeAt(s.fs, Final(s.procs[p].branch));
            Alone(s, p, ch, 2) == At(s, p, s.fs,
              if HasJson(tree) then Unlock(Some(n), Exists)
              else if tree.Dir? && tree.meta.Archived? then Unlock(Some(n), Busy)
              else Clearing(Publish(n, k), Stat))
  {
    assert Alone(s, p, ch, 0) == s;
    assert Alone(s, p, ch, 1) == At(s, p, s.fs, Publishing(n, k, Inspect));
  }

  // --- Quarantine -------------------------------------------------------------------------------------

  /** About to quarantine what is at its branch name, with two names nothing has used. */
  ghost predicate ReadyToClear(s: State, p: Pid, asker: Asker, aside: Name) {
    && DirOk(s.fs) && p in s.procs && s.procs[p].pc == Clearing(asker, Stat)
    && Final(s.procs[p].branch) in s.fs.dir && aside.Repair? && aside !in s.fs.dir
  }

  /** After the take, under its own name: what was at the branch name, and nothing else moved. */
  lemma AloneTakes(s: State, p: Pid, asker: Asker, ch: Choice)
    requires ReadyToClear(s, p, asker, ch.name) && ch.report.Honest?
    ensures var t, at := Alone(s, p, ch, 2), Final(s.procs[p].branch);
            var ino := s.fs.dir[at];
            && DirOk(t.fs) && t.fs.nodes == s.fs.nodes && t.fs.clock == s.fs.clock && t.locks == s.locks
            && t.fs.dir == (s.fs.dir - {at})[ch.name := ino]
            && t.procs == s.procs[p := s.procs[p].(pc := Clearing(asker, Held(ino, Candidate(ch.name, ino, TreeAt(s.fs, at)), Pending)))]
  {
    assert Alone(s, p, ch, 0) == s;
    assert Alone(s, p, ch, 1) == At(s, p, s.fs, Clearing(asker, Take(s.fs.dir[Final(s.procs[p].branch)])));
  }

  /** Why an undisturbed quarantine keeps a directory, if it does. */
  function KeptFor(s: State, p: Pid, asker: Asker): Option<Reason>
    requires DirOk(s.fs) && p in s.procs && Final(s.procs[p].branch) in s.fs.dir
  {
    var at := Final(s.procs[p].branch);
    var node := s.fs.nodes[s.fs.dir[at]];
    if HasValidJson(node.tree) then Some(IsLive)
    else if HasJson(node.tree) then Some(IsCorrupt)
    else if node.tree.Dir? && node.tree.meta.Archived? then Some(IsProtected)
    else if node.tree.Dir? && (node.tree.git.GitFile? || (node.tree.git.GitDir? && node.tree.git.remote.Other?)) then Some(IsForeign)
    else if QuietMs(s.fs, asker, node.touched) < MinQuietMs(asker) then Some(TooYoung)
    else None
  }

  lemma KeptIsJudged(s: State, g: Files, p: Pid, asker: Asker, aside: Name)
    requires DirOk(s.fs) && p in s.procs && Final(s.procs[p].branch) in s.fs.dir && DirOk(g)
    requires g.nodes == s.fs.nodes && g.clock == s.fs.clock && aside in g.dir && g.dir[aside] == s.fs.dir[Final(s.procs[p].branch)]
    ensures Judge(g, asker, g.dir[aside], aside) == KeptFor(s, p, asker)
  {
  }

  lemma AloneJudges(s: State, p: Pid, asker: Asker, ch: Choice)
    requires ReadyToClear(s, p, asker, ch.name) && ch.report.Honest?
    ensures var t, two := Alone(s, p, ch, 3), Alone(s, p, ch, 2);
            var at, kept := Final(s.procs[p].branch), KeptFor(s, p, asker);
            && t.fs == two.fs && t.locks == s.locks
            && t.procs == s.procs[p := s.procs[p].(pc := Clearing(asker, Held(s.fs.dir[at], Candidate(ch.name, s.fs.dir[at], TreeAt(s.fs, at)),
                                                       if kept.Some? then Back(kept.value) else ToTrash)))]
  {
    var two := Alone(s, p, ch, 2);
    AloneTakes(s, p, asker, ch);
    KeptIsJudged(s, two.fs, p, asker, ch.name);
    assert Alone(s, p, ch, 3) == Step(two, p, ch);
  }

  /** A kept directory is back at its name, with every name and directory as it was, and the answer says why. */
  lemma AloneKeeps(s: State, p: Pid, asker: Asker, ch: Choice)
    requires ReadyToClear(s, p, asker, ch.name) && ch.report.Honest? && KeptFor(s, p, asker).Some?
    ensures var t := Alone(s, p, ch, 4);
            && t.fs.dir == s.fs.dir && t.fs.nodes == s.fs.nodes && t.locks == s.locks
            && t.procs[p].pc == AfterKept(asker, KeptFor(s, p, asker).value)
  {
    AloneTakes(s, p, asker, ch);
    AloneJudges(s, p, asker, ch);
    var three, at := Alone(s, p, ch, 3), Final(s.procs[p].branch);
    assert Alone(s, p, ch, 4) == Step(three, p, ch);
    assert RenameOf(three.fs.dir, three.fs.nodes, ch.name, at) == Moved;
    assert MoveName(three.fs.dir, ch.name, at) == s.fs.dir;
  }

  /** Quiet residue is in trash under the name it was given, its branch name free, and the asker goes on. */
  lemma AloneTrashes(s: State, p: Pid, asker: Asker, ch: Choice, last: Choice)
    requires ReadyToClear(s, p, asker, ch.name) && ch.report.Honest? && KeptFor(s, p, asker).None?
    requires last.report.Honest? && last.name.Trash?
    ensures DirOk(Alone(s, p, ch, 3).fs)
    ensures var t, at := Step(Alone(s, p, ch, 3), p, last), Final(s.procs[p].branch);
            && t.fs.dir == (s.fs.dir - {at})[last.name := s.fs.dir[at]] && t.fs.nodes == s.fs.nodes && t.locks == s.locks
            && t.procs[p].pc == Again(asker)
  {
    AloneTakes(s, p, asker, ch);
    AloneJudges(s, p, asker, ch);
    var three, at := Alone(s, p, ch, 3), Final(s.procs[p].branch);
    assert MoveName(three.fs.dir, ch.name, last.name) == (s.fs.dir - {at})[last.name := s.fs.dir[at]];
  }

  // --- Both together ----------------------------------------------------------------------------------

  lemma {:induction false} AloneOn(s: State, p: Pid, ch: Choice, i: nat, j: nat)
    requires DirOk(s.fs) && p in s.procs && DirOk(Alone(s, p, ch, i).fs)
    ensures Alone(s, p, ch, i + j) == Alone(Alone(s, p, ch, i), p, ch, j)
  {
    if j > 0 {
      AloneOn(s, p, ch, i, j - 1);
      SameOnward(Alone(s, p, ch, i + j - 1), Alone(Alone(s, p, ch, i), p, ch, j - 1), p, ch);
    }
  }

  lemma SameOnward(s: State, t: State, p: Pid, ch: Choice)
    requires s == t && p in s.procs
    ensures Onward(s, p, ch) == Onward(t, p, ch)
  {
  }

  lemma AloneLocks(s: State, t: State, p: Pid, ch: Choice, n: Name, ino: Ino, tree: Tree)
    requires DirOk(t.fs) && p in s.procs && ch.report.Honest? && s.procs[p].branch !in s.locks
    requires Underway(s, t, p, n, ino, Staged, Whole, tree)
    ensures var u := Alone(t, p, ch, 1);
            && u.fs == t.fs && u.locks == s.locks[s.procs[p].branch := p]
            && u.procs == s.procs[p := s.procs[p].(pc := Publishing(n, 0, Rename))]
  {
    assert Alone(t, p, ch, 0) == t;
  }

  lemma LandsOnceLocked(s: State, locked: State, p: Pid, ch: Choice, node: Node)
    requires DirOk(s.fs) && DirOk(locked.fs) && p in s.procs && ch.report.Honest? && ch.name.Staging?
    requires ch.name !in s.fs.dir && Final(s.procs[p].branch) !in s.fs.dir && s.procs[p].branch !in s.locks
    requires locked.fs.dir == s.fs.dir[ch.name := ch.ino] && locked.fs.nodes == s.fs.nodes[ch.ino := node] && node.tree.Dir?
    requires locked.locks == s.locks[s.procs[p].branch := p]
    requires locked.procs == s.procs[p := s.procs[p].(pc := Publishing(ch.name, 0, Rename))]
    ensures var t := Alone(locked, p, ch, 2);
            && t.procs[p].pc == Done(Published)
            && t.fs.dir == s.fs.dir[Final(s.procs[p].branch) := ch.ino] && t.fs.nodes == locked.fs.nodes && t.locks == s.locks
  {
    AloneLands(locked, p, ch.name, 0, ch);
    assert (s.fs.dir[ch.name := ch.ino] - {ch.name}) == s.fs.dir;
    assert s.locks[s.procs[p].branch := p] - {s.procs[p].branch} == s.locks;
  }

  /**
   * Ten steps from the first look to "published": the new workspace is at the branch name, whole and
   * with the caller's branch.json, the staging name is gone, the lock is free, nothing else moved.
   */
  lemma AloneCreates(s: State, p: Pid, ch: Choice, short: Branch -> Short)
    requires Inv(s, short) && p in s.procs && s.procs[p].pc == Before(First) && Honestly(s, p, ch, short)
    requires Final(s.procs[p].branch) !in s.fs.dir && s.procs[p].branch !in s.locks
    ensures var t, b := Alone(s, p, ch, 10), s.procs[p].branch;
            && t.procs[p].pc == Done(Published)
            && t.fs.dir == s.fs.dir[Final(b) := ch.ino]
            && t.fs.nodes == s.fs.nodes[ch.ino := Node(Dir(Json(Valid(b, s.procs[p].writeId)), GitDir(Own), true), s.fs.clock, Whole)]
            && t.locks == s.locks
  {
    var b := s.procs[p].branch;
    var staged, locked := Alone(s, p, ch, 7), Alone(s, p, ch, 8);
    AloneStages(s, p, ch, short);
    AloneLocks(s, staged, p, ch, ch.name, ch.ino, Dir(Json(Valid(b, s.procs[p].writeId)), GitDir(Own), true));
    AloneOn(s, p, ch, 7, 1);
    LandsOnceLocked(s, locked, p, ch, Node(Dir(Json(Valid(b, s.procs[p].writeId)), GitDir(Own), true), s.fs.clock, Whole));
    AloneOn(s, p, ch, 8, 2);
  }

  // --- Recovery ---------------------------------------------------------------------------------------

  /** Recovery `p` takes `k` steps, and no one else any. */
  ghost function Recovering(s: State, p: Pid, short: Branch -> Short, k: nat): (t: State)
    requires DirOk(s.fs) && p in s.sweeps
    ensures p in t.sweeps
  {
    if k == 0 then s
    else
      var t := Recovering(s, p, short, k - 1);
      if DirOk(t.fs) then RecoveryStep(t, p, short) else t
  }

  lemma RecoveryFinds(s: State, p: Pid, n: Name, d: Branch, short: Branch -> Short)
    requires DirOk(s.fs) && p in s.sweeps && s.sweeps[p] == RRead(n) && n.Repair? && n in s.fs.dir
    requires HasValidJson(TreeAt(s.fs, n)) && TreeAt(s.fs, n).meta.file.branch == d && n.short == short(d)
    requires Final(d) !in s.fs.dir && d !in s.locks
    ensures Recovering(s, p, short, 3) == SweepAt(s.(locks := s.locks[d := p]), p, s.fs, RRename(n, d))
  {
    assert Recovering(s, p, short, 0) == s;
    assert Recovering(s, p, short, 1) == SweepAt(s, p, s.fs, RLock(n, d));
    assert Recovering(s, p, short, 2) == SweepAt(s.(locks := s.locks[d := p]), p, s.fs, RCheck(n, d));
  }

  /** A candidate that names a branch of its own short name, whose name is free, is back there with the lock let go. */
  lemma RecoveryRestores(s: State, p: Pid, n: Name, d: Branch, short: Branch -> Short)
    requires DirOk(s.fs) && p in s.sweeps && s.sweeps[p] == RRead(n) && n.Repair? && n in s.fs.dir
    requires HasValidJson(TreeAt(s.fs, n)) && TreeAt(s.fs, n).meta.file.branch == d && n.short == short(d)
    requires Final(d) !in s.fs.dir && d !in s.locks
    ensures var t := Recovering(s, p, short, 5);
            && t.sweeps[p] == RDone && t.locks == s.locks
            && t.fs.dir == (s.fs.dir - {n})[Final(d) := s.fs.dir[n]] && t.fs.nodes == s.fs.nodes
  {
    RecoveryFinds(s, p, n, d, short);
    var three, four := Recovering(s, p, short, 3), Recovering(s, p, short, 4);
    assert four == RecoveryStep(three, p, short);
    assert four.fs == Move(s.fs, n, Final(d)) && four.sweeps[p] == RRelease(n, d, false);
    assert DirOk(four.fs);
    assert s.locks[d := p] - {d} == s.locks;
  }

  /** A candidate without valid branch.json, or of another name's bounded form, goes to trash. */
  lemma RecoveryDiscards(s: State, p: Pid, n: Name, short: Branch -> Short)
    requires DirOk(s.fs) && p in s.sweeps && s.sweeps[p] == RRead(n) && n.Repair? && n in s.fs.dir
    requires HasValidJson(TreeAt(s.fs, n)) ==> n.short != short(TreeAt(s.fs, n).meta.file.branch)
    requires Trash(n.short, n.tag, n.stamp) !in s.fs.dir
    ensures var t := Recovering(s, p, short, 2);
            && t.sweeps[p] == RDone && t.locks == s.locks && t.fs.nodes == s.fs.nodes
            && t.fs.dir == (s.fs.dir - {n})[Trash(n.short, n.tag, n.stamp) := s.fs.dir[n]]
  {
    var one := Recovering(s, p, short, 1);
    assert Recovering(s, p, short, 0) == s;
    assert one.fs == s.fs && one.locks == s.locks && one.sweeps[p].RTrash? && one.sweeps[p].name == n;
    assert Recovering(s, p, short, 2) == RecoveryStep(one, p, short);
  }
}
