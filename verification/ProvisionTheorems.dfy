/** What the provisioning protocol guarantees over every run, crashes and interleavings included. */
module ProvisionTheorems {
  import opened Options
  import opened ProvisionState
  import opened ProvisionSteps
  import opened ProvisionInvariant
  import opened ProvisionEffects
  import opened ProvisionPreserves

  ghost predicate Follows(s: State, a: Action, t: State, short: Branch -> Short) {
    DirOk(s.fs) && Enabled(s, a, short) && t == Apply(s, a, short)
  }

  ghost predicate IsRun(states: seq<State>, acts: seq<Action>, short: Branch -> Short) {
    && |states| == |acts| + 1
    && Init(states[0])
    && forall k :: 0 <= k < |acts| ==> Follows(states[k], acts[k], states[k + 1], short)
  }

  lemma {:induction false} RunInv(states: seq<State>, acts: seq<Action>, short: Branch -> Short, k: nat)
    requires IsRun(states, acts, short) && k < |states|
    ensures Inv(states[k], short)
  {
    if k == 0 {
      InitInv(states[0], short);
    } else {
      RunInv(states, acts, short, k - 1);
      assert Follows(states[k - 1], acts[k - 1], states[k], short);
      StepKeeps(states[k - 1], acts[k - 1], short);
    }
  }

  // --- A branch name never shows a partial workspace ---------------------------------------------

  predicate BareAt(f: Files, b: Branch, ino: Ino) {
    Final(b) in f.dir && f.dir[Final(b)] == ino && ino in f.nodes && !HasJson(f.nodes[ino].tree)
  }

  /** The one change of a step that follows in a run. */
  lemma Explained(s: State, a: Action, t: State, short: Branch -> Short) returns (c: Change)
    requires Inv(s, short) && Follows(s, a, t, short)
    ensures Explains(s, a, t, c)
  {
    c := Effect(s, a, short);
  }

  lemma SeatedGrows(s: State, a: Action, t: State, c: Change, at: (Branch, Ino))
    requires Explains(s, a, t, c) && at !in s.fs.seated && at in t.fs.seated
    ensures a.EnvEdit? && a.branch == at.0 && BareAt(t.fs, at.0, at.1)
  {
  }

  /** Where a seat comes from: the start, or an edit of the environment. */
  ghost predicate SeatedBy(states: seq<State>, acts: seq<Action>, j: nat, at: (Branch, Ino))
    requires |states| == |acts| + 1 && j < |states|
  {
    && BareAt(states[j].fs, at.0, at.1)
    && (j == 0 || (acts[j - 1].EnvEdit? && acts[j - 1].branch == at.0))
  }

  lemma NewSeat(states: seq<State>, acts: seq<Action>, short: Branch -> Short, k: nat, at: (Branch, Ino))
    requires IsRun(states, acts, short) && k < |acts| && Inv(states[k], short) && Follows(states[k], acts[k], states[k + 1], short)
    requires at !in states[k].fs.seated && at in states[k + 1].fs.seated
    ensures SeatedBy(states, acts, k + 1, at)
  {
    var c := Explained(states[k], acts[k], states[k + 1], short);
    SeatedGrows(states[k], acts[k], states[k + 1], c, at);
  }

  lemma {:induction false} SeatOrigin(states: seq<State>, acts: seq<Action>, short: Branch -> Short, k: nat, at: (Branch, Ino))
    requires IsRun(states, acts, short) && k < |states| && at in states[k].fs.seated
    ensures exists j: nat :: j <= k && SeatedBy(states, acts, j, at)
  {
    if k == 0 {
      assert SeatedBy(states, acts, 0, at);
    } else {
      assert Follows(states[k - 1], acts[k - 1], states[k], short);
      if at in states[k - 1].fs.seated {
        SeatOrigin(states, acts, short, k - 1, at);
      } else {
        RunInv(states, acts, short, k - 1);
        NewSeat(states, acts, short, k - 1, at);
      }
    }
  }

  /** A branch name without branch.json is the same inode that the start or an edit left there without one. */
  lemma BareIsNeverNew(states: seq<State>, acts: seq<Action>, short: Branch -> Short, k: nat, b: Branch, ino: Ino)
    requires IsRun(states, acts, short) && k < |states| && BareAt(states[k].fs, b, ino)
    ensures exists j: nat :: j <= k && SeatedBy(states, acts, j, (b, ino))
  {
    RunInv(states, acts, short, k);
    SeatOrigin(states, acts, short, k, (b, ino));
  }

  /** An inode reaches branch name `b` in a step. */
  predicate Placed(f: Files, g: Files, b: Branch) {
    Final(b) in g.dir && (Final(b) !in f.dir || f.dir[Final(b)] != g.dir[Final(b)])
  }

  /** A publish lands a whole workspace that carries the caller's own branch.json. */
  ghost predicate WholeWorkspace(s: State, a: Action, b: Branch, ino: Ino) {
    && a.Proceed? && a.p in s.procs
    && s.procs[a.p].pc.Publishing?
    && Publishes(s, a, s.procs[a.p].pc.staging, b, s.procs[a.p].writeId)
    && ino in s.fs.nodes
    && s.fs.nodes[ino].progress == Whole
    && s.fs.nodes[ino].tree == Dir(Json(Valid(b, s.procs[a.p].writeId)), GitDir(Own), true)
  }

  /** A quarantine puts back what it took from the same name. */
  ghost predicate TakenFrom(s: State, a: Action, b: Branch, ino: Ino) {
    && a.Proceed? && a.p in s.procs
    && s.procs[a.p].pc.Clearing? && s.procs[a.p].pc.stage.Held?
    && MovesBack(s, a, s.procs[a.p].pc.stage.cand.name, Final(b))
    && ino in s.fs.nodes
    && s.procs[a.p].pc.stage.cand.ino == ino
    && s.fs.nodes[ino].tree == s.procs[a.p].pc.stage.cand.seen
    && (HasJson(s.fs.nodes[ino].tree) || (b, ino) in s.fs.seated)
  }

  /** A recovery restores a directory to the branch its own branch.json names. */
  ghost predicate RestoredTo(s: State, a: Action, b: Branch, ino: Ino, short: Branch -> Short) {
    && a.ProceedRecovery? && a.p in s.sweeps && s.sweeps[a.p].RRename?
    && Restores(s, a, s.sweeps[a.p].name, Final(b))
    && ino in s.fs.nodes
    && HasValidJson(s.fs.nodes[ino].tree) && s.fs.nodes[ino].tree.meta.file.branch == b
    && s.sweeps[a.p].name.Repair? && s.sweeps[a.p].name.short == short(b)
  }

  /** What reaches a branch name is one of these three, and its contents are not touched on the way. */
  lemma NothingPartial(s: State, a: Action, t: State, short: Branch -> Short, b: Branch)
    requires Inv(s, short) && Follows(s, a, t, short) && Placed(s.fs, t.fs, b)
    ensures t.fs.nodes == s.fs.nodes
    ensures var ino := t.fs.dir[Final(b)];
            WholeWorkspace(s, a, b, ino) || TakenFrom(s, a, b, ino) || RestoredTo(s, a, b, ino, short)
  {
    var c := Explained(s, a, t, short);
    PlacedHow(s, a, t, c, short, b);
  }

  lemma PlacedHow(s: State, a: Action, t: State, c: Change, short: Branch -> Short, b: Branch)
    requires Inv(s, short) && Explains(s, a, t, c) && Placed(s.fs, t.fs, b)
    requires a.Proceed? && a.p in s.procs && s.procs[a.p].pc.Publishing? ==> Alive(s.fs, s.procs[a.p])
    ensures t.fs.nodes == s.fs.nodes
    ensures var ino := t.fs.dir[Final(b)];
            WholeWorkspace(s, a, b, ino) || TakenFrom(s, a, b, ino) || RestoredTo(s, a, b, ino, short)
  {
    if c.Moves? {
      MovedHow(s, a, c.src, short, b);
    }
  }

  lemma MovedHow(s: State, a: Action, src: Name, short: Branch -> Short, b: Branch)
    requires Inv(s, short) && src in s.fs.dir && MovedBy(s, a, src, Final(b))
    ensures TakenFrom(s, a, b, s.fs.dir[src]) || RestoredTo(s, a, b, s.fs.dir[src], short)
  {
  }

  // --- Conservation --------------------------------------------------------------------------------

  /** No step but a removal, a build or an edit touches a directory with anything in it; it is renamed at most. */
  lemma Conserved(s: State, a: Action, t: State, short: Branch -> Short, n: Name)
    requires Inv(s, short) && Follows(s, a, t, short) && n in s.fs.dir
    requires TreeAt(s.fs, n).Dir? && !Empty(TreeAt(s.fs, n))
    requires !InLeftover(s, a, n) && !(a.EnvEdit? && n == Final(a.branch))
    ensures exists m :: (m == n || RenamedBy(s, a, n, m)) && SameAt(s.fs, n, t.fs, m)
  {
    var c := Explained(s, a, t, short);
    var m := KeptWhere(s, a, t, c, n);
  }

  ghost predicate SameAt(f: Files, n: Name, g: Files, m: Name)
    requires DirOk(f) && n in f.dir
  {
    m in g.dir && g.dir[m] == f.dir[n] && g.dir[m] in g.nodes && g.nodes[g.dir[m]] == f.nodes[f.dir[n]]
  }

  predicate RenamedBy(s: State, a: Action, n: Name, m: Name) {
    || MovedBy(s, a, n, m)
    || (&& a.Proceed? && a.p in s.procs && m == Final(s.procs[a.p].branch)
        && Publishes(s, a, n, s.procs[a.p].branch, s.procs[a.p].writeId))
  }

  lemma KeptWhere(s: State, a: Action, t: State, c: Change, n: Name) returns (m: Name)
    requires NamesOk(s.fs) && Explains(s, a, t, c) && n in s.fs.dir
    requires TreeAt(s.fs, n).Dir? && !Empty(TreeAt(s.fs, n))
    requires !InLeftover(s, a, n) && !(a.EnvEdit? && n == Final(a.branch))
    ensures (m == n || RenamedBy(s, a, n, m)) && SameAt(s.fs, n, t.fs, m)
  {
    m := if c.Moves? && c.src == n then c.dst else if c.Lands? && c.name == n then Final(c.branch) else n;
    assert s.fs.home[s.fs.dir[n]] == n;
  }

  /** A quarantine trashes only residue, only the inode it was sent for, and only once it has been quiet. */
  lemma QuarantineTrashesResidue(s: State, a: Action, short: Branch -> Short, src: Name, dst: Name)
    requires Inv(s, short) && Trashes(s, a, src, dst) && src in s.fs.dir
    ensures var pc := s.procs[a.p].pc;
            && Classify(TreeAt(s.fs, src)) == Residue
            && s.fs.dir[src] == pc.stage.expected
            && QuietMs(s.fs, pc.asker, s.fs.nodes[s.fs.dir[src]].touched) >= MinQuietMs(pc.asker)
  {
  }

  /** A candidate is given up exactly when it is the inode sent for, residue, and quiet for long enough. */
  lemma GivenUpIff(f: Files, asker: Asker, expected: Ino, c: Name)
    requires DirOk(f)
    ensures Judge(f, asker, expected, c).None? <==>
              && c in f.dir && f.dir[c] == expected
              && IsResidue(TreeAt(f, c))
              && QuietMs(f, asker, f.nodes[f.dir[c]].touched) >= MinQuietMs(asker)
  {
  }

  /** Nothing the deployment could still be using: no branch.json or trace of one, and no repository but its own. */
  predicate IsResidue(t: Tree) {
    t.File? || (t.meta.NoMeta? && (t.git.NoGit? || (t.git.GitDir? && !t.git.remote.Other?)))
  }

  /** While a quarantine holds a directory its name stays free, so moving it back is never refused. */
  lemma NoStranding(s: State, a: Action, t: State, short: Branch -> Short, src: Name, dst: Name)
    requires Inv(s, short) && Follows(s, a, t, short) && MovesBack(s, a, src, dst) && src in s.fs.dir
    requires !a.ch.report.Broken?
    ensures dst !in s.fs.dir && dst in t.fs.dir && t.fs.dir[dst] == s.fs.dir[src]
    ensures src !in t.fs.dir && t.fs.nodes == s.fs.nodes
  {
  }

  /** A builder that can still step has its staging directory as it left it, so no stage finds it gone. */
  lemma BuilderFindsItsStaging(s: State, short: Branch -> Short, p: Pid, ch: Choice)
    requires Inv(s, short) && Enabled(s, Proceed(p, ch), short) && s.procs[p].pc.Building?
    ensures Built(s.fs, s.procs[p], s.procs[p].pc.staging, Expected(s.procs[p].pc).value)
    ensures s.fs.used[s.procs[p].pc.staging] == Some(p)
  {
    assert ProcFiles(s.fs, p, s.procs[p]);
  }

  /** No sweep may remove from the staging directory of a builder within its lifetime. */
  lemma LiveBuildIsNotSwept(s: State, short: Branch -> Short, p: Pid, n: Name, tree: Tree, gone: bool)
    requires Inv(s, short) && p in s.procs && StagingOf(s.procs[p].pc) == Some(n)
    requires s.fs.clock <= s.procs[p].started + BUILDER_LIFETIME_MS
    ensures !Enabled(s, Rm(n, tree, gone), short)
  {
  }
}
