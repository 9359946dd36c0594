/** What an answer of a provisioner says about the run that led to it. */
module ProvisionHistory {
  import opened Options
  import opened ProvisionState
  import opened ProvisionSteps
  import opened ProvisionInvariant
  import opened ProvisionEffects
  import opened ProvisionPreserves
  import opened ProvisionTheorems

  // --- Landings -------------------------------------------------------------------------------------

  /** `p` moves its staged workspace to branch name `b`. */
  ghost predicate LandsAt(s: State, a: Action, p: Pid, b: Branch) {
    && DirOk(s.fs)
    && a.Proceed? && a.p == p && p in s.procs && s.procs[p].branch == b
    && s.procs[p].pc.Publishing? && s.procs[p].pc.at.Rename?
    && RenameOf(s.fs.dir, s.fs.nodes, s.procs[p].pc.staging, Final(b)).Moved?
  }

  ghost predicate IsAt(f: Files, b: Branch, ino: Ino) {
    Final(b) in f.dir && f.dir[Final(b)] == ino
  }

  /** A provisioned workspace leaves its branch name: deleted, purged, or taken by a quarantine. */
  ghost predicate RemovedAt(states: seq<State>, acts: seq<Action>, m: nat, b: Branch, ino: Ino)
    requires |states| == |acts| + 1
  {
    && m < |acts|
    && IsAt(states[m].fs, b, ino) && !IsAt(states[m + 1].fs, b, ino)
    && exists to :: Removes(acts[m], Final(b), to) || Takes(states[m], acts[m], Final(b), to)
  }

  lemma LandingPublishes(s: State, a: Action, t: State, short: Branch -> Short, p: Pid, b: Branch)
    requires Inv(s, short) && Follows(s, a, t, short) && LandsAt(s, a, p, b)
    ensures Final(b) in t.fs.dir && t.fs.dir[Final(b)] in t.fs.nodes
    ensures t.fs.nodes[t.fs.dir[Final(b)]].tree == Dir(Json(Valid(b, s.procs[p].writeId)), GitDir(Own), true)
    ensures t.fs.dir[Final(b)] in t.fs.published && t.fs.published[t.fs.dir[Final(b)]] == (b, s.procs[p].writeId)
  {
  }

  /** Nothing lands on a provisioned workspace: it is not empty, so the rename is refused. */
  lemma NoLandingOver(s: State, a: Action, short: Branch -> Short, p: Pid, b: Branch, ino: Ino)
    requires Inv(s, short) && Enabled(s, a, short) && IsAt(s.fs, b, ino) && ino in s.fs.published
    ensures !LandsAt(s, a, p, b)
  {
  }

  lemma LeftoverIsNoBranch(s: State, a: Action, short: Branch -> Short, n: Name)
    requires Inv(s, short) && InLeftover(s, a, n)
    ensures !n.Final?
  {
  }

  lemma MovedFromBranch(s: State, a: Action, short: Branch -> Short, b: Branch, dst: Name)
    requires Inv(s, short) && MovedBy(s, a, Final(b), dst)
    ensures Removes(a, Final(b), dst) || Takes(s, a, Final(b), dst)
  {
  }

  lemma MovedToBranch(s: State, a: Action, short: Branch -> Short, src: Name, b: Branch)
    requires Inv(s, short) && MovedBy(s, a, src, Final(b))
    ensures Final(b) !in s.fs.dir
  {
    if a.Proceed? {
      assert MovesBack(s, a, src, Final(b));
      assert ProcFiles(s.fs, a.p, s.procs[a.p]);
    } else {
      assert Restores(s, a, src, Final(b));
    }
  }

  lemma MoveIsRemoval(s: State, a: Action, short: Branch -> Short, src: Name, dst: Name, b: Branch)
    requires Inv(s, short) && MovedBy(s, a, src, dst) && Final(b) in s.fs.dir && (src == Final(b) || dst == Final(b))
    ensures exists to :: Removes(a, Final(b), to) || Takes(s, a, Final(b), to)
  {
    if src == Final(b) {
      MovedFromBranch(s, a, short, b, dst);
    } else {
      MovedToBranch(s, a, short, src, b);
    }
  }

  lemma OtherChangesLeaveIt(s: State, a: Action, t: State, c: Change, b: Branch, ino: Ino)
    requires Explains(s, a, t, c) && IsAt(s.fs, b, ino)
    requires c.Moves? ==> c.src != Final(b) && c.dst != Final(b)
    requires c.Lands? ==> c.branch != b && c.name != Final(b)
    requires c.Unlinks? ==> c.name != Final(b)
    ensures IsAt(t.fs, b, ino)
  {
  }

  lemma StagedIsNoBranch(s: State, a: Action, short: Branch -> Short, n: Name, b: Branch, w: nat)
    requires Inv(s, short) && Publishes(s, a, n, b, w)
    ensures !n.Final?
  {
    assert OwnStaging(s.fs, a.p, s.procs[a.p], n);
  }

  lemma LeavingIsRemoval(s: State, a: Action, t: State, c: Change, short: Branch -> Short, b: Branch, ino: Ino)
    requires Inv(s, short) && Enabled(s, a, short) && Explains(s, a, t, c)
    requires IsAt(s.fs, b, ino) && ino in s.fs.published && !IsAt(t.fs, b, ino)
    ensures exists to :: Removes(a, Final(b), to) || Takes(s, a, Final(b), to)
  {
    if c.Moves? && (c.src == Final(b) || c.dst == Final(b)) {
      MoveIsRemoval(s, a, short, c.src, c.dst, b);
    } else {
      if c.Lands? {
        StagedIsNoBranch(s, a, short, c.name, c.branch, c.writeId);
        NoLandingOver(s, a, short, a.p, b, ino);
      } else if c.Unlinks? {
        LeftoverIsNoBranch(s, a, short, c.name);
      }
      OtherChangesLeaveIt(s, a, t, c, b, ino);
    }
  }

  lemma PublishedStays(s: State, a: Action, t: State, c: Change, short: Branch -> Short, ino: Ino)
    requires Explains(s, a, t, c) && ino in s.fs.published
    requires Inv(s, short) && Enabled(s, a, short)
    ensures ino in t.fs.published
  {
  }

  // --- What became of a take ------------------------------------------------------------------------

  /** Quarantine `r` holds inode `ino`, taken from `b`, under the candidate name `c`. */
  ghost predicate HeldBy(s: State, r: Pid, b: Branch, c: Name, ino: Ino) {
    && r in s.procs && s.procs[r].branch == b
    && s.procs[r].pc.Clearing? && s.procs[r].pc.stage.Held?
    && s.procs[r].pc.stage.cand.name == c && s.procs[r].pc.stage.cand.ino == ino
  }

  /** `r` is done with its candidate and has not put it back: it died, trashed it, its rename broke, or it was gone. */
  ghost predicate LetsGo(s: State, a: Action, r: Pid, c: Name) {
    || a == Crash(r)
    || (&& a.Proceed? && a.p == r && r in s.procs
        && s.procs[r].pc.Clearing? && s.procs[r].pc.stage.Held? && s.procs[r].pc.stage.cand.name == c
        && !s.procs[r].pc.stage.verdict.Pending?
        && (a.ch.report.Broken? || c !in s.fs.dir || Trashes(s, a, c, a.ch.name)))
  }

  lemma TakeHolds(s: State, a: Action, t: State, short: Branch -> Short, b: Branch, ino: Ino, c: Name)
    requires Inv(s, short) && Follows(s, a, t, short) && Takes(s, a, Final(b), c)
    requires IsAt(s.fs, b, ino) && !IsAt(t.fs, b, ino)
    ensures HeldBy(t, a.p, b, a.ch.name, ino)
  {
  }

  lemma HoldStep(s: State, a: Action, t: State, short: Branch -> Short, r: Pid, b: Branch, c: Name, ino: Ino)
    requires Inv(s, short) && Follows(s, a, t, short) && HeldBy(s, r, b, c, ino)
    ensures HeldBy(t, r, b, c, ino) || LetsGo(s, a, r, c) || IsAt(t.fs, b, ino)
  {
    assert ProcFiles(s.fs, r, s.procs[r]);
    if a.Proceed? && a.p == r {
      HolderStep(s, r, a.ch, short, b, c, ino);
    }
  }

  lemma HolderStep(s: State, r: Pid, ch: Choice, short: Branch -> Short, b: Branch, c: Name, ino: Ino)
    requires DirOk(s.fs) && HeldBy(s, r, b, c, ino) && ProcFiles(s.fs, r, s.procs[r]) && Ready(s, r, ch, short)
    ensures var t := ClearStep(s, r, s.procs[r].pc.asker, s.procs[r].pc.stage, ch);
            HeldBy(t, r, b, c, ino) || LetsGo(s, Proceed(r, ch), r, c) || IsAt(t.fs, b, ino)
  {
  }

  /** A landing finds no quarantine of its branch holding anything: the lander has the lock. */
  lemma LanderExcludes(s: State, a: Action, short: Branch -> Short, q: Pid, r: Pid, b: Branch, c: Name, ino: Ino)
    requires Inv(s, short) && LandsAt(s, a, q, b)
    ensures !HeldBy(s, r, b, c, ino)
  {
    assert ProcLock(s.locks, q, s.procs[q]);
    if r in s.procs {
      assert ProcLock(s.locks, r, s.procs[r]);
    }
  }

  ghost predicate LetGoBetween(states: seq<State>, acts: seq<Action>, m: nat, k: nat, r: Pid, c: Name)
    requires |states| == |acts| + 1 && k < |states|
  {
    exists x :: m < x < k && LetsGo(states[x], acts[x], r, c)
  }

  /** From a held candidate to a landing without it back at its name, its holder let it go. */
  lemma {:induction false} LetGoBefore(states: seq<State>, acts: seq<Action>, short: Branch -> Short,
                                       m: nat, x: nat, k: nat, q: Pid, r: Pid, b: Branch, c: Name, ino: Ino)
    requires IsRun(states, acts, short) && m < x <= k < |acts|
    requires HeldBy(states[x], r, b, c, ino) && LandsAt(states[k], acts[k], q, b)
    requires forall y :: x < y <= k ==> !IsAt(states[y].fs, b, ino)
    ensures LetGoBetween(states, acts, m, k, r, c)
    decreases k - x
  {
    RunInv(states, acts, short, x);
    if x == k {
      LanderExcludes(states[k], acts[k], short, q, r, b, c, ino);
    } else {
      assert Follows(states[x], acts[x], states[x + 1], short);
      HoldStep(states[x], acts[x], states[x + 1], short, r, b, c, ino);
      if !LetsGo(states[x], acts[x], r, c) {
        LetGoBefore(states, acts, short, m, x + 1, k, q, r, b, c, ino);
      }
    }
  }

  // --- Between two landings ---------------------------------------------------------------------------

  lemma {:induction false} PublishedKept(states: seq<State>, acts: seq<Action>, short: Branch -> Short, j: nat, k: nat, ino: Ino)
    requires IsRun(states, acts, short) && j <= k < |states| && ino in states[j].fs.published
    ensures ino in states[k].fs.published
    decreases k - j
  {
    if j < k {
      RunInv(states, acts, short, j);
      assert Follows(states[j], acts[j], states[j + 1], short);
      var c := Explained(states[j], acts[j], states[j + 1], short);
      PublishedStays(states[j], acts[j], states[j + 1], c, short, ino);
      PublishedKept(states, acts, short, j + 1, k, ino);
    }
  }

  /** The step after which a workspace is not at its name again, up to `k`. */
  ghost predicate GoneFrom(states: seq<State>, acts: seq<Action>, m: nat, k: nat, b: Branch, ino: Ino)
    requires |states| == |acts| + 1 && k < |states|
  {
    && m < k && RemovedAt(states, acts, m, b, ino)
    && (forall x :: m < x <= k ==> !IsAt(states[x].fs, b, ino))
  }

  lemma LeavesBy(states: seq<State>, acts: seq<Action>, short: Branch -> Short, m: nat, b: Branch, ino: Ino)
    requires IsRun(states, acts, short) && m < |acts| && ino in states[m].fs.published
    requires IsAt(states[m].fs, b, ino) && !IsAt(states[m + 1].fs, b, ino)
    ensures RemovedAt(states, acts, m, b, ino)
  {
    RunInv(states, acts, short, m);
    assert Follows(states[m], acts[m], states[m + 1], short);
    var c := Explained(states[m], acts[m], states[m + 1], short);
    LeavingIsRemoval(states[m], acts[m], states[m + 1], c, short, b, ino);
  }

  /** The last time a provisioned workspace left its name. */
  lemma {:induction false} LastRemoval(states: seq<State>, acts: seq<Action>, short: Branch -> Short,
                                       j: nat, k: nat, b: Branch, ino: Ino) returns (m: nat)
    requires IsRun(states, acts, short) && j <= k < |states|
    requires IsAt(states[j].fs, b, ino) && ino in states[j].fs.published && !IsAt(states[k].fs, b, ino)
    ensures j <= m && GoneFrom(states, acts, m, k, b, ino)
    decreases k
  {
    if IsAt(states[k - 1].fs, b, ino) {
      m := k - 1;
      PublishedKept(states, acts, short, j, m, ino);
      LeavesBy(states, acts, short, m, b, ino);
    } else {
      m := LastRemoval(states, acts, short, j, k - 1, b, ino);
    }
  }

  /** If a quarantine took it, that quarantine let it go before `k`. */
  ghost predicate TakerLetGo(states: seq<State>, acts: seq<Action>, m: nat, k: nat)
    requires |states| == |acts| + 1 && k < |states| && m < |acts|
  {
    acts[m].Proceed? ==> LetGoBetween(states, acts, m, k, acts[m].p, acts[m].ch.name)
  }

  lemma TakenAndLetGo(states: seq<State>, acts: seq<Action>, short: Branch -> Short, m: nat, k: nat, q: Pid, b: Branch, ino: Ino)
    requires IsRun(states, acts, short) && k < |acts| && GoneFrom(states, acts, m, k, b, ino)
    requires LandsAt(states[k], acts[k], q, b)
    ensures TakerLetGo(states, acts, m, k)
  {
    if acts[m].Proceed? {
      var to :| Removes(acts[m], Final(b), to) || Takes(states[m], acts[m], Final(b), to);
      RunInv(states, acts, short, m);
      assert Follows(states[m], acts[m], states[m + 1], short);
      TakeHolds(states[m], acts[m], states[m + 1], short, b, ino, to);
      LetGoBefore(states, acts, short, m, m + 1, k, q, acts[m].p, b, acts[m].ch.name, ino);
    }
  }

  /**
   * Between two landings of one branch the first workspace left its name for good: deleted, purged,
   * or taken by a quarantine that let it go, and it is not there again when the second lands.
   */
  lemma OneLandingBetweenRemovals(states: seq<State>, acts: seq<Action>, short: Branch -> Short,
                                  j: nat, k: nat, p: Pid, q: Pid, b: Branch) returns (m: nat)
    requires IsRun(states, acts, short) && j < k < |acts|
    requires LandsAt(states[j], acts[j], p, b) && LandsAt(states[k], acts[k], q, b)
    ensures Final(b) in states[j + 1].fs.dir
    ensures j < m && GoneFrom(states, acts, m, k, b, states[j + 1].fs.dir[Final(b)]) && TakerLetGo(states, acts, m, k)
  {
    RunInv(states, acts, short, j);
    assert Follows(states[j], acts[j], states[j + 1], short);
    LandingPublishes(states[j], acts[j], states[j + 1], short, p, b);
    var ino := states[j + 1].fs.dir[Final(b)];
    RunInv(states, acts, short, k);
    assert Follows(states[k], acts[k], states[k + 1], short);
    PublishedKept(states, acts, short, j + 1, k, ino);
    if IsAt(states[k].fs, b, ino) {
      NoLandingOver(states[k], acts[k], short, q, b, ino);
    }
    m := LastRemoval(states, acts, short, j + 1, k, b, ino);
    TakenAndLetGo(states, acts, short, m, k, q, b, ino);
  }

  // --- "published" ------------------------------------------------------------------------------------

  ghost predicate LandedAs(s: State, a: Action, b: Branch, w: nat) {
    a.Proceed? && a.p in s.procs && LandsAt(s, a, a.p, b) && s.procs[a.p].writeId == w
  }

  lemma PublishedHow(s: State, a: Action, t: State, c: Change, ino: Ino)
    requires Explains(s, a, t, c) && ino !in s.fs.published && ino in t.fs.published
    ensures LandedAs(s, a, t.fs.published[ino].0, t.fs.published[ino].1)
  {
  }

  lemma PublishedOnce(s: State, a: Action, t: State, c: Change, short: Branch -> Short, ino: Ino)
    requires Inv(s, short) && Enabled(s, a, short) && Explains(s, a, t, c)
    requires ino in s.fs.published && ino in t.fs.published
    ensures t.fs.published[ino] == s.fs.published[ino]
  {
  }

  lemma PublishedStep(s: State, a: Action, t: State, short: Branch -> Short, ino: Ino)
    requires Inv(s, short) && Follows(s, a, t, short) && ino in t.fs.published
    ensures || LandedAs(s, a, t.fs.published[ino].0, t.fs.published[ino].1)
            || (ino in s.fs.published && s.fs.published[ino] == t.fs.published[ino])
  {
    var c := Explained(s, a, t, short);
    if ino in s.fs.published {
      PublishedOnce(s, a, t, c, short, ino);
    } else {
      PublishedHow(s, a, t, c, ino);
    }
  }

  lemma {:induction false} PublishedOrigin(states: seq<State>, acts: seq<Action>, short: Branch -> Short, k: nat, ino: Ino)
    returns (j: nat)
    requires IsRun(states, acts, short) && k < |states| && ino in states[k].fs.published
    ensures j < k && LandedAs(states[j], acts[j], states[k].fs.published[ino].0, states[k].fs.published[ino].1)
  {
    j := k - 1;
    RunInv(states, acts, short, j);
    PublishedStep(states[j], acts[j], states[k], short, ino);
    if !LandedAs(states[j], acts[j], states[k].fs.published[ino].0, states[k].fs.published[ino].1) {
      j := PublishedOrigin(states, acts, short, j, ino);
    }
  }

  lemma WriteIdStays(s: State, a: Action, t: State, c: Change, w: nat)
    requires Explains(s, a, t, c) && w in s.fs.writeIds
    ensures w in t.fs.writeIds && t.fs.writeIds[w] == s.fs.writeIds[w]
  {
  }

  lemma {:induction false} WriteIdKept(states: seq<State>, acts: seq<Action>, short: Branch -> Short, j: nat, k: nat, w: nat)
    requires IsRun(states, acts, short) && j <= k < |states| && w in states[j].fs.writeIds
    ensures w in states[k].fs.writeIds && states[k].fs.writeIds[w] == states[j].fs.writeIds[w]
    decreases k - j
  {
    if j < k {
      RunInv(states, acts, short, j);
      WriteIdStep(states[j], acts[j], states[j + 1], short, w);
      WriteIdKept(states, acts, short, j + 1, k, w);
    }
  }

  lemma WriteIdStep(s: State, a: Action, t: State, short: Branch -> Short, w: nat)
    requires Inv(s, short) && Follows(s, a, t, short) && w in s.fs.writeIds
    ensures w in t.fs.writeIds && t.fs.writeIds[w] == s.fs.writeIds[w]
  {
    var c := Explained(s, a, t, short);
    WriteIdStays(s, a, t, c, w);
  }

  /** A process answers "published" only after its own workspace landed, with its own writeId. */
  lemma PublishedMeansLanded(states: seq<State>, acts: seq<Action>, short: Branch -> Short, k: nat, p: Pid) returns (j: nat)
    requires IsRun(states, acts, short) && k < |states|
    requires p in states[k].procs && SaysPublished(states[k].procs[p].pc)
    ensures j < k && LandsAt(states[j], acts[j], p, states[k].procs[p].branch)
    ensures states[j].procs[p].writeId == states[k].procs[p].writeId
  {
    RunInv(states, acts, short, k);
    var b, w := states[k].procs[p].branch, states[k].procs[p].writeId;
    var ino :| ino in states[k].fs.published && states[k].fs.published[ino] == (b, w);
    j := PublishedOrigin(states, acts, short, k, ino);
    RunInv(states, acts, short, j);
    WriteIdKept(states, acts, short, j, k, w);
  }

  /** `p` lands its workspace at step `i`, `q` its own at step `j`, and at `m` in between the first is gone for good. */
  ghost predicate ReplacedBetween(states: seq<State>, acts: seq<Action>, i: nat, m: nat, j: nat, p: Pid, q: Pid, b: Branch)
    requires |states| == |acts| + 1
  {
    && i < m < j < |acts|
    && LandsAt(states[i], acts[i], p, b) && LandsAt(states[j], acts[j], q, b)
    && Final(b) in states[i + 1].fs.dir
    && GoneFrom(states, acts, m, j, b, states[i + 1].fs.dir[Final(b)])
    && TakerLetGo(states, acts, m, j)
  }

  /**
   * Two processes that both answer "published" for a branch, whenever each does, landed one after the
   * other, and between the two landings the first one's workspace was removed from the name. Either
   * may have died before the other answers.
   */
  lemma TwoPublishedNeedRemoval(states: seq<State>, acts: seq<Action>, short: Branch -> Short,
                                k1: nat, k2: nat, p: Pid, q: Pid) returns (i: nat, m: nat, j: nat)
    requires IsRun(states, acts, short) && k1 < |states| && k2 < |states| && p != q
    requires p in states[k1].procs && SaysPublished(states[k1].procs[p].pc)
    requires q in states[k2].procs && SaysPublished(states[k2].procs[q].pc)
    requires states[k1].procs[p].branch == states[k2].procs[q].branch
    ensures || (ReplacedBetween(states, acts, i, m, j, p, q, states[k1].procs[p].branch) && i < k1 && j < k2)
            || (ReplacedBetween(states, acts, i, m, j, q, p, states[k1].procs[p].branch) && i < k2 && j < k1)
  {
    var b := states[k1].procs[p].branch;
    i := PublishedMeansLanded(states, acts, short, k1, p);
    j := PublishedMeansLanded(states, acts, short, k2, q);
    if i < j {
      m := OneLandingBetweenRemovals(states, acts, short, i, j, p, q, b);
    } else {
      i, j := j, i;
      m := OneLandingBetweenRemovals(states, acts, short, i, j, q, p, b);
    }
  }

  // --- "exists" ----------------------------------------------------------------------------------------

  /** What a process, holding its branch's lock, saw branch.json at the name for. */
  predicate Claims(pc: PC) {
    match pc
    case Unlock(_, o) => o == Exists
    case Publishing(_, _, at) => at.Reread?
    case Clearing(_, stage) => stage.Held? && HasJson(stage.cand.seen)
    case _ => false
  }

  ghost predicate Saw(s: State, p: Pid, b: Branch) {
    && DirOk(s.fs) && JsonAt(s.fs, b)
    && p in s.procs && s.procs[p].branch == b && HoldsLock(s.procs[p].pc)
    && b in s.locks && s.locks[b] == p
  }

  lemma ClaimInPublish(s: State, p: Pid, n: Name, k: nat, at: PublishAt, ch: Choice)
    requires DirOk(s.fs) && p in s.procs && s.procs[p].pc == Publishing(n, k, at)
    requires ProcLock(s.locks, p, s.procs[p])
    requires Claims(PublishStep(s, p, n, k, at, ch).procs[p].pc)
    ensures Claims(s.procs[p].pc) || Saw(s, p, s.procs[p].branch)
  {
  }

  lemma ClaimInClear(s: State, p: Pid, asker: Asker, stage: QuarantineAt, ch: Choice)
    requires DirOk(s.fs) && p in s.procs && s.procs[p].pc == Clearing(asker, stage)
    requires ProcFiles(s.fs, p, s.procs[p]) && ProcLock(s.locks, p, s.procs[p])
    requires Claims(ClearStep(s, p, asker, stage, ch).procs[p].pc)
    ensures Claims(s.procs[p].pc) || Saw(s, p, s.procs[p].branch)
  {
  }

  lemma NoClaimElsewhere(s: State, p: Pid, ch: Choice)
    requires DirOk(s.fs) && p in s.procs && !s.procs[p].pc.Publishing? && !s.procs[p].pc.Clearing?
    ensures !Claims(Step(s, p, ch).procs[p].pc)
  {
  }

  lemma ClaimInProceed(s: State, p: Pid, ch: Choice)
    requires DirOk(s.fs) && p in s.procs
    requires ProcFiles(s.fs, p, s.procs[p]) && ProcLock(s.locks, p, s.procs[p])
    requires Claims(Step(s, p, ch).procs[p].pc)
    ensures Claims(s.procs[p].pc) || Saw(s, p, s.procs[p].branch)
  {
    match s.procs[p].pc
    case Publishing(n, k, at) => ClaimInPublish(s, p, n, k, at, ch);
    case Clearing(asker, stage) => ClaimInClear(s, p, asker, stage, ch);
    case _ => NoClaimElsewhere(s, p, ch);
  }

  lemma ClaimStep(s: State, a: Action, t: State, short: Branch -> Short, p: Pid)
    requires Inv(s, short) && Follows(s, a, t, short) && p in t.procs && Claims(t.procs[p].pc)
    ensures p in s.procs && s.procs[p].branch == t.procs[p].branch
    ensures Claims(s.procs[p].pc) || Saw(s, p, s.procs[p].branch)
  {
    if a.Proceed? && a.p == p {
      ClaimInProceed(s, p, a.ch);
    }
  }

  lemma ClaimBefore(states: seq<State>, acts: seq<Action>, short: Branch -> Short, k: nat, p: Pid)
    requires IsRun(states, acts, short) && k < |states|
    requires p in states[k].procs && Claims(states[k].procs[p].pc)
    ensures k > 0 && p in states[k - 1].procs && states[k - 1].procs[p].branch == states[k].procs[p].branch
    ensures Claims(states[k - 1].procs[p].pc) || Saw(states[k - 1], p, states[k].procs[p].branch)
  {
    assert k > 0;
    RunInv(states, acts, short, k - 1);
    assert Follows(states[k - 1], acts[k - 1], states[k], short);
    ClaimStep(states[k - 1], acts[k - 1], states[k], short, p);
  }

  /** `publishStaging` answers "exists" only if branch.json was at the name while the caller held its lock. */
  lemma {:induction false} ExistsMeansSeen(states: seq<State>, acts: seq<Action>, short: Branch -> Short, k: nat, p: Pid)
    returns (j: nat)
    requires IsRun(states, acts, short) && k < |states|
    requires p in states[k].procs && Claims(states[k].procs[p].pc)
    ensures j < k && Saw(states[j], p, states[k].procs[p].branch)
  {
    ClaimBefore(states, acts, short, k, p);
    if Claims(states[k - 1].procs[p].pc) {
      j := ExistsMeansSeen(states, acts, short, k - 1, p);
    } else {
      j := k - 1;
    }
  }

  // --- Recoveries --------------------------------------------------------------------------------------

  /** A recovery trashes a directory with valid branch.json only for a name that is not its own, or is taken. */
  lemma RecoveryTrashesWhy(s: State, a: Action, short: Branch -> Short, src: Name, dst: Name)
    requires Inv(s, short) && Discards(s, a, src, dst) && src in s.fs.dir && HasValidJson(TreeAt(s.fs, src))
    ensures var named := TreeAt(s.fs, src).meta.file.branch;
            || (s.sweeps[a.p] == RTrash(src, Mismatch(named)) && src.short != short(named))
            || s.sweeps[a.p] == RTrash(src, Taken(named))
  {
  }

  predicate FoundTaken(sweep: Sweep, n: Name, d: Branch) {
    sweep == RTrash(n, Taken(d)) || sweep == RRelease(n, d, true)
  }

  ghost predicate SawTaken(s: State, p: Pid, n: Name, d: Branch) {
    && p in s.sweeps && s.sweeps[p] == RCheck(n, d) && Final(d) in s.fs.dir
    && d in s.locks && s.locks[d] == p
  }

  lemma TakenInRecovery(s: State, p: Pid, short: Branch -> Short, n: Name, d: Branch)
    requires DirOk(s.fs) && p in s.sweeps && SweepLock(s.locks, p, s.sweeps[p])
    requires FoundTaken(RecoveryStep(s, p, short).sweeps[p], n, d)
    ensures FoundTaken(s.sweeps[p], n, d) || SawTaken(s, p, n, d)
  {
  }

  lemma TakenStep(s: State, a: Action, t: State, short: Branch -> Short, p: Pid, n: Name, d: Branch)
    requires Inv(s, short) && Follows(s, a, t, short) && p in t.sweeps && FoundTaken(t.sweeps[p], n, d)
    ensures p in s.sweeps && (FoundTaken(s.sweeps[p], n, d) || SawTaken(s, p, n, d))
  {
    if a.ProceedRecovery? && a.p == p {
      TakenInRecovery(s, p, short, n, d);
    }
  }

  /** "Taken" means the branch name was occupied when the recovery looked, under that branch's lock. */
  lemma {:induction false} TakenMeansOccupied(states: seq<State>, acts: seq<Action>, short: Branch -> Short,
                                              k: nat, p: Pid, n: Name, d: Branch) returns (j: nat)
    requires IsRun(states, acts, short) && k < |states|
    requires p in states[k].sweeps && FoundTaken(states[k].sweeps[p], n, d)
    ensures j < k && SawTaken(states[j], p, n, d)
  {
    RunInv(states, acts, short, k - 1);
    assert Follows(states[k - 1], acts[k - 1], states[k], short);
    TakenStep(states[k - 1], acts[k - 1], states[k], short, p, n, d);
    if FoundTaken(states[k - 1].sweeps[p], n, d) {
      j := TakenMeansOccupied(states, acts, short, k - 1, p, n, d);
    } else {
      j := k - 1;
    }
  }
}
