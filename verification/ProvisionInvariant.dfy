/** What every reachable state of the provisioning protocol keeps. */
module ProvisionInvariant {
  import opened Options
  import opened ProvisionState
  import opened ProvisionSteps

  // --- What a process relies on, by where it is ---------------------------------------------------

  function StagingOf(pc: PC): Option<Name> {
    match pc
    case Building(n, _) => Some(n)
    case Publishing(n, _, _) => Some(n)
    case Clearing(asker, _) => if asker.Publish? then Some(asker.staging) else None
    case Unlock(left, _) => left
    case Cleaning(n, _) => Some(n)
    case _ => None
  }

  /** How far a live builder's staging directory has come. */
  function Expected(pc: PC): Option<Progress> {
    match pc
    case Building(_, Cloning) => Some(Begun)
    case Building(_, Check) => Some(Cloned)
    case Building(_, Checkout) => Some(Cloned)
    case Building(_, WriteMeta) => Some(CheckedOut)
    case Building(_, Staged) => Some(Whole)
    case Publishing(_, _, at) => if at.Rename? || at.Inspect? then Some(Whole) else None
    case Clearing(asker, _) => if asker.Publish? then Some(Whole) else None
    case _ => None
  }

  predicate HoldsLock(pc: PC) {
    pc.Publishing? || pc.Clearing? || pc.Unlock?
  }

  predicate SaysPublished(pc: PC) {
    match pc
    case Unlock(_, o) => o == Published
    case Cleaning(_, o) => o == Published
    case Done(o) => o == Published
    case _ => false
  }

  predicate Alive(f: Files, proc: Proc) {
    f.clock <= proc.started + BUILDER_LIFETIME_MS
  }

  // --- The files -----------------------------------------------------------------------------------

  ghost predicate NamesOk(f: Files) {
    && DirOk(f)
    && (forall n :: n in f.dir ==> f.dir[n] in f.home && f.home[f.dir[n]] == n && n in f.used)
    && (forall ino :: ino in f.published ==> ino in f.nodes)
    && (forall n :: n in f.dir && n.Staging? ==> f.dir[n] !in f.published)
  }

  /** [PROV-1]: a name without branch.json is one the start or the environment left so. */
  ghost predicate SeatsOk(f: Files)
    requires DirOk(f)
  {
    forall b :: Final(b) in f.dir && !HasJson(TreeAt(f, Final(b))) ==> (b, f.dir[Final(b)]) in f.seated
  }

  /** A provisioned workspace is whole while at its name, or moved aside from it. */
  ghost predicate WholeOk(f: Files)
    requires DirOk(f)
  {
    forall n :: n in f.dir && (n.Final? || n.Repair?) && f.dir[n] in f.published
      ==> f.nodes[f.dir[n]].progress == Whole && !Empty(TreeAt(f, n))
  }

  /** Outside staging directories, a process's writeId is only where its publish put it. */
  ghost predicate WriteIdsOk(f: Files)
    requires DirOk(f)
  {
    forall n :: n in f.dir && HasValidJson(TreeAt(f, n)) ==>
      var w := TreeAt(f, n).meta.file.writeId;
      && w in f.writeIds
      && (f.writeIds[w].Some? && !n.Staging? ==>
            f.dir[n] in f.published && f.published[f.dir[n]] == (f.writeIds[w].value.1, w))
  }

  ghost predicate FilesOk(f: Files) {
    && NamesOk(f)
    && SeatsOk(f)
    && WholeOk(f)
    && WriteIdsOk(f)
  }

  // --- The processes -------------------------------------------------------------------------------

  ghost predicate WasPublished(f: Files, b: Branch, w: nat) {
    exists ino :: ino in f.published && f.published[ino] == (b, w)
  }

  ghost predicate Built(f: Files, proc: Proc, n: Name, progress: Progress)
    requires DirOk(f)
  {
    && n in f.dir
    && f.nodes[f.dir[n]].progress == progress
    && (progress == Whole ==> TreeAt(f, n) == Dir(Json(Valid(proc.branch, proc.writeId)), GitDir(Own), true))
  }

  /** A quarantine candidate is what was taken from the name, and the name stays free. */
  ghost predicate HeldOk(f: Files, b: Branch, asker: Asker, expected: Ino, cand: Candidate, verdict: Verdict)
    requires DirOk(f)
  {
    && cand.name.Repair?
    && cand.name in f.used
    && (cand.name in f.dir ==> f.dir[cand.name] == cand.ino && f.nodes[cand.ino].tree == cand.seen)
    && (HasJson(cand.seen) || (b, cand.ino) in f.seated)
    && Final(b) !in f.dir
    && (verdict.ToTrash? ==> expected == cand.ino && Classify(cand.seen) == Residue)
    && (verdict.ToTrash? && cand.name in f.dir ==>
          QuietMs(f, asker, f.nodes[cand.ino].touched) >= MinQuietMs(asker))
    && (verdict.Back? && (verdict.reason == IsLive || verdict.reason == IsCorrupt) ==> HasJson(cand.seen))
  }

  /** What process `p` relies on of the files. */
  ghost predicate ProcFiles(f: Files, p: Pid, proc: Proc)
    requires DirOk(f)
  {
    && proc.started <= f.clock
    && proc.writeId in f.writeIds && f.writeIds[proc.writeId] == Some((p, proc.branch))
    && (StagingOf(proc.pc).Some? ==> OwnStaging(f, p, proc, StagingOf(proc.pc).value))
    && (Expected(proc.pc).Some? && Alive(f, proc) ==>
          Built(f, proc, StagingOf(proc.pc).value, Expected(proc.pc).value))
    && (proc.pc.Clearing? && proc.pc.stage.Held? ==>
          HeldOk(f, proc.branch, proc.pc.asker, proc.pc.stage.expected, proc.pc.stage.cand, proc.pc.stage.verdict))
    && (SaysPublished(proc.pc) ==> WasPublished(f, proc.branch, proc.writeId))
  }

  ghost predicate OwnStaging(f: Files, p: Pid, proc: Proc, n: Name) {
    n.Staging? && n in f.used && f.used[n] == Some(p) && proc.started < n.stamp + 1000
  }

  /** What process `p` relies on of the locks. */
  predicate ProcLock(locks: map<Branch, Pid>, p: Pid, proc: Proc) {
    HoldsLock(proc.pc) ==> proc.branch in locks && locks[proc.branch] == p
  }

  /** A `.repair-*` whose branch.json, while it is there, names `d`. */
  ghost predicate Named(f: Files, n: Name, d: Branch, short: Branch -> Short)
    requires DirOk(f)
  {
    && n.Repair?
    && n in f.used
    && (n in f.dir ==> HasValidJson(TreeAt(f, n)) && TreeAt(f, n).meta.file.branch == d)
    && n.short == short(d)
  }

  ghost predicate SweepFiles(f: Files, sweep: Sweep, short: Branch -> Short)
    requires DirOk(f)
  {
    match sweep
    case RRead(n) => n.Repair? && n in f.used
    case RLock(n, d) => Named(f, n, d, short)
    case RCheck(n, d) => Named(f, n, d, short)
    case RRename(n, d) => Named(f, n, d, short) && Final(d) !in f.dir
    case RRelease(n, d, taken) => n.Repair? && n in f.used && (taken ==> Named(f, n, d, short))
    case RTrash(n, why) =>
      && n.Repair? && n in f.used
      && (n in f.dir && HasValidJson(TreeAt(f, n)) ==>
            && !why.NoBranch?
            && why.named == TreeAt(f, n).meta.file.branch
            && (why.Mismatch? ==> n.short != short(why.named)))
    case RDone => true
  }

  predicate SweepLock(locks: map<Branch, Pid>, p: Pid, sweep: Sweep) {
    sweep.RCheck? || sweep.RRename? || sweep.RRelease? ==>
      sweep.branch in locks && locks[sweep.branch] == p
  }

  ghost predicate ProcsOk(s: State)
    requires DirOk(s.fs)
  {
    && (forall p :: p in s.procs ==> p in s.born && p !in s.sweeps && ProcFiles(s.fs, p, s.procs[p]) && ProcLock(s.locks, p, s.procs[p]))
  }

  ghost predicate SweepsOk(s: State, short: Branch -> Short)
    requires DirOk(s.fs)
  {
    forall p :: p in s.sweeps ==> p in s.born && SweepFiles(s.fs, s.sweeps[p], short) && SweepLock(s.locks, p, s.sweeps[p])
  }

  ghost predicate Inv(s: State, short: Branch -> Short) {
    && FilesOk(s.fs)
    && ProcsOk(s)
    && SweepsOk(s, short)
  }

  ghost predicate Init(s: State) {
    && FilesOk(s.fs)
    && s.fs.published == map[]
    && (forall at :: at in s.fs.seated ==>
          Final(at.0) in s.fs.dir && s.fs.dir[Final(at.0)] == at.1 && !HasJson(TreeAt(s.fs, Final(at.0))))
    && s.procs == map[] && s.sweeps == map[] && s.locks == map[] && s.born == {}
  }

  lemma InitInv(s: State, short: Branch -> Short)
    requires Init(s)
    ensures Inv(s, short)
  {
  }

  // --- What a step leaves the others ------------------------------------------------------------

  ghost predicate Kept(f: Files, g: Files, n: Name)
    requires DirOk(f) && DirOk(g)
  {
    && n in f.dir && n in g.dir
    && g.dir[n] == f.dir[n] && g.nodes[g.dir[n]] == f.nodes[f.dir[n]]
  }

  ghost predicate HistoryKept(f: Files, g: Files) {
    && (forall n :: n in f.used ==> n in g.used && g.used[n] == f.used[n])
    && (forall w :: w in f.writeIds ==> w in g.writeIds && g.writeIds[w] == f.writeIds[w])
    && (forall at :: at in f.seated ==> at in g.seated)
    && (forall ino :: ino in f.published ==> ino in g.published && g.published[ino] == f.published[ino])
    && f.clock <= g.clock
  }

  /** A staging name of a builder other than `actor`, too young to sweep. */
  predicate OthersStaging(f: Files, n: Name, actor: Option<Pid>) {
    n.Staging? && n in f.used && f.used[n].Some? && f.used[n] != actor && !Removable(f, n)
  }

  /**
   * What a change of files leaves of what every process relies on, but for the staging
   * name of its `actor` and the branch name it may have `placed` something at.
   */
  ghost predicate FilesKept(f: Files, g: Files, actor: Option<Pid>, placed: Option<Branch>)
    requires DirOk(f) && DirOk(g)
  {
    && HistoryKept(f, g)
    && (forall n: Name :: n.Repair? && n in f.used && n in g.dir ==> Kept(f, g, n))
    && (forall n: Name :: n in f.dir && OthersStaging(f, n, actor) ==> Kept(f, g, n))
    && (forall b :: Final(b) in g.dir && Final(b) !in f.dir ==> placed == Some(b))
  }

  lemma ProcFramed(f: Files, g: Files, actor: Option<Pid>, placed: Option<Branch>, q: Pid, proc: Proc)
    requires DirOk(f) && DirOk(g) && FilesKept(f, g, actor, placed)
    requires ProcFiles(f, q, proc) && Some(q) != actor
    requires HoldsLock(proc.pc) ==> placed != Some(proc.branch)
    ensures ProcFiles(g, q, proc)
  {
    if SaysPublished(proc.pc) {
      var ino :| ino in f.published && f.published[ino] == (proc.branch, proc.writeId);
      assert ino in g.published && g.published[ino] == (proc.branch, proc.writeId);
    }
    if Expected(proc.pc).Some? && Alive(g, proc) {
      assert Kept(f, g, StagingOf(proc.pc).value);
    }
  }

  lemma SweepFramed(f: Files, g: Files, actor: Option<Pid>, placed: Option<Branch>, sweep: Sweep, short: Branch -> Short)
    requires DirOk(f) && DirOk(g) && FilesKept(f, g, actor, placed)
    requires SweepFiles(f, sweep, short)
    requires sweep.RRename? ==> placed != Some(sweep.branch)
    ensures SweepFiles(g, sweep, short)
  {
  }
}
