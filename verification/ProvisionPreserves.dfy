/** Every step keeps the invariant. */
module ProvisionPreserves {
  import opened Options
  import opened ProvisionState
  import opened ProvisionSteps
  import opened ProvisionInvariant
  import opened ProvisionFiles

  /** `p` moves on: its step keeps the files, the others' locks, and what its own next place needs. */
  lemma AtKeeps(s: State, locks: map<Branch, Pid>, p: Pid, g: Files, pc: PC, placed: Option<Branch>, short: Branch -> Short)
    requires Inv(s, short) && p in s.procs
    requires FilesOk(g) && FilesKept(s.fs, g, Some(p), placed)
    requires forall b :: b in s.locks && s.locks[b] != p ==> b in locks && locks[b] == s.locks[b]
    requires placed.Some? ==> placed.value in s.locks && s.locks[placed.value] == p
    requires ProcFiles(g, p, s.procs[p].(pc := pc)) && ProcLock(locks, p, s.procs[p].(pc := pc))
    ensures Inv(At(s.(locks := locks), p, g, pc), short)
  {
    forall q | q in s.procs && q != p ensures ProcFiles(g, q, s.procs[q]) {
      ProcFramed(s.fs, g, Some(p), placed, q, s.procs[q]);
    }
    forall q | q in s.sweeps ensures SweepFiles(g, s.sweeps[q], short) {
      SweepFramed(s.fs, g, Some(p), placed, s.sweeps[q], short);
    }
  }

  /** Moving on to a place that asks for no more than the place before it did. */
  lemma OwnFramed(f: Files, g: Files, p: Pid, proc: Proc, pc: PC, placed: Option<Branch>)
    requires DirOk(f) && DirOk(g) && FilesKept(f, g, Some(p), placed) && ProcFiles(f, p, proc)
    requires StagingOf(pc).None? || StagingOf(pc) == StagingOf(proc.pc)
    requires Expected(pc).Some? ==> Expected(pc) == Expected(proc.pc)
    requires Expected(pc).Some? && StagingOf(pc).value in f.dir ==> Kept(f, g, StagingOf(pc).value)
    requires !(pc.Clearing? && pc.stage.Held?) && (SaysPublished(pc) ==> SaysPublished(proc.pc))
    ensures ProcFiles(g, p, proc.(pc := pc))
  {
    if SaysPublished(pc) {
      var ino :| ino in f.published && f.published[ino] == (proc.branch, proc.writeId);
      assert ino in g.published && g.published[ino] == (proc.branch, proc.writeId);
    }
  }

  /** A step that leaves the files and the locks alone. */
  lemma QuietKeeps(s: State, p: Pid, pc: PC, short: Branch -> Short)
    requires Inv(s, short) && p in s.procs
    requires ProcFiles(s.fs, p, s.procs[p].(pc := pc)) && ProcLock(s.locks, p, s.procs[p].(pc := pc))
    ensures Inv(At(s, p, s.fs, pc), short)
  {
    Unchanged(s.fs, Some(p), None);
    AtKeeps(s, s.locks, p, s.fs, pc, None, short);
  }

  lemma Staging(s: State, p: Pid, ch: Choice, short: Branch -> Short)
    requires Inv(s, short) && p in s.procs && s.procs[p].pc == Before(Clone) && Ready(s, p, ch, short)
    ensures Inv(BeginStep(s, p, Clone, ch), short)
  {
    if ch.report.Broken? {
      QuietKeeps(s, p, Done(Failed), short);
    } else {
      var node := Node(Dir(NoMeta, NoGit, false), s.fs.clock, Begun);
      Making(s.fs, p, ch.name, ch.ino, node);
      AtKeeps(s, s.locks, p, Make(s.fs, p, ch.name, ch.ino, node), Building(ch.name, Cloning), None, short);
    }
  }

  lemma BeginKeeps(s: State, p: Pid, entry: Entry, ch: Choice, short: Branch -> Short)
    requires Inv(s, short) && p in s.procs && s.procs[p].pc == Before(entry) && Ready(s, p, ch, short)
    ensures Inv(BeginStep(s, p, entry, ch), short)
  {
    if entry.Clone? {
      Staging(s, p, ch, short);
    } else {
      var pc := BeginStep(s, p, entry, ch).procs[p].pc;
      assert pc.Before? || (pc.Done? && pc.outcome != Published);
      QuietKeeps(s, p, pc, short);
    }
  }

  /** A write in the builder's own staging directory, which then stands as its next phase expects. */
  lemma BuildOn(s: State, p: Pid, n: Name, phase: Phase, node: Node, next: Phase, short: Branch -> Short)
    requires Inv(s, short) && p in s.procs && s.procs[p].pc == Building(n, phase) && n in s.fs.dir
    requires HasValidJson(node.tree) ==> node.tree.meta.file.writeId in s.fs.writeIds
    requires Alive(s.fs, s.procs[p]) ==> Expected(Building(n, next)) == Some(node.progress)
    requires node.progress == Whole ==>
               node.tree == Dir(Json(Valid(s.procs[p].branch, s.procs[p].writeId)), GitDir(Own), true)
    ensures Inv(At(s, p, Alter(s.fs, n, node), Building(n, next)), short)
  {
    Altering(s.fs, p, n, node);
    AtKeeps(s, s.locks, p, Alter(s.fs, n, node), Building(n, next), None, short);
  }

  lemma BuildKeeps(s: State, p: Pid, n: Name, phase: Phase, ch: Choice, short: Branch -> Short)
    requires Inv(s, short) && p in s.procs && s.procs[p].pc == Building(n, phase) && Ready(s, p, ch, short)
    ensures Inv(BuildStep(s, p, n, phase, ch), short)
  {
    hide SweepsOk;
    if ch.report.Broken? || phase.Check? {
      QuietKeeps(s, p, BuildStep(s, p, n, phase, ch).procs[p].pc, short);
    } else if phase.Staged? {
      var b := s.procs[p].branch;
      Unchanged(s.fs, Some(p), None);
      AtKeeps(s, s.locks[b := p], p, s.fs, Publishing(n, 0, Rename), None, short);
    } else {
      Writing(s, p, n, phase, ch, short);
    }
  }

  lemma Writing(s: State, p: Pid, n: Name, phase: Phase, ch: Choice, short: Branch -> Short)
    requires Inv(s, short) && p in s.procs && s.procs[p].pc == Building(n, phase)
    requires !ch.report.Broken? && !phase.Check? && !phase.Staged?
    ensures Inv(BuildStep(s, p, n, phase, ch), short)
  {
    var b, w, f := s.procs[p].branch, s.procs[p].writeId, s.fs;
    if n in f.dir {
      match phase
      case Cloning =>
        BuildOn(s, p, n, phase, Advanced(f, n, Begun, Cloned, Dir(NoMeta, GitDir(Own), false)), Check, short);
      case Checkout =>
        BuildOn(s, p, n, phase, Advanced(f, n, Cloned, CheckedOut, Dir(NoMeta, GitDir(Own), true)), WriteMeta, short);
      case WriteMeta =>
        BuildOn(s, p, n, phase, Advanced(f, n, CheckedOut, Whole, Dir(Json(Valid(b, w)), GitDir(Own), true)), Staged, short);
    } else if phase.WriteMeta? && ch.ino !in f.nodes {
      Remade(s, p, n, ch.ino, short);
    } else {
      QuietKeeps(s, p, Cleaning(n, Failed), short);
    }
  }

  /** A swept staging name coming back belongs to a builder that has outlived its bound. */
  lemma Remade(s: State, p: Pid, n: Name, ino: Ino, short: Branch -> Short)
    requires Inv(s, short) && p in s.procs && s.procs[p].pc == Building(n, WriteMeta)
    requires n !in s.fs.dir && ino !in s.fs.nodes
    ensures var proc := s.procs[p];
            var node := Node(Dir(Json(Valid(proc.branch, proc.writeId)), NoGit, false), s.fs.clock, Gutted);
            Inv(At(s, p, Make(s.fs, p, n, ino, node), Building(n, Staged)), short)
  {
    var proc := s.procs[p];
    var node := Node(Dir(Json(Valid(proc.branch, proc.writeId)), NoGit, false), s.fs.clock, Gutted);
    Making(s.fs, p, n, ino, node);
    AtKeeps(s, s.locks, p, Make(s.fs, p, n, ino, node), Building(n, Staged), None, short);
  }

  lemma PublishKeeps(s: State, p: Pid, n: Name, k: nat, at: PublishAt, ch: Choice, short: Branch -> Short)
    requires Inv(s, short) && p in s.procs && s.procs[p].pc == Publishing(n, k, at)
    requires Alive(s.fs, s.procs[p])
    ensures Inv(PublishStep(s, p, n, k, at, ch), short)
  {
    hide SweepsOk;
    var pc := PublishStep(s, p, n, k, at, ch).procs[p].pc;
    if at.Rename? && RenameOf(s.fs.dir, s.fs.nodes, n, Final(s.procs[p].branch)).Moved? {
      Publication(s, p, n, k, pc, short);
    } else {
      if at.Confirm? && pc.outcome == Published {
        OwnWriteId(s.fs, p, s.procs[p].branch, s.procs[p].writeId);
      }
      QuietKeeps(s, p, pc, short);
    }
  }

  lemma Landed(f: Files, p: Pid, proc: Proc, n: Name, pc: PC)
    requires DirOk(f) && n in f.dir && ProcFiles(f, p, proc) && StagingOf(proc.pc) == Some(n)
    requires StagingOf(pc) == Some(n) && Expected(pc).None? && !pc.Clearing?
    requires DirOk(Land(f, n, proc.branch, proc.writeId))
    requires FilesKept(f, Land(f, n, proc.branch, proc.writeId), Some(p), Some(proc.branch))
    ensures ProcFiles(Land(f, n, proc.branch, proc.writeId), p, proc.(pc := pc))
  {
    var g := Land(f, n, proc.branch, proc.writeId);
    assert f.dir[n] in g.published && g.published[f.dir[n]] == (proc.branch, proc.writeId);
  }

  lemma Publication(s: State, p: Pid, n: Name, k: nat, pc: PC, short: Branch -> Short)
    requires Inv(s, short) && p in s.procs && s.procs[p].pc == Publishing(n, k, Rename)
    requires Alive(s.fs, s.procs[p]) && n in s.fs.dir
    requires pc == Publishing(n, k, Confirm) || (pc.Unlock? && pc.left == Some(n))
    ensures Inv(At(s, p, Land(s.fs, n, s.procs[p].branch, s.procs[p].writeId), pc), short)
  {
    var b, w, f := s.procs[p].branch, s.procs[p].writeId, s.fs;
    var g := Land(f, n, b, w);
    Landing(f, n, p, b, w);
    Landed(f, p, s.procs[p], n, pc);
    AtKeeps(s, s.locks, p, g, pc, Some(b), short);
  }

  /** The writeId a process drew is at its branch name only by its own publish. */
  lemma OwnWriteId(f: Files, p: Pid, b: Branch, w: nat)
    requires FilesOk(f) && w in f.writeIds && f.writeIds[w] == Some((p, b))
    requires ValidJsonAt(f, b) && TreeAt(f, Final(b)).meta.file.writeId == w
    ensures WasPublished(f, b, w)
  {
    assert f.published[f.dir[Final(b)]] == (b, w);
  }

  lemma ClearKeeps(s: State, p: Pid, asker: Asker, stage: QuarantineAt, ch: Choice, short: Branch -> Short)
    requires Inv(s, short) && p in s.procs && s.procs[p].pc == Clearing(asker, stage) && Ready(s, p, ch, short)
    ensures Inv(ClearStep(s, p, asker, stage, ch), short)
  {
    hide SweepsOk;
    match stage
    case Stat => QuietKeeps(s, p, ClearStep(s, p, asker, stage, ch).procs[p].pc, short);
    case Take(expected) =>
      if ch.report.Broken? || Final(s.procs[p].branch) !in s.fs.dir {
        ClearEnds(s, p, asker, stage, if ch.report.Broken? then GiveUp(asker, Failed) else Again(asker), short);
      } else {
        Taking(s, p, asker, expected, ch.name, short);
      }
    case Held(expected, cand, Pending) => Judging(s, p, asker, expected, cand, ch, short);
    case Held(_, cand, ToTrash) =>
      if cand.name in s.fs.dir && !ch.report.Broken? {
        Trashing(s, p, asker, stage, ch.name, short);
      } else {
        ClearEnds(s, p, asker, stage, GiveUp(asker, Failed), short);
      }
    case Held(_, _, Back(reason)) =>
      if ch.report.Broken? {
        ClearEnds(s, p, asker, stage, AfterKept(asker, reason), short);
      } else {
        Returning(s, p, asker, stage, ch, short);
      }
  }

  /** The end of a quarantine: the candidate has gone to trash or back to its name. */
  lemma Cleared(s: State, p: Pid, asker: Asker, stage: QuarantineAt, g: Files, pc: PC, placed: Option<Branch>, short: Branch -> Short)
    requires Inv(s, short) && p in s.procs && s.procs[p].pc == Clearing(asker, stage)
    requires FilesOk(g) && FilesKept(s.fs, g, Some(p), placed)
    requires placed.Some? ==> placed.value == s.procs[p].branch
    requires pc.Unlock? || pc.Publishing?
    requires StagingOf(pc) == StagingOf(Clearing(asker, stage)) && !SaysPublished(pc)
    requires StagingOf(pc).Some? && StagingOf(pc).value in s.fs.dir ==> Kept(s.fs, g, StagingOf(pc).value)
    ensures Inv(At(s, p, g, pc), short)
  {
    OwnFramed(s.fs, g, p, s.procs[p], pc, placed);
    AtKeeps(s, s.locks, p, g, pc, placed, short);
  }

  /** A quarantine that ends without moving anything. */
  lemma ClearEnds(s: State, p: Pid, asker: Asker, stage: QuarantineAt, pc: PC, short: Branch -> Short)
    requires Inv(s, short) && p in s.procs && s.procs[p].pc == Clearing(asker, stage)
    requires (pc.Unlock? || pc.Publishing?) && StagingOf(pc) == StagingOf(Clearing(asker, stage)) && !SaysPublished(pc)
    ensures Inv(At(s, p, s.fs, pc), short)
  {
    Unchanged(s.fs, Some(p), None);
    Cleared(s, p, asker, stage, s.fs, pc, None, short);
  }

  lemma Trashing(s: State, p: Pid, asker: Asker, stage: QuarantineAt, to: Name, short: Branch -> Short)
    requires Inv(s, short) && p in s.procs && s.procs[p].pc == Clearing(asker, stage)
    requires stage.Held? && stage.cand.name in s.fs.dir && to.Trash?
    ensures Inv(At(s, p, Move(s.fs, stage.cand.name, to), Again(asker)), short)
  {
    MoveAside(s.fs, stage.cand.name, to, Some(p));
    Cleared(s, p, asker, stage, Move(s.fs, stage.cand.name, to), Again(asker), None, short);
  }

  lemma Returning(s: State, p: Pid, asker: Asker, stage: QuarantineAt, ch: Choice, short: Branch -> Short)
    requires Inv(s, short) && p in s.procs && s.procs[p].pc == Clearing(asker, stage)
    requires stage.Held? && stage.verdict.Back? && !ch.report.Broken?
    ensures Inv(ClearStep(s, p, asker, stage, ch), short)
  {
    hide SweepsOk, FilesKept;
    var b, from := s.procs[p].branch, stage.cand.name;
    PutBack(s.fs, from, b, Some(p));
    var pc := AfterKept(asker, stage.verdict.reason);
    Cleared(s, p, asker, stage, TryMove(s.fs, from, Final(b)), pc, Some(b), short);
  }

  lemma Taking(s: State, p: Pid, asker: Asker, expected: Ino, to: Name, short: Branch -> Short)
    requires Inv(s, short) && p in s.procs && s.procs[p].pc == Clearing(asker, Take(expected))
    requires Final(s.procs[p].branch) in s.fs.dir && to !in s.fs.used && to.Repair?
    ensures var f, at := s.fs, Final(s.procs[p].branch);
            Inv(At(s, p, Move(f, at, to), Clearing(asker, Held(expected, Candidate(to, f.dir[at], TreeAt(f, at)), Pending))), short)
  {
    hide SweepsOk, FilesKept;
    var f, at := s.fs, Final(s.procs[p].branch);
    var pc := Clearing(asker, Held(expected, Candidate(to, f.dir[at], TreeAt(f, at)), Pending));
    MoveAside(f, at, to, Some(p));
    AtKeeps(s, s.locks, p, Move(f, at, to), pc, None, short);
  }

  lemma Judging(s: State, p: Pid, asker: Asker, expected: Ino, cand: Candidate, ch: Choice, short: Branch -> Short)
    requires Inv(s, short) && p in s.procs && s.procs[p].pc == Clearing(asker, Held(expected, cand, Pending))
    ensures Inv(ClearStep(s, p, asker, Held(expected, cand, Pending), ch), short)
  {
    QuietKeeps(s, p, ClearStep(s, p, asker, Held(expected, cand, Pending), ch).procs[p].pc, short);
  }

  lemma CleanKeeps(s: State, p: Pid, n: Name, o: Outcome, ch: Choice, short: Branch -> Short)
    requires Inv(s, short) && p in s.procs && s.procs[p].pc == Cleaning(n, o) && Ready(s, p, ch, short)
    ensures Inv(CleanStep(s, p, n, o, ch), short)
  {
    var after := if o == Exists then Before(Existing) else Done(o);
    if ch.report.Broken? || n !in s.fs.dir {
      QuietKeeps(s, p, after, short);
    } else if ch.gone {
      Unlinking(s.fs, n, Some(p));
      Cleaned(s, p, n, o, Unlink(s.fs, n), after, short);
    } else {
      Gutting(s.fs, n, ch.tree, Some(p));
      Cleaned(s, p, n, o, Gut(s.fs, n, ch.tree), Cleaning(n, o), short);
    }
  }

  lemma Cleaned(s: State, p: Pid, n: Name, o: Outcome, g: Files, pc: PC, short: Branch -> Short)
    requires Inv(s, short) && p in s.procs && s.procs[p].pc == Cleaning(n, o)
    requires FilesOk(g) && FilesKept(s.fs, g, Some(p), None)
    requires pc == Cleaning(n, o) || pc == Done(o) || pc == Before(Existing)
    ensures Inv(At(s, p, g, pc), short)
  {
    OwnFramed(s.fs, g, p, s.procs[p], pc, None);
    AtKeeps(s, s.locks, p, g, pc, None, short);
  }

  lemma LockKeeps(s: State, p: Pid, ch: Choice, short: Branch -> Short)
    requires Inv(s, short) && p in s.procs && (s.procs[p].pc.WorkerLock? || s.procs[p].pc.Unlock?)
    ensures Inv(Step(s, p, ch), short)
  {
    var t := Step(s, p, ch);
    Unchanged(s.fs, Some(p), None);
    AtKeeps(s, t.locks, p, s.fs, t.procs[p].pc, None, short);
  }

  lemma ProceedKeeps(s: State, p: Pid, ch: Choice, short: Branch -> Short)
    requires Inv(s, short) && Enabled(s, Proceed(p, ch), short)
    ensures Inv(Step(s, p, ch), short)
  {
    match s.procs[p].pc
    case Before(entry) => BeginKeeps(s, p, entry, ch, short);
    case Building(n, phase) => BuildKeeps(s, p, n, phase, ch, short);
    case Publishing(n, k, at) => PublishKeeps(s, p, n, k, at, ch, short);
    case WorkerLock(_) => LockKeeps(s, p, ch, short);
    case Clearing(asker, stage) => ClearKeeps(s, p, asker, stage, ch, short);
    case Unlock(_, _) => LockKeeps(s, p, ch, short);
    case Cleaning(n, o) => CleanKeeps(s, p, n, o, ch, short);
    case Done(_) =>
  }

  // --- Recoveries and the environment ---------------------------------------------------------------

  /** A recovery's step, as `AtKeeps` for a process. */
  lemma SweepAtKeeps(s: State, locks: map<Branch, Pid>, p: Pid, g: Files, pc: Sweep, placed: Option<Branch>, short: Branch -> Short)
    requires Inv(s, short) && p in s.sweeps
    requires FilesOk(g) && FilesKept(s.fs, g, None, placed)
    requires forall b :: b in s.locks && s.locks[b] != p ==> b in locks && locks[b] == s.locks[b]
    requires placed.Some? ==> placed.value in s.locks && s.locks[placed.value] == p
    requires SweepFiles(g, pc, short) && SweepLock(locks, p, pc)
    ensures Inv(SweepAt(s.(locks := locks), p, g, pc), short)
  {
    forall q | q in s.procs ensures ProcFiles(g, q, s.procs[q]) {
      ProcFramed(s.fs, g, None, placed, q, s.procs[q]);
    }
    forall q | q in s.sweeps && q != p ensures SweepFiles(g, s.sweeps[q], short) {
      SweepFramed(s.fs, g, None, placed, s.sweeps[q], short);
    }
  }

  lemma RecoveryKeeps(s: State, p: Pid, short: Branch -> Short)
    requires Inv(s, short) && p in s.sweeps
    ensures Inv(RecoveryStep(s, p, short), short)
  {
    match s.sweeps[p]
    case RRead(n) => RecoveryQuiet(s, p, s.locks, RecoveryStep(s, p, short).sweeps[p], short);
    case RLock(n, d) => RecoveryLocks(s, p, n, d, short);
    case RCheck(n, d) =>
      RecoveryQuiet(s, p, s.locks, if Final(d) in s.fs.dir then RRelease(n, d, true) else RRename(n, d), short);
    case RRename(n, d) => Restoring(s, p, n, d, short);
    case RRelease(n, d, taken) =>
      RecoveryQuiet(s, p, s.locks - {d}, if taken then RTrash(n, Taken(d)) else RDone, short);
    case RTrash(n, why) => Discarding(s, p, n, why, short);
    case RDone =>
  }

  lemma RecoveryQuiet(s: State, p: Pid, locks: map<Branch, Pid>, pc: Sweep, short: Branch -> Short)
    requires Inv(s, short) && p in s.sweeps
    requires forall b :: b in s.locks && s.locks[b] != p ==> b in locks && locks[b] == s.locks[b]
    requires SweepFiles(s.fs, pc, short) && SweepLock(locks, p, pc)
    ensures Inv(SweepAt(s.(locks := locks), p, s.fs, pc), short)
  {
    Unchanged(s.fs, None, None);
    SweepAtKeeps(s, locks, p, s.fs, pc, None, short);
  }

  lemma RecoveryLocks(s: State, p: Pid, n: Name, d: Branch, short: Branch -> Short)
    requires Inv(s, short) && p in s.sweeps && s.sweeps[p] == RLock(n, d)
    ensures Inv(RecoveryStep(s, p, short), short)
  {
    if d in s.locks {
      RecoveryQuiet(s, p, s.locks, RDone, short);
    } else {
      RecoveryQuiet(s, p, s.locks[d := p], RCheck(n, d), short);
    }
  }

  lemma Restoring(s: State, p: Pid, n: Name, d: Branch, short: Branch -> Short)
    requires Inv(s, short) && p in s.sweeps && s.sweeps[p] == RRename(n, d)
    ensures Inv(RecoveryStep(s, p, short), short)
  {
    PutBack(s.fs, n, d, None);
    SweepAtKeeps(s, s.locks, p, TryMove(s.fs, n, Final(d)), RRelease(n, d, false), Some(d), short);
  }

  lemma Discarding(s: State, p: Pid, n: Name, why: Why, short: Branch -> Short)
    requires Inv(s, short) && p in s.sweeps && s.sweeps[p] == RTrash(n, why)
    ensures Inv(RecoveryStep(s, p, short), short)
  {
    var to := Trash(n.short, n.tag, n.stamp);
    if RenameOf(s.fs.dir, s.fs.nodes, n, to).Moved? {
      MoveAside(s.fs, n, to, None);
    } else {
      Unchanged(s.fs, None, None);
    }
    SweepAtKeeps(s, s.locks, p, TryMove(s.fs, n, to), RDone, None, short);
  }

  /** The environment changes the files and nothing else. */
  lemma FilesChange(s: State, g: Files, short: Branch -> Short)
    requires Inv(s, short) && FilesOk(g) && FilesKept(s.fs, g, None, None)
    ensures Inv(s.(fs := g), short)
  {
    forall q | q in s.procs ensures ProcFiles(g, q, s.procs[q]) {
      ProcFramed(s.fs, g, None, None, q, s.procs[q]);
    }
    forall q | q in s.sweeps ensures SweepFiles(g, s.sweeps[q], short) {
      SweepFramed(s.fs, g, None, None, s.sweeps[q], short);
    }
  }

  lemma StartKeeps(s: State, p: Pid, b: Branch, w: nat, sync: Option<Time>, short: Branch -> Short)
    requires Inv(s, short) && Enabled(s, Start(p, b, w, sync), short)
    ensures Inv(Apply(s, Start(p, b, w, sync), short), short)
  {
    var g := s.fs.(writeIds := s.fs.writeIds[w := Some((p, b))]);
    Claiming(s.fs, w, Some((p, b)), None);
    FilesChange(s, g, short);
  }

  lemma RmKeeps(s: State, n: Name, tree: Tree, gone: bool, short: Branch -> Short)
    requires Inv(s, short) && Enabled(s, Rm(n, tree, gone), short)
    ensures Inv(Apply(s, Rm(n, tree, gone), short), short)
  {
    if gone {
      Unlinking(s.fs, n, None);
      FilesChange(s, Unlink(s.fs, n), short);
    } else {
      Gutting(s.fs, n, tree, None);
      FilesChange(s, Gut(s.fs, n, tree), short);
    }
  }

  /** Every step of anyone keeps the invariant. */
  lemma StepKeeps(s: State, a: Action, short: Branch -> Short)
    requires Inv(s, short) && Enabled(s, a, short)
    ensures Inv(Apply(s, a, short), short)
  {
    match a
    case Start(p, b, w, sync) => StartKeeps(s, p, b, w, sync, short);
    case Proceed(p, ch) => ProceedKeeps(s, p, ch, short);
    case ProceedRecovery(p) => RecoveryKeeps(s, p, short);
    case Rm(n, tree, gone) => RmKeeps(s, n, tree, gone, short);
    case Tick(ms) => TickKeeps(s, ms, short);
    case EnvEdit(b, tree) => EditKeeps(s, b, tree, short);
    case EnvRemove(b, n) => RemoveKeeps(s, b, n, short);
    case _ => OthersKeep(s, a, short);
  }

  lemma TickKeeps(s: State, ms: nat, short: Branch -> Short)
    requires Inv(s, short)
    ensures Inv(Apply(s, Tick(ms), short), short)
  {
    hide FilesOk, ProcsOk, SweepsOk, FilesKept;
    Ticking(s.fs, ms);
    FilesChange(s, s.fs.(clock := s.fs.clock + ms), short);
  }

  lemma EditKeeps(s: State, b: Branch, tree: Tree, short: Branch -> Short)
    requires Inv(s, short) && Enabled(s, EnvEdit(b, tree), short)
    ensures Inv(Apply(s, EnvEdit(b, tree), short), short)
  {
    Editing(s.fs, b, tree);
    FilesChange(s, Edit(s.fs, b, tree), short);
  }

  lemma RemoveKeeps(s: State, b: Branch, n: Name, short: Branch -> Short)
    requires Inv(s, short) && Enabled(s, EnvRemove(b, n), short)
    ensures Inv(Apply(s, EnvRemove(b, n), short), short)
  {
    MoveAside(s.fs, Final(b), n, None);
    FilesChange(s, Move(s.fs, Final(b), n), short);
  }

  lemma OthersKeep(s: State, a: Action, short: Branch -> Short)
    requires Inv(s, short) && Enabled(s, a, short)
    requires a.StartRecovery? || a.Crash? || a.BreakLock?
    ensures Inv(Apply(s, a, short), short)
  {
  }
}
