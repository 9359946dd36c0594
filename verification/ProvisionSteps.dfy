/**
 * Branch provisioning as a step system. Provisioners build in a staging sibling
 * and publish under the branch's lock, worker quarantines move residue aside,
 * recoveries and age sweeps clear what dead processes left, and the environment
 * edits, deletes and purges published branches. Every step makes at most one
 * change to the file system, and a process may die between any two.
 */
module ProvisionSteps {
  import opened Options
  import opened ProvisionState

  datatype Outcome = Published | Exists | Busy | Occupied | Failed

  // Why a quarantine candidate goes back to its name.
  datatype Reason = IsLive | IsCorrupt | IsProtected | IsForeign | TooYoung | Replaced | Unjudged

  // Who asked for a quarantine: a publish on its `attempt`, or the worker's sync.
  datatype Asker = Publish(staging: Name, attempt: nat) | Worker(now: Time)

  // An inode moved to a `.repair-*` name, and what it held while at its branch name.
  datatype Candidate = Candidate(name: Name, ino: Ino, seen: Tree)

  datatype Entry = First | Advise | Existing | Clone
  datatype Phase = Cloning | Check | Checkout | WriteMeta | Staged
  datatype PublishAt = Rename | Confirm | Inspect | Reread
  datatype Verdict = Pending | ToTrash | Back(reason: Reason)
  datatype QuarantineAt = Stat | Take(expected: Ino) | Held(expected: Ino, cand: Candidate, verdict: Verdict)

  // Where a process is. `Publishing`, `Clearing` and `Unlock` hold the branch's lock.
  datatype PC =
    | Before(entry: Entry)
    | Building(staging: Name, phase: Phase)
    | Publishing(staging: Name, attempt: nat, at: PublishAt)
    | WorkerLock(now: Time)
    | Clearing(asker: Asker, stage: QuarantineAt)
    | Unlock(left: Option<Name>, outcome: Outcome)
    | Cleaning(staging: Name, outcome: Outcome)
    | Done(outcome: Outcome)

  datatype Proc = Proc(branch: Branch, writeId: nat, started: Time, pc: PC)

  // Why a recovery trashes what it found.
  datatype Why = NoBranch | Mismatch(named: Branch) | Taken(named: Branch)

  datatype Sweep =
    | RRead(name: Name)
    | RLock(name: Name, branch: Branch)
    | RCheck(name: Name, branch: Branch)
    | RRename(name: Name, branch: Branch)
    | RRelease(name: Name, branch: Branch, taken: bool)
    | RTrash(name: Name, why: Why)
    | RDone

  // The branches root, the clock, and what has happened to names and inodes.
  datatype Files = Files(
    dir: map<Name, Ino>,
    nodes: map<Ino, Node>,
    clock: Time,
    // The name each inode was last linked under.
    home: map<Ino, Name>,
    // Names ever used, and the builder that made each staging name.
    used: map<Name, Option<Pid>>,
    // writeIds ever drawn, and the process and branch that drew each.
    writeIds: map<nat, Option<(Pid, Branch)>>,
    // Where the start or the environment left a name without branch.json.
    seated: set<(Branch, Ino)>,
    // Inodes that reached their branch name by a publish.
    published: map<Ino, (Branch, nat)>
  )

  datatype State = State(
    fs: Files,
    procs: map<Pid, Proc>,
    sweeps: map<Pid, Sweep>,
    locks: map<Branch, Pid>,
    born: set<Pid>
  )

  // How a call that may fail on its own answers: as it happened, with the reply
  // lost and a retransmission answering ENOENT, or with some other error.
  datatype Report = Honest | Lost | Broken

  datatype Choice = Choice(name: Name, ino: Ino, report: Report, tree: Tree, gone: bool)

  datatype Action =
    | Tick(ms: nat)
    | Start(p: Pid, branch: Branch, writeId: nat, sync: Option<Time>)
    | StartRecovery(p: Pid, name: Name)
    | Proceed(p: Pid, ch: Choice)
    | ProceedRecovery(p: Pid)
    | Crash(p: Pid)
    | BreakLock(branch: Branch)
    | Rm(name: Name, tree: Tree, gone: bool)
    | EnvEdit(branch: Branch, tree: Tree)
    | EnvRemove(branch: Branch, name: Name)

  // --- Reading and changing the files --------------------------------------------------------

  ghost predicate DirOk(f: Files) {
    forall n :: n in f.dir ==> f.dir[n] in f.nodes
  }

  function TreeAt(f: Files, n: Name): Tree
    requires DirOk(f) && n in f.dir
  {
    f.nodes[f.dir[n]].tree
  }

  predicate JsonAt(f: Files, b: Branch)
    requires DirOk(f)
  {
    Final(b) in f.dir && HasJson(TreeAt(f, Final(b)))
  }

  predicate ValidJsonAt(f: Files, b: Branch)
    requires DirOk(f)
  {
    Final(b) in f.dir && HasValidJson(TreeAt(f, Final(b)))
  }

  /** `classifyFinalDir` on a name. */
  function Look(f: Files, n: Name): FinalDirState
    requires DirOk(f)
  {
    if n in f.dir then Classify(TreeAt(f, n)) else Vacant
  }

  function Move(f: Files, src: Name, dst: Name): Files
    requires src in f.dir
  {
    f.(dir := MoveName(f.dir, src, dst), home := f.home[f.dir[src] := dst],
       used := if dst in f.used then f.used else f.used[dst := None])
  }

  /** Carry out a rename, or leave everything as it is when it is refused. */
  function TryMove(f: Files, src: Name, dst: Name): Files
    requires DirOk(f)
  {
    if RenameOf(f.dir, f.nodes, src, dst) == Moved then Move(f, src, dst) else f
  }

  function Alter(f: Files, n: Name, node: Node): Files
    requires n in f.dir
  {
    f.(nodes := f.nodes[f.dir[n] := node])
  }

  /** A new directory, made by `p`. */
  function Make(f: Files, p: Pid, n: Name, ino: Ino, node: Node): Files {
    f.(dir := f.dir[n := ino], nodes := f.nodes[ino := node], home := f.home[ino := n], used := f.used[n := Some(p)])
  }

  /** What removing part of a directory leaves. */
  function Gut(f: Files, n: Name, tree: Tree): Files
    requires n in f.dir
  {
    Alter(f, n, Node(tree, f.clock, Gutted))
  }

  /** What a removal that has not finished may have left of a tree. */
  predicate Remnant(before: Tree, after: Tree) {
    && before.Dir? && after.Dir?
    && (after.meta == before.meta || after.meta == NoMeta)
  }

  function Unlink(f: Files, n: Name): Files {
    f.(dir := f.dir - {n})
  }

  /** A name nothing has used yet, bounded for a branch and stamped now. */
  predicate FreshName(f: Files, n: Name, short: Short) {
    && n !in f.used
    && !n.Final?
    && n.short == short
    && n.stamp == Stamp(f.clock)
  }

  /** The next stage of a build; one that something was removed from does not advance. */
  function Advanced(f: Files, n: Name, from: Progress, to: Progress, tree: Tree): Node
    requires DirOk(f) && n in f.dir
  {
    Node(tree, f.clock, if f.nodes[f.dir[n]].progress == from then to else Gutted)
  }

  // --- Where a process goes next --------------------------------------------------------------

  function At(s: State, p: Pid, f: Files, pc: PC): State
    requires p in s.procs
  {
    s.(fs := f, procs := s.procs[p := s.procs[p].(pc := pc)])
  }

  /** Where a publish or worker goes after a quarantine that kept nothing at the name. */
  function Again(asker: Asker): PC {
    match asker
    case Publish(n, k) => if k + 1 < 2 then Publishing(n, k + 1, Rename) else Unlock(Some(n), Busy)
    case Worker(_) => Unlock(None, Busy)
  }

  function GiveUp(asker: Asker, outcome: Outcome): PC {
    match asker
    case Publish(n, _) => Unlock(Some(n), outcome)
    case Worker(_) => Unlock(None, outcome)
  }

  /** Where a publish or worker goes after a directory was moved back. */
  function AfterKept(asker: Asker, reason: Reason): PC {
    if asker.Worker? then Unlock(None, Busy) else
      match reason
      case IsLive => Unlock(Some(asker.staging), Exists)
      case IsCorrupt => Publishing(asker.staging, asker.attempt, Reread)
      case IsForeign => Unlock(Some(asker.staging), Occupied)
      case Unjudged => Unlock(Some(asker.staging), Failed)
      case _ => Unlock(Some(asker.staging), Busy)
  }

  function ReasonOf(state: FinalDirState): (r: Reason) {
    match state
    case Live => IsLive
    case Corrupt => IsCorrupt
    case Protected => IsProtected
    case Foreign => IsForeign
    case _ => Replaced
  }

  /** How long ago a candidate was touched, as the asker measures it. */
  function QuietMs(f: Files, asker: Asker, touched: Time): int {
    (match asker case Publish(_, _) => f.clock case Worker(now) => now) - touched
  }

  function MinQuietMs(asker: Asker): nat {
    if asker.Publish? then CREATE_RESIDUE_MIN_QUIET_MS else ORPHAN_YOUTH_THRESHOLD_MS
  }

  /** `judgeQuarantineCandidate`: the reason to keep the candidate, if any. */
  function Judge(f: Files, asker: Asker, expected: Ino, c: Name): Option<Reason>
    requires DirOk(f)
  {
    if c !in f.dir || f.dir[c] != expected then Some(Replaced)
    else if Classify(TreeAt(f, c)) != Residue then Some(ReasonOf(Classify(TreeAt(f, c))))
    else if QuietMs(f, asker, f.nodes[f.dir[c]].touched) < MinQuietMs(asker) then Some(TooYoung)
    else None
  }

  // --- The steps of a process -----------------------------------------------------------------

  /** Only `p` has moved on, whatever became of the files and the locks. */
  predicate Advances(s: State, t: State, p: Pid)
    requires p in s.procs
  {
    && p in t.procs
    && t == At(s.(locks := t.locks), p, t.fs, t.procs[p].pc)
  }

  /** Whether process `p` can take its next step with this choice. */
  predicate Ready(s: State, p: Pid, ch: Choice, short: Branch -> Short)
    requires DirOk(s.fs) && p in s.procs
  {
    var proc := s.procs[p];
    match proc.pc
    case Before(entry) =>
      entry.Clone? ==> FreshName(s.fs, ch.name, short(proc.branch)) && ch.name.Staging? && ch.ino !in s.fs.nodes
    case Building(_, phase) => phase.Staged? ==> proc.branch !in s.locks || ch.report.Broken?
    case WorkerLock(_) => proc.branch !in s.locks || ch.report.Broken?
    case Clearing(_, Take(_)) => FreshName(s.fs, ch.name, short(proc.branch)) && ch.name.Repair?
    case Clearing(_, Held(_, _, ToTrash)) => FreshName(s.fs, ch.name, short(proc.branch)) && ch.name.Trash?
    case Cleaning(n, _) => ch.gone || (n in s.fs.dir ==> Remnant(TreeAt(s.fs, n), ch.tree))
    case Done(_) => false
    case _ => true
  }

  /** Whether residue may still be somebody's: its branch's lock is fresh, or it was touched of late. */
  predicate RecentlyActive(s: State, b: Branch, recent: bool)
    requires DirOk(s.fs) && Final(b) in s.fs.dir
  {
    // A lock whose holder lives is always fresh, an abandoned one for a while.
    || (b in s.locks && (s.locks[b] in s.procs || s.locks[b] in s.sweeps || recent))
    || s.fs.clock - s.fs.nodes[s.fs.dir[Final(b)]].touched < CREATE_RESIDUE_MIN_QUIET_MS
  }

  /** A provisioner before it has anything on disk: early answers, then a fresh staging directory. */
  function BeginStep(s: State, p: Pid, entry: Entry, ch: Choice): (t: State)
    requires DirOk(s.fs) && p in s.procs
    ensures Advances(s, t, p)
  {
    var b, f := s.procs[p].branch, s.fs;
    match entry
    case First =>
      At(s, p, f, if ValidJsonAt(f, b) then Done(Exists) else if JsonAt(f, b) then Done(Failed) else Before(Advise))
    case Advise =>
      At(s, p, f, match Look(f, Final(b))
                  case Live => Before(Existing)
                  case Corrupt => Before(Existing)
                  case Protected => Done(Busy)
                  case Foreign => Done(Occupied)
                  case Residue => if RecentlyActive(s, b, ch.report.Honest?) then Done(Busy) else Before(Clone)
                  case Vacant => Before(Clone))
    case Existing =>
      At(s, p, f, Done(if ValidJsonAt(f, b) then Exists else if JsonAt(f, b) then Failed else Busy))
    case Clone =>
      if ch.report.Broken? then At(s, p, f, Done(Failed))
      else At(s, p, Make(f, p, ch.name, ch.ino, Node(Dir(NoMeta, NoGit, false), f.clock, Begun)), Building(ch.name, Cloning))
  }

  /** `stageBranchWorkspace`, up to a workspace that carries branch.json, and the wait for the lock. */
  function BuildStep(s: State, p: Pid, n: Name, phase: Phase, ch: Choice): (t: State)
    requires DirOk(s.fs) && p in s.procs
    ensures Advances(s, t, p)
  {
    var b, w, f := s.procs[p].branch, s.procs[p].writeId, s.fs;
    if ch.report.Broken? then At(s, p, f, Cleaning(n, if phase.Staged? then Busy else Failed)) else
    match phase
    case Check => At(s, p, f, if JsonAt(f, b) then Cleaning(n, Exists) else Building(n, Checkout))
    case Staged => if b in s.locks then s else At(s.(locks := s.locks[b := p]), p, f, Publishing(n, 0, Rename))
    case Cloning =>
      if n !in f.dir then At(s, p, f, Cleaning(n, Failed))
      else At(s, p, Alter(f, n, Advanced(f, n, Begun, Cloned, Dir(NoMeta, GitDir(Own), false))), Building(n, Check))
    case Checkout =>
      if n !in f.dir then At(s, p, f, Cleaning(n, Failed))
      else At(s, p, Alter(f, n, Advanced(f, n, Cloned, CheckedOut, Dir(NoMeta, GitDir(Own), true))), Building(n, WriteMeta))
    case WriteMeta =>
      if n in f.dir then
        At(s, p, Alter(f, n, Advanced(f, n, CheckedOut, Whole, Dir(Json(Valid(b, w)), GitDir(Own), true))), Building(n, Staged))
      else if ch.ino in f.nodes then At(s, p, f, Cleaning(n, Failed))
      // The write makes its directories. No builder within its lifetime gets here: `BuilderFindsItsStaging`.
      else At(s, p, Make(f, p, n, ch.ino, Node(Dir(Json(Valid(b, w)), NoGit, false), f.clock, Gutted)), Building(n, Staged))
  }

  /** `publishStaging` between its lock and its release. */
  function PublishStep(s: State, p: Pid, n: Name, k: nat, at: PublishAt, ch: Choice): (t: State)
    requires DirOk(s.fs) && p in s.procs
    ensures Advances(s, t, p)
  {
    var b, w, f := s.procs[p].branch, s.procs[p].writeId, s.fs;
    match at
    case Rename =>
      (match RenameOf(f.dir, f.nodes, n, Final(b))
       case Moved =>
         At(s, p, Land(f, n, b, w),
            match ch.report
            case Honest => Unlock(Some(n), Published)
            case Lost => Publishing(n, k, Confirm)
            case Broken => Unlock(Some(n), Failed))
       case Missing => At(s, p, f, if ch.report.Broken? then Unlock(Some(n), Failed) else Publishing(n, k, Confirm))
       case Blocked => At(s, p, f, if ch.report.Broken? then Unlock(Some(n), Failed) else Publishing(n, k, Inspect)))
    case Confirm =>
      At(s, p, f, Unlock(Some(n), if ValidJsonAt(f, b) && TreeAt(f, Final(b)).meta.file.writeId == w
                                  then Published else Failed))
    case Inspect =>
      At(s, p, f, if Final(b) !in f.dir || TreeAt(f, Final(b)).File? then Clearing(Publish(n, k), Stat)
                  else match TreeAt(f, Final(b)).meta
                       case Json(_) => Unlock(Some(n), Exists)
                       case Archived => Unlock(Some(n), Busy)
                       case NoMeta => Clearing(Publish(n, k), Stat))
    case Reread =>
      At(s, p, f, Unlock(Some(n), if JsonAt(f, b) && !ValidJsonAt(f, b) then Failed else Exists))
  }

  /** A staged workspace reaches its branch name. */
  function Land(f: Files, n: Name, b: Branch, w: nat): Files
    requires n in f.dir
  {
    Move(f, n, Final(b)).(published := f.published[f.dir[n] := (b, w)])
  }

  /** `quarantineResidueAt`, under the lock its asker holds. */
  function ClearStep(s: State, p: Pid, asker: Asker, stage: QuarantineAt, ch: Choice): (t: State)
    requires DirOk(s.fs) && p in s.procs
    ensures Advances(s, t, p)
  {
    var b, f := s.procs[p].branch, s.fs;
    match stage
    case Stat =>
      At(s, p, f, if Final(b) in f.dir then Clearing(asker, Take(f.dir[Final(b)])) else Again(asker))
    case Take(expected) =>
      if ch.report.Broken? then At(s, p, f, GiveUp(asker, Failed))
      else if Final(b) !in f.dir then At(s, p, f, Again(asker))
      else
        var cand := Candidate(ch.name, f.dir[Final(b)], TreeAt(f, Final(b)));
        At(s, p, Move(f, Final(b), ch.name), Clearing(asker, Held(expected, cand, Pending)))
    case Held(expected, cand, Pending) =>
      var kept := if ch.report.Broken? then Some(Unjudged) else Judge(f, asker, expected, cand.name);
      At(s, p, f, Clearing(asker, Held(expected, cand, if kept.Some? then Back(kept.value) else ToTrash)))
    case Held(_, cand, ToTrash) =>
      if cand.name in f.dir && !ch.report.Broken? then At(s, p, Move(f, cand.name, ch.name), Again(asker))
      else At(s, p, f, GiveUp(asker, Failed))
    case Held(_, cand, Back(reason)) =>
      At(s, p, if ch.report.Broken? then f else TryMove(f, cand.name, Final(b)), AfterKept(asker, reason))
  }

  /** Removing the staging directory a publish did not use up. */
  function CleanStep(s: State, p: Pid, n: Name, o: Outcome, ch: Choice): (t: State)
    requires DirOk(s.fs) && p in s.procs
    ensures Advances(s, t, p)
  {
    var after := if o == Exists then Before(Existing) else Done(o);
    if ch.report.Broken? || n !in s.fs.dir then At(s, p, s.fs, after)
    else if ch.gone then At(s, p, Unlink(s.fs, n), after)
    else At(s, p, Gut(s.fs, n, ch.tree), Cleaning(n, o))
  }

  function Step(s: State, p: Pid, ch: Choice): (t: State)
    requires DirOk(s.fs) && p in s.procs
    ensures Advances(s, t, p)
  {
    var b := s.procs[p].branch;
    match s.procs[p].pc
    case Before(entry) => BeginStep(s, p, entry, ch)
    case Building(n, phase) => BuildStep(s, p, n, phase, ch)
    case Publishing(n, k, at) => PublishStep(s, p, n, k, at, ch)
    case WorkerLock(now) =>
      if b in s.locks || ch.report.Broken? then At(s, p, s.fs, Done(Busy))
      else At(s.(locks := s.locks[b := p]), p, s.fs, Clearing(Worker(now), Stat))
    case Clearing(asker, stage) => ClearStep(s, p, asker, stage, ch)
    case Unlock(left, o) =>
      At(s.(locks := s.locks - {b}), p, s.fs,
         if left.None? || o == Published then Done(o) else Cleaning(left.value, o))
    case Cleaning(n, o) => CleanStep(s, p, n, o, ch)
    case Done(_) => s
  }

  function SweepAt(s: State, p: Pid, f: Files, pc: Sweep): State {
    s.(fs := f, sweeps := s.sweeps[p := pc])
  }

  /** `recoverRepairDir`: a `.repair-*` goes back to the branch its branch.json names, or to trash. */
  function RecoveryStep(s: State, p: Pid, short: Branch -> Short): (t: State)
    requires DirOk(s.fs) && p in s.sweeps
    ensures p in t.sweeps && t == SweepAt(s.(locks := t.locks), p, t.fs, t.sweeps[p])
  {
    var f := s.fs;
    match s.sweeps[p]
    case RRead(n) =>
      if n !in f.dir || !HasValidJson(TreeAt(f, n)) then SweepAt(s, p, f, RTrash(n, NoBranch))
      else
        var d := TreeAt(f, n).meta.file.branch;
        SweepAt(s, p, f, if n.Repair? && n.short == short(d) then RLock(n, d) else RTrash(n, Mismatch(d)))
    case RLock(n, d) =>
      if d in s.locks then SweepAt(s, p, f, RDone)
      else SweepAt(s.(locks := s.locks[d := p]), p, f, RCheck(n, d))
    case RCheck(n, d) =>
      SweepAt(s, p, f, if Final(d) in f.dir then RRelease(n, d, true) else RRename(n, d))
    case RRename(n, d) => SweepAt(s, p, TryMove(f, n, Final(d)), RRelease(n, d, false))
    case RRelease(n, d, taken) =>
      SweepAt(s.(locks := s.locks - {d}), p, f, if taken then RTrash(n, Taken(d)) else RDone)
    case RTrash(n, _) =>
      SweepAt(s, p, if n.Repair? then TryMove(f, n, Trash(n.short, n.tag, n.stamp)) else f, RDone)
    case RDone => s
  }

  /** Which names an age sweep, or the end of a delete, may remove from. */
  predicate Removable(f: Files, n: Name) {
    match n
    case Staging(_, _, stamp) => f.clock - stamp >= STAGING_MAX_AGE_MS
    case Deleting(_, _, _) => true
    case Trash(_, _, stamp) => f.clock - stamp >= TRASH_RETENTION_MS
    case _ => false
  }

  /** What the environment may leave at a branch name: never an empty directory, never a forged writeId. */
  predicate Edited(f: Files, before: Tree, after: Tree) {
    && (before.Dir? ==> after.Dir?)
    && !Empty(after)
    && (HasValidJson(after) ==>
          || after.meta.file.writeId !in f.writeIds
          || (HasValidJson(before) && before.meta.file.writeId == after.meta.file.writeId))
  }

  function Edit(f: Files, b: Branch, tree: Tree): Files
    requires DirOk(f) && Final(b) in f.dir
  {
    var ino := f.dir[Final(b)];
    Alter(f, Final(b), Node(tree, f.clock, f.nodes[ino].progress)).(
      seated := if HasJson(tree) then f.seated else f.seated + {(b, ino)},
      writeIds := if HasValidJson(tree) && tree.meta.file.writeId !in f.writeIds
                  then f.writeIds[tree.meta.file.writeId := None] else f.writeIds)
  }

  /** A worker process is not a Lambda and outlives the builders' bound. */
  predicate InWorker(pc: PC) {
    match pc
    case WorkerLock(_) => true
    case Clearing(asker, _) => asker.Worker?
    case Unlock(left, _) => left.None?
    case _ => false
  }

  predicate Enabled(s: State, a: Action, short: Branch -> Short)
    requires DirOk(s.fs)
  {
    match a
    case Tick(_) => true
    case Start(p, _, w, sync) => p !in s.born && w !in s.fs.writeIds && (sync.Some? ==> sync.value <= s.fs.clock)
    case StartRecovery(p, n) =>
      p !in s.born && n.Repair? && n in s.fs.dir && s.fs.clock - n.stamp >= REPAIR_MAX_AGE_MS
    case Proceed(p, ch) =>
      && p in s.procs
      && (s.fs.clock <= s.procs[p].started + BUILDER_LIFETIME_MS || InWorker(s.procs[p].pc))
      && Ready(s, p, ch, short)
    case ProceedRecovery(p) => p in s.sweeps && !s.sweeps[p].RDone?
    case Crash(p) => p in s.born
    case BreakLock(b) => b in s.locks && s.locks[b] !in s.procs && s.locks[b] !in s.sweeps
    case Rm(n, tree, gone) => n in s.fs.dir && Removable(s.fs, n) && (gone || Remnant(TreeAt(s.fs, n), tree))
    case EnvEdit(b, tree) => Final(b) in s.fs.dir && Edited(s.fs, TreeAt(s.fs, Final(b)), tree)
    case EnvRemove(b, n) => Final(b) in s.fs.dir && n !in s.fs.used && (n.Deleting? || n.Trash?)
  }

  function Apply(s: State, a: Action, short: Branch -> Short): State
    requires DirOk(s.fs) && Enabled(s, a, short)
  {
    match a
    case Tick(ms) => s.(fs := s.fs.(clock := s.fs.clock + ms))
    case Start(p, b, w, sync) =>
      s.(fs := s.fs.(writeIds := s.fs.writeIds[w := Some((p, b))]),
         procs := s.procs[p := Proc(b, w, s.fs.clock, if sync.Some? then WorkerLock(sync.value) else Before(First))],
         born := s.born + {p})
    case StartRecovery(p, n) => s.(sweeps := s.sweeps[p := RRead(n)], born := s.born + {p})
    case Proceed(p, ch) => Step(s, p, ch)
    case ProceedRecovery(p) => RecoveryStep(s, p, short)
    case Crash(p) => s.(procs := s.procs - {p}, sweeps := s.sweeps - {p})
    case BreakLock(b) => s.(locks := s.locks - {b})
    case Rm(n, tree, gone) => s.(fs := if gone then Unlink(s.fs, n) else Gut(s.fs, n, tree))
    case EnvEdit(b, tree) => s.(fs := Edit(s.fs, b, tree))
    case EnvRemove(b, n) => s.(fs := Move(s.fs, Final(b), n))
  }
}
