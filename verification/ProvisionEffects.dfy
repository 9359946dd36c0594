/** Every step changes the files in at most one way, and which way says who took it. */
module ProvisionEffects {
  import opened Options
  import opened ProvisionState
  import opened ProvisionSteps

  datatype Change =
    | Nothing
    | Passes(ms: nat)
    | Draws(writeId: nat, owner: (Pid, Branch))
    | Makes(p: Pid, name: Name, ino: Ino, node: Node)
    | Writes(name: Name, node: Node)
    | Unlinks(name: Name)
    | Lands(name: Name, branch: Branch, writeId: nat)
    | Moves(src: Name, dst: Name)
    | Edits(branch: Branch, tree: Tree)

  predicate Applies(f: Files, c: Change) {
    match c
    case Makes(_, n, ino, _) => n !in f.dir && ino !in f.nodes
    case Writes(n, _) => n in f.dir
    case Lands(n, _, _) => n in f.dir
    case Moves(n, _) => n in f.dir
    case Edits(b, _) => Final(b) in f.dir
    case _ => true
  }

  function Changed(f: Files, c: Change): Files
    requires DirOk(f) && Applies(f, c)
  {
    match c
    case Nothing => f
    case Passes(ms) => f.(clock := f.clock + ms)
    case Draws(w, owner) => f.(writeIds := f.writeIds[w := Some(owner)])
    case Makes(p, n, ino, node) => Make(f, p, n, ino, node)
    case Writes(n, node) => Alter(f, n, node)
    case Unlinks(n) => Unlink(f, n)
    case Lands(n, b, w) => Land(f, n, b, w)
    case Moves(src, dst) => Move(f, src, dst)
    case Edits(b, tree) => Edit(f, b, tree)
  }

  // --- Who moves what -----------------------------------------------------------------------------

  /** A quarantine takes what is at its branch name. */
  predicate Takes(s: State, a: Action, src: Name, dst: Name) {
    && a.Proceed? && a.p in s.procs
    && s.procs[a.p].pc.Clearing? && s.procs[a.p].pc.stage.Take?
    && src == Final(s.procs[a.p].branch) && dst.Repair? && dst !in s.fs.used
  }

  /** A quarantine gives its candidate up to trash. */
  predicate Trashes(s: State, a: Action, src: Name, dst: Name) {
    && a.Proceed? && a.p in s.procs
    && s.procs[a.p].pc.Clearing? && s.procs[a.p].pc.stage.Held? && s.procs[a.p].pc.stage.verdict.ToTrash?
    && src == s.procs[a.p].pc.stage.cand.name && dst.Trash? && dst !in s.fs.used
  }

  /** A quarantine moves its candidate back. */
  predicate MovesBack(s: State, a: Action, src: Name, dst: Name) {
    && a.Proceed? && a.p in s.procs
    && s.procs[a.p].pc.Clearing? && s.procs[a.p].pc.stage.Held? && s.procs[a.p].pc.stage.verdict.Back?
    && src == s.procs[a.p].pc.stage.cand.name && dst == Final(s.procs[a.p].branch)
  }

  /** A recovery moves a candidate to the branch it names. */
  predicate Restores(s: State, a: Action, src: Name, dst: Name) {
    && a.ProceedRecovery? && a.p in s.sweeps
    && s.sweeps[a.p].RRename? && src == s.sweeps[a.p].name && dst == Final(s.sweeps[a.p].branch)
  }

  /** A recovery gives a candidate up to trash. */
  predicate Discards(s: State, a: Action, src: Name, dst: Name) {
    && a.ProceedRecovery? && a.p in s.sweeps
    && s.sweeps[a.p].RTrash? && src == s.sweeps[a.p].name && src.Repair?
    && dst == Trash(src.short, src.tag, src.stamp)
  }

  /** The environment deletes or purges a branch. */
  predicate Removes(a: Action, src: Name, dst: Name) {
    a.EnvRemove? && src == Final(a.branch) && dst == a.name && (dst.Deleting? || dst.Trash?)
  }

  predicate Publishes(s: State, a: Action, n: Name, b: Branch, w: nat) {
    && a.Proceed? && a.p in s.procs
    && s.procs[a.p].pc.Publishing? && s.procs[a.p].pc.at.Rename?
    && s.procs[a.p].pc.staging == n && s.procs[a.p].branch == b && s.procs[a.p].writeId == w
  }

  predicate MovedBy(s: State, a: Action, src: Name, dst: Name) {
    || Takes(s, a, src, dst)
    || Trashes(s, a, src, dst)
    || MovesBack(s, a, src, dst)
    || Restores(s, a, src, dst)
    || Discards(s, a, src, dst)
    || Removes(a, src, dst)
  }

  /** A builder in its own staging directory, or the removal of a leftover. */
  predicate InLeftover(s: State, a: Action, n: Name) {
    || (a.Rm? && a.name == n && !n.Final? && !n.Repair?)
    || (a.Proceed? && a.p in s.procs && (s.procs[a.p].pc.Building? || s.procs[a.p].pc.Cleaning?)
        && s.procs[a.p].pc.staging == n)
  }

  ghost predicate Cause(s: State, a: Action, c: Change)
    requires DirOk(s.fs)
  {
    match c
    case Nothing => true
    case Passes(ms) => a == Tick(ms)
    case Draws(w, owner) => a.Start? && w !in s.fs.writeIds
    case Makes(p, n, _, _) =>
      && a.Proceed? && a.p == p && p in s.procs
      && ((n !in s.fs.used && n.Staging?) || (s.procs[p].pc.Building? && s.procs[p].pc.staging == n))
    case Writes(n, _) => InLeftover(s, a, n)
    case Unlinks(n) => InLeftover(s, a, n)
    case Lands(n, b, w) => Publishes(s, a, n, b, w) && RenameOf(s.fs.dir, s.fs.nodes, n, Final(b)).Moved?
    case Moves(src, dst) =>
      && (dst !in s.fs.used || RenameOf(s.fs.dir, s.fs.nodes, src, dst).Moved?)
      && MovedBy(s, a, src, dst)
    case Edits(b, tree) => a == EnvEdit(b, tree) && Final(b) in s.fs.dir && Edited(s.fs, TreeAt(s.fs, Final(b)), tree)
  }

  ghost predicate Explains(s: State, a: Action, t: State, c: Change) {
    && DirOk(s.fs) && Applies(s.fs, c)
    && t.fs == Changed(s.fs, c)
    && Cause(s, a, c)
  }

  lemma BeginEffect(s: State, p: Pid, entry: Entry, ch: Choice, short: Branch -> Short) returns (c: Change)
    requires DirOk(s.fs) && p in s.procs && s.procs[p].pc == Before(entry) && Ready(s, p, ch, short)
    requires forall n :: n in s.fs.dir ==> n in s.fs.used
    ensures Explains(s, Proceed(p, ch), BeginStep(s, p, entry, ch), c)
  {
    c := if entry.Clone? && !ch.report.Broken?
      then Makes(p, ch.name, ch.ino, Node(Dir(NoMeta, NoGit, false), s.fs.clock, Begun)) else Nothing;
  }

  lemma BuildEffect(s: State, p: Pid, n: Name, phase: Phase, ch: Choice) returns (c: Change)
    requires DirOk(s.fs) && p in s.procs && s.procs[p].pc == Building(n, phase)
    ensures Explains(s, Proceed(p, ch), BuildStep(s, p, n, phase, ch), c)
  {
    var t := BuildStep(s, p, n, phase, ch);
    if ch.report.Broken? || phase.Check? || phase.Staged? {
      c := Nothing;
    } else if n in s.fs.dir {
      c := Writes(n, t.fs.nodes[s.fs.dir[n]]);
    } else if phase.WriteMeta? && ch.ino !in s.fs.nodes {
      c := Makes(p, n, ch.ino, t.fs.nodes[ch.ino]);
    } else {
      c := Nothing;
    }
  }

  lemma PublishEffect(s: State, p: Pid, n: Name, k: nat, at: PublishAt, ch: Choice) returns (c: Change)
    requires DirOk(s.fs) && p in s.procs && s.procs[p].pc == Publishing(n, k, at)
    ensures Explains(s, Proceed(p, ch), PublishStep(s, p, n, k, at, ch), c)
  {
    var b := s.procs[p].branch;
    c := if at.Rename? && RenameOf(s.fs.dir, s.fs.nodes, n, Final(b)).Moved?
      then Lands(n, b, s.procs[p].writeId) else Nothing;
  }

  lemma ClearEffect(s: State, p: Pid, asker: Asker, stage: QuarantineAt, ch: Choice, short: Branch -> Short) returns (c: Change)
    requires DirOk(s.fs) && p in s.procs && s.procs[p].pc == Clearing(asker, stage) && Ready(s, p, ch, short)
    ensures Explains(s, Proceed(p, ch), ClearStep(s, p, asker, stage, ch), c)
  {
    var f, at := s.fs, Final(s.procs[p].branch);
    c := Nothing;
    match stage
    case Stat =>
    case Take(_) => if !ch.report.Broken? && at in f.dir { c := Moves(at, ch.name); }
    case Held(_, cand, Pending) =>
    case Held(_, cand, ToTrash) => if !ch.report.Broken? && cand.name in f.dir { c := Moves(cand.name, ch.name); }
    case Held(_, cand, Back(_)) => if !ch.report.Broken? && RenameOf(f.dir, f.nodes, cand.name, at).Moved? { c := Moves(cand.name, at); }
  }

  lemma CleanEffect(s: State, p: Pid, n: Name, o: Outcome, ch: Choice) returns (c: Change)
    requires DirOk(s.fs) && p in s.procs && s.procs[p].pc == Cleaning(n, o)
    ensures Explains(s, Proceed(p, ch), CleanStep(s, p, n, o, ch), c)
  {
    c := if ch.report.Broken? || n !in s.fs.dir then Nothing
    else if ch.gone then Unlinks(n) else Writes(n, Node(ch.tree, s.fs.clock, Gutted));
  }

  lemma ProceedEffect(s: State, p: Pid, ch: Choice, short: Branch -> Short) returns (c: Change)
    requires DirOk(s.fs) && Enabled(s, Proceed(p, ch), short)
    requires forall n :: n in s.fs.dir ==> n in s.fs.used
    ensures Explains(s, Proceed(p, ch), Step(s, p, ch), c)
  {
    match s.procs[p].pc
    case Before(entry) => c := BeginEffect(s, p, entry, ch, short);
    case Building(n, phase) => c := BuildEffect(s, p, n, phase, ch);
    case Publishing(n, k, at) => c := PublishEffect(s, p, n, k, at, ch);
    case Clearing(asker, stage) => c := ClearEffect(s, p, asker, stage, ch, short);
    case Cleaning(n, o) => c := CleanEffect(s, p, n, o, ch);
    case _ => c := Nothing;
  }

  lemma RecoveryEffect(s: State, p: Pid, short: Branch -> Short) returns (c: Change)
    requires DirOk(s.fs) && p in s.sweeps
    ensures Explains(s, ProceedRecovery(p), RecoveryStep(s, p, short), c)
  {
    var f := s.fs;
    c := Nothing;
    match s.sweeps[p]
    case RRename(n, d) => if RenameOf(f.dir, f.nodes, n, Final(d)).Moved? { c := Moves(n, Final(d)); }
    case RTrash(n, _) =>
      if n.Repair? && RenameOf(f.dir, f.nodes, n, Trash(n.short, n.tag, n.stamp)).Moved? {
        c := Moves(n, Trash(n.short, n.tag, n.stamp));
      }
    case _ =>
  }

  /** One change, and its cause. */
  lemma Effect(s: State, a: Action, short: Branch -> Short) returns (c: Change)
    requires DirOk(s.fs) && Enabled(s, a, short)
    requires forall n :: n in s.fs.dir ==> n in s.fs.used
    ensures Explains(s, a, Apply(s, a, short), c)
  {
    match a
    case Proceed(p, ch) => c := ProceedEffect(s, p, ch, short);
    case ProceedRecovery(p) => c := RecoveryEffect(s, p, short);
    case Tick(ms) => c := Passes(ms);
    case Start(p, b, w, _) => c := Draws(w, (p, b));
    case Rm(n, tree, gone) => c := if gone then Unlinks(n) else Writes(n, Node(tree, s.fs.clock, Gutted));
    case EnvEdit(b, tree) => c := Edits(b, tree);
    case EnvRemove(b, n) => c := Moves(Final(b), n);
    case _ => c := Nothing;
  }
}
