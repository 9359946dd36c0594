/** The branches root as provisioning sees it: named inodes, POSIX `rename`, and what is read from a tree. */
module ProvisionState {
  import opened Options

  type Branch = string
  type Short = string
  type Ino = nat
  type Pid = nat
  type Time = nat

  const STAGING_MAX_AGE_MS: nat := 20 * 60_000
  const REPAIR_MAX_AGE_MS: nat := 20 * 60_000
  const TRASH_RETENTION_MS: nat := 30 * 24 * 60 * 60_000
  const CREATE_RESIDUE_MIN_QUIET_MS: nat := 60_000
  const ORPHAN_YOUTH_THRESHOLD_MS: nat := 15 * 60_000
  // The longest a Lambda, and so a builder, can live.
  const BUILDER_LIFETIME_MS: nat := 900_000

  // A name in the branches root. Leftover names carry the bounded directory
  // name, a random tag and their creation time cut to the second.
  datatype Name =
    | Final(branch: Branch)
    | Staging(short: Short, tag: nat, stamp: Time)
    | Repair(short: Short, tag: nat, stamp: Time)
    | Trash(short: Short, tag: nat, stamp: Time)
    | Deleting(short: Short, tag: nat, stamp: Time)

  // `.canopy-meta`: nothing, only `branch.json.corrupt-*`, or branch.json itself.
  datatype Meta = NoMeta | Archived | Json(file: MetadataFile)
  datatype MetadataFile = Malformed | Valid(branch: Branch, writeId: nat)

  // `.git`: absent, not a directory, or a directory whose config may be read.
  datatype Git = NoGit | GitFile | GitDir(remote: Remote)
  datatype Remote = Unreadable | Own | Other

  // What a name holds; `rest` is whether a directory holds anything else.
  datatype Tree = File | Dir(meta: Meta, git: Git, rest: bool)

  // How far a workspace was built; `Gutted` once any of it has been removed.
  datatype Progress = Begun | Cloned | CheckedOut | Whole | Gutted

  datatype Node = Node(tree: Tree, touched: Time, progress: Progress)

  datatype FinalDirState = Vacant | Live | Corrupt | Protected | Foreign | Residue

  datatype RenameOutcome = Moved | Missing | Blocked

  predicate Empty(t: Tree) {
    t == Dir(NoMeta, NoGit, false)
  }

  predicate HasJson(t: Tree) {
    t.Dir? && t.meta.Json?
  }

  predicate HasValidJson(t: Tree) {
    HasJson(t) && t.meta.file.Valid?
  }

  /** `classifyFinalDir` on a tree that is there. */
  function Classify(t: Tree): FinalDirState {
    match t
    case File => Residue
    case Dir(Json(Valid(_, _)), _, _) => Live
    case Dir(Json(Malformed), _, _) => Corrupt
    case Dir(Archived, _, _) => Protected
    case Dir(NoMeta, NoGit, _) => Residue
    case Dir(NoMeta, GitFile, _) => Foreign
    case Dir(NoMeta, GitDir(Other), _) => Foreign
    case Dir(NoMeta, GitDir(_), _) => Residue
  }

  /** POSIX `rename`: a directory replaces an empty directory and nothing else that exists. */
  function RenameOf(dir: map<Name, Ino>, nodes: map<Ino, Node>, src: Name, dst: Name): RenameOutcome
    requires forall n :: n in dir ==> dir[n] in nodes
  {
    if src !in dir then Missing
    else if dst !in dir then Moved
    else if nodes[dir[src]].tree.Dir? then
      if Empty(nodes[dir[dst]].tree) then Moved else Blocked
    else
      if nodes[dir[dst]].tree.File? then Moved else Blocked
  }

  function MoveName(dir: map<Name, Ino>, src: Name, dst: Name): map<Name, Ino>
    requires src in dir
  {
    (dir - {src})[dst := dir[src]]
  }

  /** A creation time as the stamp in a name keeps it. */
  function Stamp(t: Time): Time {
    t - t % 1000
  }
}
