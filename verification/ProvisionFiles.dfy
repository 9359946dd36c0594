/** Each change a step makes to the branches root keeps what is known of it. */
module ProvisionFiles {
  import opened Options
  import opened ProvisionState
  import opened ProvisionSteps
  import opened ProvisionInvariant

  /** A rename of anything but a staging directory, onto a name that may take it. */
  lemma MoveNames(f: Files, src: Name, dst: Name)
    requires NamesOk(f) && src in f.dir && !src.Staging? && !dst.Staging?
    ensures NamesOk(Move(f, src, dst))
  {
  }

  lemma MoveContents(f: Files, src: Name, dst: Name)
    requires FilesOk(f) && src in f.dir && (src.Final? || src.Repair?) && !dst.Staging?
    requires dst.Final? ==> HasJson(TreeAt(f, src)) || (dst.branch, f.dir[src]) in f.seated
    ensures FilesOk(Move(f, src, dst))
  {
    MoveNames(f, src, dst);
  }

  lemma MoveKept(f: Files, src: Name, dst: Name, actor: Option<Pid>, placed: Option<Branch>)
    requires NamesOk(f) && src in f.dir && NamesOk(Move(f, src, dst)) && !dst.Staging?
    requires src.Staging? ==> f.used[src].Some? && f.used[src] == actor
    requires dst.Repair? ==> dst !in f.used
    requires dst.Final? ==> placed == Some(dst.branch)
    ensures FilesKept(f, Move(f, src, dst), actor, placed)
  {
  }

  /** Moving a branch directory or a repair candidate aside. */
  lemma MoveAside(f: Files, src: Name, dst: Name, actor: Option<Pid>)
    requires FilesOk(f) && src in f.dir
    requires src.Final? || src.Repair?
    requires (dst.Repair? && dst !in f.used) || dst.Trash? || dst.Deleting?
    ensures FilesOk(Move(f, src, dst)) && FilesKept(f, Move(f, src, dst), actor, None)
  {
    MoveContents(f, src, dst);
    MoveKept(f, src, dst, actor, None);
  }

  lemma Unchanged(f: Files, actor: Option<Pid>, placed: Option<Branch>)
    requires DirOk(f)
    ensures FilesKept(f, f, actor, placed)
  {
  }

  /** Moving a repair candidate to a branch name, if the rename is not refused. */
  lemma PutBack(f: Files, src: Name, b: Branch, actor: Option<Pid>)
    requires FilesOk(f) && src.Repair?
    requires src in f.dir ==> HasJson(TreeAt(f, src)) || (b, f.dir[src]) in f.seated
    ensures FilesOk(TryMove(f, src, Final(b))) && FilesKept(f, TryMove(f, src, Final(b)), actor, Some(b))
  {
    if RenameOf(f.dir, f.nodes, src, Final(b)) == Moved {
      MoveContents(f, src, Final(b));
      MoveKept(f, src, Final(b), actor, Some(b));
    } else {
      Unchanged(f, actor, Some(b));
    }
  }

  /** Landing a whole staged workspace at its branch name. */
  lemma LandingNames(f: Files, n: Name, b: Branch, w: nat)
    requires NamesOk(f) && n in f.dir && n.Staging?
    ensures NamesOk(Land(f, n, b, w))
  {
  }

  lemma LandingContents(f: Files, n: Name, b: Branch, w: nat)
    requires FilesOk(f) && n in f.dir && n.Staging?
    requires f.nodes[f.dir[n]].progress == Whole && TreeAt(f, n) == Dir(Json(Valid(b, w)), GitDir(Own), true)
    requires w in f.writeIds && f.writeIds[w].Some? && f.writeIds[w].value.1 == b
    ensures FilesOk(Land(f, n, b, w))
  {
    LandingNames(f, n, b, w);
  }

  lemma LandingKept(f: Files, n: Name, p: Pid, b: Branch, w: nat)
    requires NamesOk(f) && n in f.dir && NamesOk(Land(f, n, b, w)) && n.Staging? && f.used[n] == Some(p)
    ensures FilesKept(f, Land(f, n, b, w), Some(p), Some(b))
  {
  }

  lemma Landing(f: Files, n: Name, p: Pid, b: Branch, w: nat)
    requires FilesOk(f) && n in f.dir && n.Staging? && f.used[n] == Some(p)
    requires f.nodes[f.dir[n]].progress == Whole && TreeAt(f, n) == Dir(Json(Valid(b, w)), GitDir(Own), true)
    requires w in f.writeIds && f.writeIds[w] == Some((p, b))
    ensures FilesOk(Land(f, n, b, w)) && FilesKept(f, Land(f, n, b, w), Some(p), Some(b))
  {
    LandingContents(f, n, b, w);
    LandingKept(f, n, p, b, w);
  }

  /** Making a staging directory: under a fresh name, or where a swept one of the same builder was. */
  lemma MakingContents(f: Files, p: Pid, n: Name, ino: Ino, node: Node)
    requires FilesOk(f) && n !in f.dir && n.Staging? && ino !in f.nodes
    requires HasValidJson(node.tree) ==> node.tree.meta.file.writeId in f.writeIds
    ensures FilesOk(Make(f, p, n, ino, node))
  {
  }

  lemma MakingKept(f: Files, p: Pid, n: Name, ino: Ino, node: Node)
    requires NamesOk(f) && n !in f.dir && n.Staging? && ino !in f.nodes
    requires n in f.used ==> f.used[n] == Some(p)
    requires NamesOk(Make(f, p, n, ino, node))
    ensures FilesKept(f, Make(f, p, n, ino, node), Some(p), None)
  {
  }

  lemma Making(f: Files, p: Pid, n: Name, ino: Ino, node: Node)
    requires FilesOk(f) && n !in f.dir && n.Staging? && ino !in f.nodes
    requires n in f.used ==> f.used[n] == Some(p)
    requires HasValidJson(node.tree) ==> node.tree.meta.file.writeId in f.writeIds
    ensures FilesOk(Make(f, p, n, ino, node)) && FilesKept(f, Make(f, p, n, ino, node), Some(p), None)
  {
    MakingContents(f, p, n, ino, node);
    MakingKept(f, p, n, ino, node);
  }

  /** Writing in a builder's own staging directory. */
  lemma Altering(f: Files, p: Pid, n: Name, node: Node)
    requires FilesOk(f) && n in f.dir && n.Staging? && f.used[n] == Some(p)
    requires HasValidJson(node.tree) ==> node.tree.meta.file.writeId in f.writeIds
    ensures FilesOk(Alter(f, n, node)) && FilesKept(f, Alter(f, n, node), Some(p), None)
  {
  }

  /** Removing part of a leftover, or the last of it. */
  lemma GuttingContents(f: Files, n: Name, tree: Tree)
    requires FilesOk(f) && n in f.dir && Remnant(TreeAt(f, n), tree)
    requires !n.Final? && !n.Repair?
    ensures FilesOk(Gut(f, n, tree))
  {
  }

  lemma Gutting(f: Files, n: Name, tree: Tree, actor: Option<Pid>)
    requires FilesOk(f) && n in f.dir && Remnant(TreeAt(f, n), tree)
    requires !n.Final? && !n.Repair? && (n.Staging? ==> Removable(f, n) || f.used[n] == actor)
    ensures FilesOk(Gut(f, n, tree)) && FilesKept(f, Gut(f, n, tree), actor, None)
  {
    GuttingContents(f, n, tree);
  }

  lemma Unlinking(f: Files, n: Name, actor: Option<Pid>)
    requires FilesOk(f) && n in f.dir
    requires !n.Final? && !n.Repair? && (n.Staging? ==> Removable(f, n) || f.used[n] == actor)
    ensures FilesOk(Unlink(f, n)) && FilesKept(f, Unlink(f, n), actor, None)
  {
  }

  lemma EditingContents(f: Files, b: Branch, tree: Tree)
    requires FilesOk(f) && Final(b) in f.dir && Edited(f, TreeAt(f, Final(b)), tree)
    ensures FilesOk(Edit(f, b, tree))
  {
  }

  lemma Editing(f: Files, b: Branch, tree: Tree)
    requires FilesOk(f) && Final(b) in f.dir && Edited(f, TreeAt(f, Final(b)), tree)
    ensures FilesOk(Edit(f, b, tree)) && FilesKept(f, Edit(f, b, tree), None, None)
  {
    EditingContents(f, b, tree);
  }

  lemma Ticking(f: Files, ms: nat)
    requires FilesOk(f)
    ensures FilesOk(f.(clock := f.clock + ms)) && FilesKept(f, f.(clock := f.clock + ms), None, None)
  {
  }

  lemma Claiming(f: Files, w: nat, owner: Option<(Pid, Branch)>, actor: Option<Pid>)
    requires FilesOk(f) && w !in f.writeIds
    ensures FilesOk(f.(writeIds := f.writeIds[w := owner]))
    ensures FilesKept(f, f.(writeIds := f.writeIds[w := owner]), actor, None)
  {
  }
}
