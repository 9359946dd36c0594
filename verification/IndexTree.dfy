/** What a scan files for each name of a tree, said of the tree. */
module IndexTree {
  import opened Options
  import opened Filenames
  import opened IndexSpec
  import opened IndexScan

  /** A chain of names that leads down the tree to a node. */
  ghost predicate LeadsTo(children: seq<(string, Node)>, names: seq<string>, node: Node)
    decreases |names|
  {
    && names != []
    && exists i :: 0 <= i < |children| && children[i].0 == names[0]
                   && if |names| == 1 then node == children[i].1
                      else children[i].1.DirNode? && LeadsTo(children[i].1.children, names[1..], node)
  }

  /** A name the scan does not pass over. */
  predicate Listed(name: string) {
    name != "_ids_" && (name == "" || name[0] != '.')
  }

  predicate AllListed(names: seq<string>) {
    forall k :: 0 <= k < |names| ==> Listed(names[k])
  }

  function Segments(dir: string): seq<string> {
    if dir == "" then [] else Split(dir, '/')
  }

  function WithoutIds(names: seq<string>): (r: seq<string>)
    ensures |r| == |names| && forall k :: 0 <= k < |names| ==> r[k] == ExtractSlug(names[k], None)
  {
    seq(|names|, k requires 0 <= k < |names| => ExtractSlug(names[k], None))
  }

  /**
   * What is filed for the last of a chain of names, below `start`: the id the name embeds, the whole path,
   * and for a file its slug and, as its collection, the names above it without their ids.
   */
  predicate FiledAs(start: string, names: seq<string>, node: Node, l: Location) {
    && names != []
    && (var last, above := names[|names| - 1], Segments(start) + names[..|names| - 1];
        && ExtractId(last) == Some(l.id)
        && l.path == Join(Segments(start) + names, '/')
        && if node.DirNode? then l.kind.CollectionKind? && l.collection.None? && l.slug.None?
           else
             && l.kind.EntryKind? && l.slug == Some(ExtractSlug(last, None))
             && l.collection == Some(Join(WithoutIds(above), '/')))
  }

  /** The tree has a name for `l`. */
  ghost predicate Holds(start: string, children: seq<(string, Node)>, l: Location) {
    exists names, node :: LeadsTo(children, names, node) && AllListed(names) && FiledAs(start, names, node, l)
  }

  // --- Paths ------------------------------------------------------------------------------------------

  predicate IsName(name: string) {
    name != "" && '/' !in name
  }

  lemma FullIsJoin(dir: string, name: string)
    requires IsName(name)
    ensures Full(dir, name) == Join(Segments(dir) + [name], '/')
    ensures Full(dir, name) != "" && Split(Full(dir, name), '/') == Segments(dir) + [name]
  {
    if dir == "" {
      assert [] + [name] == [name];
      SplitOfPlain(name, '/');
    } else {
      var parts := Split(dir, '/') + [name];
      JoinOfSplit(dir, '/');
      JoinOfConcat(Split(dir, '/'), [name], '/');
      assert Join([name], '/') == name;
      SplitOfJoin(parts, '/');
    }
  }

  lemma SegmentsOfFull(dir: string, name: string)
    requires IsName(name)
    ensures Segments(Full(dir, name)) == Segments(dir) + [name]
  {
    FullIsJoin(dir, name);
  }

  lemma LogicalAbove(dir: string, name: string)
    requires IsName(name)
    ensures ToLogical(DirName(Full(dir, name))) == Join(Logical(Segments(dir)), '/')
  {
    FullIsJoin(dir, name);
    var parts := Segments(dir) + [name];
    assert parts[..|parts| - 1] == Segments(dir);
    if dir == "" {
      assert |parts| == 1 && Logical([]) == [];
    } else {
      JoinOfSplit(dir, '/');
      if dir == "." {
        LogicalDot();
      }
    }
  }

  lemma LogicalDot()
    ensures Join(Logical(Segments(".")), '/') == ""
  {
    SplitOfPlain(".", '/');
    SplitAfter("", "", '.');
    assert "" + ['.'] + "" == ".";
    assert Split(".", '.') == [""] + [""];
    assert ExtractSlug(".", None) == Lower(Join([""], '.')) == "";
    assert Logical(["."]) == [""];
  }

  lemma FiledIsItem(dir: string, name: string, node: Node, l: Location)
    requires IsName(name)
    ensures l in ItemOf(dir, name, node) <==> FiledAs(dir, [name], node, l)
  {
    hide ToLogical, DirName, ExtractId, ExtractSlug;
    var names := [name];
    FullIsJoin(dir, name);
    LogicalAbove(dir, name);
    var above := Segments(dir) + names[..0];
    assert above == Segments(dir);
    assert Logical(above) == WithoutIds(above);
    ItemOfIff(dir, name, node, l);
  }

  lemma ItemOfIff(dir: string, name: string, node: Node, l: Location)
    ensures l in ItemOf(dir, name, node) <==>
              && ExtractId(name) == Some(l.id) && l.path == Full(dir, name)
              && if node.DirNode? then l.kind.CollectionKind? && l.collection.None? && l.slug.None?
                 else
                   && l.kind.EntryKind? && l.slug == Some(ExtractSlug(name, None))
                   && l.collection == Some(ToLogical(DirName(Full(dir, name))))
  {
  }

  lemma FiledDeeper(dir: string, name: string, names: seq<string>, node: Node, l: Location)
    requires IsName(name) && names != []
    ensures FiledAs(Full(dir, name), names, node, l) <==> FiledAs(dir, [name] + names, node, l)
  {
    hide ExtractId, ExtractSlug, Join, Segments, Full, WithoutIds;
    var all := [name] + names;
    SegmentsOfFull(dir, name);
    assert Segments(Full(dir, name)) + names == Segments(dir) + all;
    assert all[|all| - 1] == names[|names| - 1];
    assert Segments(Full(dir, name)) + names[..|names| - 1] == Segments(dir) + all[..|all| - 1];
  }

  // --- The tree and the scan --------------------------------------------------------------------------

  lemma ListedIff(name: string)
    ensures Listed(name) <==> !Skipped(name)
  {
  }

  lemma HoldsHere(dir: string, children: seq<(string, Node)>, i: nat, l: Location)
    requires i < |children| && Listed(children[i].0) && FiledAs(dir, [children[i].0], children[i].1, l)
    ensures Holds(dir, children, l)
  {
    assert LeadsTo(children, [children[i].0], children[i].1);
  }

  lemma HoldsBelow(dir: string, children: seq<(string, Node)>, i: nat, l: Location)
    requires i < |children| && IsName(children[i].0) && Listed(children[i].0) && children[i].1.DirNode?
    requires Holds(Full(dir, children[i].0), children[i].1.children, l)
    ensures Holds(dir, children, l)
  {
    hide FiledAs;
    var names, node :| LeadsTo(children[i].1.children, names, node) && AllListed(names) && FiledAs(Full(dir, children[i].0), names, node, l);
    var all := [children[i].0] + names;
    assert all[1..] == names;
    assert LeadsTo(children, all, node);
    assert AllListed(all);
    FiledDeeper(dir, children[i].0, names, node, l);
  }

  lemma ChildrenAreNamed(children: seq<(string, Node)>, i: nat)
    requires WellFormed(children) && i < |children|
    ensures IsName(children[i].0) && (children[i].1.DirNode? ==> WellFormed(children[i].1.children))
  {
    assert WellFormedBelow(children[i]);
  }

  /** What the scan meets in a tree is what the tree has names for. */
  lemma {:induction false} ItemsAreHeld(dir: string, children: seq<(string, Node)>, l: Location)
    requires WellFormed(children)
    ensures l in Items(dir, children) ==> Holds(dir, children, l)
    decreases children
  {
    hide Holds, FiledAs, ItemOf, WellFormed;
    ItemsByChild(dir, children, l);
    if l in Items(dir, children) {
      var i :| 0 <= i < |children| && l in ItemsOfChild(dir, children[i]);
      var name, node := children[i].0, children[i].1;
      ChildrenAreNamed(children, i);
      ListedIff(name);
      if l in ItemOf(dir, name, node) {
        FiledIsItem(dir, name, node, l);
        HoldsHere(dir, children, i, l);
      } else {
        ItemsBelowAreHeld(Full(dir, name), children[i], l);
        HoldsBelow(dir, children, i, l);
      }
    }
  }

  lemma {:induction false} ItemsBelowAreHeld(full: string, child: (string, Node), l: Location)
    requires child.1.DirNode? && WellFormed(child.1.children)
    ensures l in Items(full, child.1.children) ==> Holds(full, child.1.children, l)
    decreases child
  {
    ItemsAreHeld(full, child.1.children, l);
  }

  lemma {:induction false} HeldAreItems(dir: string, children: seq<(string, Node)>, names: seq<string>, node: Node, l: Location)
    requires WellFormed(children) && LeadsTo(children, names, node) && AllListed(names) && FiledAs(dir, names, node, l)
    ensures l in Items(dir, children)
    decreases |names|
  {
    hide FiledAs, ItemOf, WellFormed;
    var i :| 0 <= i < |children| && children[i].0 == names[0]
             && if |names| == 1 then node == children[i].1
                else children[i].1.DirNode? && LeadsTo(children[i].1.children, names[1..], node);
    var name := names[0];
    ChildrenAreNamed(children, i);
    ListedIff(name);
    ItemsByChild(dir, children, l);
    if |names| == 1 {
      assert names == [name];
      FiledIsItem(dir, name, node, l);
    } else {
      assert names == [name] + names[1..];
      FiledDeeper(dir, name, names[1..], node, l);
      HeldAreItems(Full(dir, name), children[i].1.children, names[1..], node, l);
    }
    assert l in ItemsOfChild(dir, children[i]);
  }

  lemma ItemsIff(start: string, children: seq<(string, Node)>, l: Location)
    requires WellFormed(children)
    ensures l in Items(start, children) <==> Holds(start, children, l)
  {
    hide FiledAs, LeadsTo, AllListed, WellFormed, Items;
    ItemsAreHeld(start, children, l);
    if Holds(start, children, l) {
      var names, node :| LeadsTo(children, names, node) && AllListed(names) && FiledAs(start, names, node, l);
      HeldAreItems(start, children, names, node, l);
    }
  }

  /**
   * An index of a tree: it has what the tree has names for, and nothing else. Of the names that embed one
   * id the smallest path is located, and exactly the others are on record as dropped.
   */
  ghost predicate IndexesTree(start: string, children: seq<(string, Node)>, ix: Index) {
    && (forall id :: id in ix.locations ==> ix.locations[id].id == id && Holds(start, children, ix.locations[id]))
    && (forall l :: Holds(start, children, l) ==> l.id in ix.locations && IsFiled(ix, l))
    && (forall id, p :: p in Dropped(ix, id) ==> exists l :: Holds(start, children, l) && IsDropped(ix, l, id, p))
  }

  predicate IsFiled(ix: Index, l: Location)
    requires l.id in ix.locations
  {
    ix.locations[l.id] == l || (Less(ix.locations[l.id].path, l.path) && l.path in Dropped(ix, l.id))
  }

  predicate IsDropped(ix: Index, l: Location, id: string, p: string) {
    l.id == id && l.path == p && id in ix.locations && Less(ix.locations[id].path, p)
  }

  lemma ItemFiled(items: seq<Location>, ix: Index, l: Location)
    requires DistinctPaths(items) && Keeps(items, ix, l.id) && l in items
    ensures l.id in ix.locations && IsFiled(ix, l)
  {
    var i :| 0 <= i < |items| && items[i] == l;
    assert l.path in PathsOf(items, l.id);
    var kept := ix.locations[l.id];
    if kept.path == l.path {
      var j :| 0 <= j < |items| && items[j] == kept;
    }
  }

  lemma DroppedItem(items: seq<Location>, ix: Index, id: string, p: string) returns (l: Location)
    requires Keeps(items, ix, id) && p in Dropped(ix, id)
    ensures l in items && IsDropped(ix, l, id, p)
  {
    var i :| 0 <= i < |items| && items[i].id == id && items[i].path == p;
    l := items[i];
  }

  /** A scan of any tree into an empty index gives an index of the tree. */
  lemma ScanIndexesTree(start: string, children: seq<(string, Node)>)
    requires WellFormed(children)
    ensures IndexesTree(start, children, ScanAll(EMPTY, Items(start, children)))
  {
    hide Holds, Items, ScanAll, WellFormed;
    var items := Items(start, children);
    var ix := ScanAll(EMPTY, items);
    ItemsAreDistinct(start, children);
    ScanKeepsSmallest(start, children);
    IndexedIndexesTree(start, children, items, ix);
  }

  lemma IndexedIndexesTree(start: string, children: seq<(string, Node)>, items: seq<Location>, ix: Index)
    requires WellFormed(children) && items == Items(start, children) && DistinctPaths(items) && Indexed(items, ix)
    ensures IndexesTree(start, children, ix)
  {
    hide Holds, Items, WellFormed, DistinctPaths, IsFiled, IsDropped;
    forall id | id in ix.locations ensures ix.locations[id].id == id && Holds(start, children, ix.locations[id]) {
      assert Keeps(items, ix, id);
      ItemsIff(start, children, ix.locations[id]);
    }
    forall l | Holds(start, children, l) ensures l.id in ix.locations && IsFiled(ix, l) {
      ItemsIff(start, children, l);
      assert Keeps(items, ix, l.id);
      ItemFiled(items, ix, l);
    }
    forall id, p | p in Dropped(ix, id) ensures exists l :: Holds(start, children, l) && IsDropped(ix, l, id, p) {
      assert Keeps(items, ix, id);
      var l := DroppedItem(items, ix, id, p);
      ItemsIff(start, children, l);
    }
  }

  // --- Names as they are made -------------------------------------------------------------------------

  // A collection directory: its name and its id.
  datatype Dir = Dir(slug: string, id: string)

  predicate IsDir(d: Dir) {
    d.slug != "" && '.' !in d.slug && IsValidId(d.id)
  }

  function DirNameOf(d: Dir): string {
    d.slug + "." + d.id
  }

  function DirNames(dirs: seq<Dir>): (names: seq<string>)
    ensures |names| == |dirs| && forall k :: 0 <= k < |dirs| ==> names[k] == DirNameOf(dirs[k])
  {
    seq(|dirs|, k requires 0 <= k < |dirs| => DirNameOf(dirs[k]))
  }

  /** The path of a collection as its directories' names alone give it. */
  function CollectionPath(dirs: seq<Dir>): string {
    Join(seq(|dirs|, k requires 0 <= k < |dirs| => Lower(dirs[k].slug)), '/')
  }

  lemma DirIsListed(d: Dir)
    requires IsDir(d)
    ensures Listed(DirNameOf(d)) && ExtractId(DirNameOf(d)) == Some(d.id) && ExtractSlug(DirNameOf(d), None) == Lower(d.slug)
  {
    DirectoryRoundTrip(d.slug, d.id);
    assert DirNameOf(d)[|d.slug|] == '.';
    assert DirNameOf(d)[0] == d.slug[0];
  }

  lemma AboveIs(dirs: seq<Dir>, last: string)
    requires forall k :: 0 <= k < |dirs| ==> IsDir(dirs[k])
    ensures AllListed(DirNames(dirs))
    ensures var names := DirNames(dirs) + [last];
            var above := Segments("") + names[..|names| - 1];
            Join(WithoutIds(above), '/') == CollectionPath(dirs)
  {
    hide ExtractSlug, ExtractId, IsDir;
    var names := DirNames(dirs) + [last];
    var above := Segments("") + names[..|names| - 1];
    assert above == DirNames(dirs);
    forall k | 0 <= k < |dirs| ensures Listed(DirNames(dirs)[k]) && ExtractSlug(above[k], None) == Lower(dirs[k].slug) {
      DirIsListed(dirs[k]);
    }
    assert WithoutIds(above)
           == seq(|dirs|, k requires 0 <= k < |dirs| => Lower(dirs[k].slug));
  }

  /**
   * A file `{type}.{slug}.{id}.{ext}` in a chain of collection directories is an entry of theirs: filed
   * under its id, with its slug, in the collection their names without ids make.
   */
  lemma EntryIsFiled(children: seq<(string, Node)>, dirs: seq<Dir>, entryType: string, slug: string, id: string, ext: string)
    requires forall k :: 0 <= k < |dirs| ==> IsDir(dirs[k])
    requires entryType != "" && '.' !in entryType && IsValidId(id) && '.' !in ext
    requires LeadsTo(children, DirNames(dirs) + [EntryName(entryType, slug, id, ext)], FileNode)
    ensures Holds("", children,
                  Location(id, EntryKind, Join(DirNames(dirs) + [EntryName(entryType, slug, id, ext)], '/'),
                           Some(CollectionPath(dirs)), Some(Lower(slug))))
  {
    hide ExtractId, ExtractSlug, Join, CollectionPath, LeadsTo, IsDir;
    var last := EntryName(entryType, slug, id, ext);
    var names := DirNames(dirs) + [last];
    NameRoundTrip(entryType, slug, id, ext, None);
    AboveIs(dirs, last);
    EntryNameIsListed(entryType, slug, id, ext);
    assert AllListed(names);
    assert Segments("") + names == names && names[|names| - 1] == last;
    assert FiledAs("", names, FileNode, Location(id, EntryKind, Join(names, '/'), Some(CollectionPath(dirs)), Some(Lower(slug))));
  }

  lemma EntryNameIsListed(entryType: string, slug: string, id: string, ext: string)
    requires entryType != "" && '.' !in entryType
    ensures Listed(EntryName(entryType, slug, id, ext))
  {
    var name := EntryName(entryType, slug, id, ext);
    assert name[0] == entryType[0] && name[|entryType|] == '.';
  }

  /** A directory `{name}.{id}` in a chain of collection directories is filed as a collection. */
  lemma CollectionIsFiled(children: seq<(string, Node)>, dirs: seq<Dir>, d: Dir, inside: seq<(string, Node)>)
    requires (forall k :: 0 <= k < |dirs| ==> IsDir(dirs[k])) && IsDir(d)
    requires LeadsTo(children, DirNames(dirs) + [DirNameOf(d)], DirNode(inside))
    ensures Holds("", children, Location(d.id, CollectionKind, Join(DirNames(dirs) + [DirNameOf(d)], '/'), None, None))
  {
    hide ExtractId, ExtractSlug, Join, LeadsTo, IsDir;
    var last := DirNameOf(d);
    var names := DirNames(dirs) + [last];
    DirIsListed(d);
    AboveIs(dirs, last);
    assert AllListed(names);
    assert Segments("") + names == names && names[|names| - 1] == last;
    assert FiledAs("", names, DirNode(inside), Location(d.id, CollectionKind, Join(names, '/'), None, None));
  }

  lemma JoinedDirs(dirs: seq<Dir>, last: string)
    requires IsName(last) && forall k :: 0 <= k < |dirs| ==> IsDir(dirs[k]) && '/' !in dirs[k].slug
    ensures var dir := Join(DirNames(dirs), '/');
            && Segments(dir) == DirNames(dirs)
            && Full(dir, last) == Join(DirNames(dirs) + [last], '/')
  {
    hide IsDir, ExtractSlug;
    var names, dir := DirNames(dirs), Join(DirNames(dirs), '/');
    if dirs != [] {
      forall k | 0 <= k < |names| ensures '/' !in names[k] && names[k] != "" {
        DirHasNoSlash(dirs[k]);
      }
      SplitOfJoin(names, '/');
      assert Split("", '/') == [""] && names[0] != "";
    }
    FullIsJoin(dir, last);
  }

  lemma DirHasNoSlash(d: Dir)
    requires IsDir(d) && '/' !in d.slug
    ensures '/' !in DirNameOf(d) && DirNameOf(d) != ""
  {
  }

  lemma MovedFollows(l: Location, dirs: seq<Dir>, entryType: string, slug: string, id: string, ext: string)
    requires l.kind.EntryKind? && forall k :: 0 <= k < |dirs| ==> IsDir(dirs[k]) && '/' !in dirs[k].slug
    requires entryType != "" && '.' !in entryType && IsValidId(id) && '.' !in ext
    requires '/' !in EntryName(entryType, slug, id, ext)
    ensures var path := Join(DirNames(dirs) + [EntryName(entryType, slug, id, ext)], '/');
            Moved(l, path) == Location(l.id, EntryKind, path, Some(CollectionPath(dirs)), Some(Lower(slug)))
  {
    hide ToLogical, DirName, ExtractId, ExtractSlug, Join, CollectionPath, IsDir;
    var last := EntryName(entryType, slug, id, ext);
    var dir, names := Join(DirNames(dirs), '/'), DirNames(dirs) + [last];
    NameRoundTrip(entryType, slug, id, ext, None);
    JoinedDirs(dirs, last);
    LogicalAbove(dir, last);
    BaseOfFull(dir, last);
    AboveIs(dirs, last);
    assert Segments("") + names[..|names| - 1] == DirNames(dirs);
    assert Logical(DirNames(dirs)) == WithoutIds(DirNames(dirs));
  }

  /**
   * An entry repointed to a file in a chain of collection directories has that file's slug and their
   * collection, and is listed there and in no other.
   */
  lemma RepointedEntryFollows(ix: Index, at: string, dirs: seq<Dir>, entryType: string, slug: string, id: string, ext: string)
    requires Consistent(ix) && at in ix.locations && ix.locations[at].kind.EntryKind?
    requires forall k :: 0 <= k < |dirs| ==> IsDir(dirs[k]) && '/' !in dirs[k].slug
    requires entryType != "" && '.' !in entryType && IsValidId(id) && '.' !in ext
    requires '/' !in EntryName(entryType, slug, id, ext)
    ensures var path, collection := Join(DirNames(dirs) + [EntryName(entryType, slug, id, ext)], '/'), CollectionPath(dirs);
            var out := UpdatePath(ix, at, path);
            && out.locations == ix.locations[at := Location(at, EntryKind, path, Some(collection), Some(Lower(slug)))]
            && forall group :: group in out.groups && at in out.groups[group] <==> collection != "" && group == collection
  {
    hide Join, CollectionPath, IsDir, IsValidId, EntryName, Moved;
    var path := Join(DirNames(dirs) + [EntryName(entryType, slug, id, ext)], '/');
    MovedFollows(ix.locations[at], dirs, entryType, slug, id, ext);
    UpdateGroups(ix, at, path);
  }
}
