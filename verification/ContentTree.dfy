/**
 * The content tree and the flat listing: one walks from parent to child, the other
 * selects collections by path prefix, and they must show the same entries.
 */
module ContentTree {
  import opened Options
  import opened Sorting
  import IndexSpec
  import opened ContentSchema
  import IndexScan

  datatype Item = Item(path: string, slug: string, entryType: string, contentId: Option<string>)

  datatype TreeNode =
    | EntryNode(item: Item)
    | CollNode(coll: Coll, children: seq<TreeNode>)

  // What a walk is given: the files on disk of each collection that have an entry's name,
  // which of them may be seen, and how fallback keys compare.
  datatype Walker = Walker(read: Coll -> seq<Item>, shows: string -> bool, keyLe: (string, string) -> bool)

  // --- The entries of one collection ------------------------------------------------------------------

  predicate Unavailable(c: Coll, entryType: string) {
    c.entries.Some? && exists i :: 0 <= i < |c.entries.value| && c.entries.value[i].unavailable && c.entries.value[i].name == entryType
  }

  predicate Declared(c: Coll, entryType: string) {
    c.entries.Some? && exists i :: 0 <= i < |c.entries.value| && c.entries.value[i].name == entryType
  }

  predicate MayShow(w: Walker, c: Coll, item: Item) {
    Declared(c, item.entryType) && !Unavailable(c, item.entryType) && w.shows(item.path)
  }

  function Shown(w: Walker, c: Coll, items: seq<Item>): seq<Item> {
    if items == [] then []
    else (if MayShow(w, c, items[0]) then [items[0]] else []) + Shown(w, c, items[1..])
  }

  /** `listCollectionEntries` and what both traversals filter it by; nothing without entry types. */
  function Visible(w: Walker, c: Coll): seq<Item> {
    if c.entries.None? then [] else Shown(w, c, w.read(c))
  }

  // --- The listing -------------------------------------------------------------------------------------

  predicate Selected(c: Coll, root: string) {
    c.entries.Some? && (c.path == root || (root + "/") <= c.path)
  }

  function Gathered(w: Walker, cs: seq<Coll>, root: string): seq<Item> {
    if cs == [] then []
    else Gathered(w, cs[..|cs| - 1], root) + if Selected(cs[|cs| - 1], root) then Visible(w, cs[|cs| - 1]) else []
  }

  function Listing(w: Walker, flat: seq<FlatItem>, root: string): (items: seq<Item>)
    ensures multiset(items) == multiset(Gathered(w, Collections(flat), root))
  {
    Sort(Gathered(w, Collections(flat), root), (a: Item, b: Item) => w.keyLe(a.path, b.path))
  }

  lemma GatheredOn(w: Walker, cs: seq<Coll>, root: string, k: nat)
    requires k < |cs|
    ensures Gathered(w, cs[..k + 1], root) == Gathered(w, cs[..k], root) + if Selected(cs[k], root) then Visible(w, cs[k]) else []
  {
    assert cs[..k + 1][..k] == cs[..k];
  }

  // An entry as it is listed, with what `extract` makes of it.
  datatype Listed<T> = Listed(item: Item, data: T)

  datatype ListOptions<!T> = ListOptions(
    extract: Item -> T,
    filter: Option<Listed<T> -> bool>,
    sort: Option<(Listed<T>, Listed<T>) -> bool>
  )

  predicate Passes<T>(o: ListOptions<T>, item: Item) {
    o.filter.Some? ==> o.filter.value(Listed(item, o.extract(item)))
  }

  function Passed<T>(o: ListOptions<T>, items: seq<Item>): seq<Listed<T>> {
    if items == [] then []
    else
      var last := items[|items| - 1];
      Passed(o, items[..|items| - 1]) + if Passes(o, last) then [Listed(last, o.extract(last))] else []
  }

  /** The custom sort, or the order of the paths. */
  function OrderOf<T>(w: Walker, o: ListOptions<T>): (Listed<T>, Listed<T>) -> bool {
    if o.sort.Some? then o.sort.value else (a: Listed<T>, b: Listed<T>) => w.keyLe(a.item.path, b.item.path)
  }

  function ListingWith<T>(w: Walker, flat: seq<FlatItem>, root: string, o: ListOptions<T>): seq<Listed<T>> {
    Sort(Passed(o, Gathered(w, Collections(flat), root)), OrderOf(w, o))
  }

  lemma PassedOn<T>(o: ListOptions<T>, items: seq<Item>, more: seq<Item>, i: nat)
    requires i < |more|
    ensures Passed(o, items + more[..i + 1])
            == Passed(o, items + more[..i]) + if Passes(o, more[i]) then [Listed(more[i], o.extract(more[i]))] else []
  {
    assert (items + more[..i + 1])[..|items| + i] == items + more[..i];
  }

  /** `listEntries`: what passes of the selected collections' entries, in order. */
  method ListEntries<T>(w: Walker, flat: seq<FlatItem>, root: string, o: ListOptions<T>) returns (items: seq<Listed<T>>)
    ensures items == ListingWith(w, flat, root, o)
  {
    var cs := Collections(flat);
    items := [];
    for k := 0 to |cs|
      invariant items == Passed(o, Gathered(w, cs[..k], root))
    {
      GatheredOn(w, cs, root, k);
      ghost var before := Gathered(w, cs[..k], root);
      var entries := if Selected(cs[k], root) then Visible(w, cs[k]) else [];
      assert before + entries[..0] == before;
      for i := 0 to |entries|
        invariant items == Passed(o, before + entries[..i])
      {
        PassedOn(o, before, entries, i);
        if Passes(o, entries[i]) {
          items := items + [Listed(entries[i], o.extract(entries[i]))];
        }
      }
      assert entries[..|entries|] == entries;
    }
    assert cs[..|cs|] == cs;
    items := Sort(items, OrderOf(w, o));
  }

  lemma {:induction false} PassedHolds<T>(o: ListOptions<T>, items: seq<Item>, x: Item)
    ensures multiset(Passed(o, items))[Listed(x, o.extract(x))] == if Passes(o, x) then multiset(items)[x] else 0
    ensures forall l :: l in multiset(Passed(o, items)) ==> Passes(o, l.item) && l.data == o.extract(l.item)
  {
    if items != [] {
      PassedHolds(o, items[..|items| - 1], x);
      assert items == items[..|items| - 1] + [items[|items| - 1]];
    }
  }

  /**
   * Whatever the options, the listing holds each entry that passes as often as the plain listing does,
   * with its own data, and nothing else.
   */
  lemma ListingShows<T>(w: Walker, flat: seq<FlatItem>, root: string, o: ListOptions<T>, x: Item)
    ensures multiset(ListingWith(w, flat, root, o))[Listed(x, o.extract(x))]
            == if Passes(o, x) then multiset(Listing(w, flat, root))[x] else 0
    ensures forall l :: l in ListingWith(w, flat, root, o) ==> Passes(o, l.item) && l.data == o.extract(l.item)
  {
    PassedHolds(o, Gathered(w, Collections(flat), root), x);
    forall l | l in ListingWith(w, flat, root, o) ensures Passes(o, l.item) && l.data == o.extract(l.item) {
      assert l in multiset(ListingWith(w, flat, root, o));
    }
  }

  // --- The tree ----------------------------------------------------------------------------------------

  function ChildrenOf(cs: seq<Coll>, path: string): (children: seq<Coll>)
    ensures forall c :: c in children <==> c in cs && c.parent == Some(path)
  {
    if cs == [] then []
    else ChildrenOf(cs[..|cs| - 1], path) + if cs[|cs| - 1].parent == Some(path) then [cs[|cs| - 1]] else []
  }

  lemma CollectionsStep(flat: seq<FlatItem>, k: nat)
    requires k < |flat|
    ensures Collections(flat[..k + 1]) == Collections(flat[..k]) + if flat[k].CollItem? then [flat[k].coll] else []
  {
    assert flat[..k + 1] == flat[..k] + [flat[k]];
    CollectionsOn(flat[..k], [flat[k]]);
    assert [flat[k]][1..] == [];
  }

  lemma ChildrenStep(cs: seq<Coll>, c: Coll, path: string)
    ensures ChildrenOf(cs + [c], path) == ChildrenOf(cs, path) + if c.parent == Some(path) then [c] else []
  {
    assert (cs + [c])[..|cs|] == cs;
  }

  function Grouped(byParent: map<Option<string>, seq<Coll>>, parent: Option<string>): seq<Coll> {
    if parent in byParent then byParent[parent] else []
  }

  /** `groupByParent`. */
  method GroupByParent(flat: seq<FlatItem>) returns (byParent: map<Option<string>, seq<Coll>>)
    ensures forall path :: Grouped(byParent, Some(path)) == ChildrenOf(Collections(flat), path)
  {
    byParent := map[];
    for k := 0 to |flat|
      invariant forall path :: Grouped(byParent, Some(path)) == ChildrenOf(Collections(flat[..k]), path)
    {
      CollectionsStep(flat, k);
      if flat[k].CollItem? {
        var c := flat[k].coll;
        ghost var before, was := Collections(flat[..k]), byParent;
        byParent := byParent[c.parent := Grouped(byParent, c.parent) + [c]];
        forall path ensures Grouped(byParent, Some(path)) == ChildrenOf(before + [c], path) {
          ChildrenStep(before, c, path);
          assert Grouped(was, Some(path)) == ChildrenOf(before, path);
        }
      } else {
        assert Collections(flat[..k]) + [] == Collections(flat[..k]);
      }
    }
    assert flat[..|flat|] == flat;
  }

  function NodeId(n: TreeNode): Option<string> {
    if n.EntryNode? then n.item.contentId else n.coll.contentId
  }

  function NodeKey(n: TreeNode): string {
    if n.EntryNode? then n.item.slug else n.coll.name
  }

  /** `interleaveChildren`. */
  function Interleave(w: Walker, colls: seq<TreeNode>, entries: seq<TreeNode>, order: seq<string>): (all: seq<TreeNode>)
    ensures multiset(all) == multiset(colls + entries)
  {
    Sort(colls + entries, (a: TreeNode, b: TreeNode) => NotAfter(order, NodeId(a), NodeKey(a), NodeId(b), NodeKey(b), w.keyLe))
  }

  /** Children stand in the collection's order: the ordered ones first, by place, the others by name or slug. */
  lemma InterleaveIsInOrder(w: Walker, colls: seq<TreeNode>, entries: seq<TreeNode>, order: seq<string>, i: nat, j: nat)
    requires Total(w.keyLe) && Transitive(w.keyLe)
    requires i < j < |Interleave(w, colls, entries, order)|
    ensures var all := Interleave(w, colls, entries, order);
            NotAfter(order, NodeId(all[i]), NodeKey(all[i]), NodeId(all[j]), NodeKey(all[j]), w.keyLe)
  {
    NotAfterIsAnOrder(order, w.keyLe);
    var le := (a: TreeNode, b: TreeNode) => NotAfter(order, NodeId(a), NodeKey(a), NodeId(b), NodeKey(b), w.keyLe);
    SortSorts(colls + entries, le);
  }

  function EntryNodes(items: seq<Item>): seq<TreeNode> {
    if items == [] then [] else [EntryNode(items[0])] + EntryNodes(items[1..])
  }

  /** A child's path is longer than its parent's. */
  predicate Growing(cs: seq<Coll>) {
    forall i :: 0 <= i < |cs| && cs[i].parent.Some? ==> |cs[i].parent.value| < |cs[i].path|
  }

  function LongestPath(cs: seq<Coll>): (n: nat)
    ensures forall c :: c in cs ==> |c.path| <= n
  {
    if cs == [] then 0
    else
      var rest := LongestPath(cs[1..]);
      assert forall c :: c in cs ==> c == cs[0] || c in cs[1..];
      if |cs[0].path| > rest then |cs[0].path| else rest
  }

  lemma {:induction false} ChildrenAreBounded(cs: seq<Coll>, path: string)
    requires Growing(cs)
    ensures |ChildrenOf(cs, path)| <= |cs|
    ensures forall i :: 0 <= i < |ChildrenOf(cs, path)| ==>
              ChildrenOf(cs, path)[i] in cs && |ChildrenOf(cs, path)[i].path| > |path|
  {
    if cs != [] {
      ChildrenAreBounded(cs[..|cs| - 1], path);
    }
  }

  /** A collection's node, or none when nothing is below it. */
  function BuildNode(w: Walker, cs: seq<Coll>, c: Coll): Option<TreeNode>
    requires Growing(cs) && c in cs
    decreases LongestPath(cs) - |c.path|, 1, 0
  {
    var all := BuildBelow(w, cs, c);
    if all == [] then None else Some(CollNode(c, all))
  }

  /** What a collection's node shows: its children's nodes and its own entries. */
  function BuildBelow(w: Walker, cs: seq<Coll>, c: Coll): seq<TreeNode>
    requires Growing(cs) && c in cs
    decreases LongestPath(cs) - |c.path|, 0, |cs| + 1
  {
    ChildrenAreBounded(cs, c.path);
    Interleave(w, BuildAll(w, cs, |c.path|, ChildrenOf(cs, c.path)), EntryNodes(Visible(w, c)), c.order)
  }

  function BuildAll(w: Walker, cs: seq<Coll>, above: nat, children: seq<Coll>): seq<TreeNode>
    requires Growing(cs) && above <= LongestPath(cs)
    requires forall i :: 0 <= i < |children| ==> children[i] in cs && |children[i].path| > above
    decreases LongestPath(cs) - above, 0, |children|
  {
    if children == [] then []
    else
      var node := BuildNode(w, cs, children[0]);
      (if node.Some? then [node.value] else []) + BuildAll(w, cs, above, children[1..])
  }

  function FindRoot(cs: seq<Coll>, root: string): (c: Option<Coll>)
    ensures c.Some? ==> c.value in cs && c.value.path == root
    ensures c.None? <==> !HasPath(cs, root)
  {
    if cs == [] then None
    else if cs[0].path == root then assert HasPath(cs, root); Some(cs[0])
    else
      var rest := FindRoot(cs[1..], root);
      assert HasPath(cs[1..], root) ==> HasPath(cs, root) by {
        if HasPath(cs[1..], root) {
          var i :| 0 <= i < |cs[1..]| && cs[1..][i].path == root;
          assert cs[i + 1].path == root;
        }
      }
      assert HasPath(cs, root) ==> HasPath(cs[1..], root) by {
        if HasPath(cs, root) {
          var i :| 0 <= i < |cs| && cs[i].path == root;
          assert cs[1..][i - 1].path == root;
        }
      }
      rest
  }

  /** `buildContentTree` with no options but a root: what is below the root collection, not the root itself. */
  function BuildTree(w: Walker, flat: seq<FlatItem>, root: string): seq<TreeNode>
    requires Growing(Collections(flat))
  {
    var cs := Collections(flat);
    var c := FindRoot(cs, root);
    if c.None? then []
    else BuildBelow(w, cs, c.value)
  }

  // --- The same entries ------------------------------------------------------------------------------

  /** The entries in a tree, at every depth. */
  function EntriesIn(nodes: seq<TreeNode>): multiset<Item>
    decreases nodes
  {
    if nodes == [] then multiset{} else EntriesAt(nodes[0]) + EntriesIn(nodes[1..])
  }

  function EntriesAt(n: TreeNode): multiset<Item>
    decreases n
  {
    if n.EntryNode? then multiset{n.item} else EntriesIn(n.children)
  }

  lemma {:induction false} EntriesOn(a: seq<TreeNode>, b: seq<TreeNode>)
    ensures EntriesIn(a + b) == EntriesIn(a) + EntriesIn(b)
    decreases |a|
  {
    if a == [] {
      assert a + b == b;
    } else {
      assert (a + b)[1..] == a[1..] + b;
      EntriesOn(a[1..], b);
    }
  }

  /** Sorting moves entries about and loses none. */
  lemma {:induction false} InsertKeepsEntries(x: TreeNode, s: seq<TreeNode>, le: (TreeNode, TreeNode) -> bool)
    ensures EntriesIn(Insert(x, s, le)) == EntriesAt(x) + EntriesIn(s)
    decreases |s|
  {
    if s == [] {
      assert EntriesIn([x]) == EntriesAt(x) + EntriesIn([x][1..]);
    } else if le(x, s[0]) {
      EntriesOn([x], s);
      assert EntriesIn([x]) == EntriesAt(x) + EntriesIn([x][1..]);
    } else {
      InsertKeepsEntries(x, s[1..], le);
      assert ([s[0]] + Insert(x, s[1..], le))[1..] == Insert(x, s[1..], le);
    }
  }

  lemma {:induction false} SortKeepsEntries(s: seq<TreeNode>, le: (TreeNode, TreeNode) -> bool)
    ensures EntriesIn(Sort(s, le)) == EntriesIn(s)
    decreases |s|
  {
    if s != [] {
      SortKeepsEntries(s[1..], le);
      InsertKeepsEntries(s[0], Sort(s[1..], le), le);
    }
  }

  lemma {:induction false} EntryNodesHold(items: seq<Item>)
    ensures EntriesIn(EntryNodes(items)) == multiset(items)
  {
    if items != [] {
      EntryNodesHold(items[1..]);
      assert items == [items[0]] + items[1..];
    }
  }

  lemma InterleaveKeepsEntries(w: Walker, colls: seq<TreeNode>, items: seq<Item>, order: seq<string>)
    ensures EntriesIn(Interleave(w, colls, EntryNodes(items), order)) == EntriesIn(colls) + multiset(items)
  {
    var le := (a: TreeNode, b: TreeNode) => NotAfter(order, NodeId(a), NodeKey(a), NodeId(b), NodeKey(b), w.keyLe);
    SortKeepsEntries(colls + EntryNodes(items), le);
    EntriesOn(colls, EntryNodes(items));
    EntryNodesHold(items);
  }

  // --- Sums over collections ---------------------------------------------------------------------------

  predicate UnderAny(path: string, roots: seq<string>) {
    exists i :: 0 <= i < |roots| && IndexScan.Reaches(path, roots[i])
  }

  /** The entries of the collections at or below any of some paths. */
  function Sum(w: Walker, cs: seq<Coll>, roots: seq<string>): multiset<Item> {
    if cs == [] then multiset{}
    else (if UnderAny(cs[0].path, roots) then multiset(Visible(w, cs[0])) else multiset{}) + Sum(w, cs[1..], roots)
  }

  lemma {:induction false} SumOn(w: Walker, a: seq<Coll>, b: seq<Coll>, roots: seq<string>)
    ensures Sum(w, a + b, roots) == Sum(w, a, roots) + Sum(w, b, roots)
  {
    if a == [] {
      assert a + b == b;
    } else {
      assert (a + b)[1..] == a[1..] + b;
      SumOn(w, a[1..], b, roots);
    }
  }

  lemma SumOfOne(w: Walker, c: Coll, root: string)
    ensures Sum(w, [c], [root]) == multiset(if Selected(c, root) then Visible(w, c) else [])
  {
    assert [root][0] == root && [c][1..] == [];
    assert UnderAny(c.path, [root]) <==> IndexScan.Reaches(c.path, root);
  }

  /** The flat listing is the sum below its root. */
  lemma {:induction false} GatheredIsSum(w: Walker, cs: seq<Coll>, root: string)
    ensures multiset(Gathered(w, cs, root)) == Sum(w, cs, [root])
  {
    if cs != [] {
      var front, c := cs[..|cs| - 1], cs[|cs| - 1];
      GatheredIsSum(w, front, root);
      SumOn(w, front, [c], [root]);
      SumOfOne(w, c, root);
      assert cs == front + [c];
    }
  }

  lemma {:induction false} SumApart(w: Walker, cs: seq<Coll>, r: string, roots: seq<string>)
    requires forall i :: 0 <= i < |cs| ==> !(IndexScan.Reaches(cs[i].path, r) && UnderAny(cs[i].path, roots))
    ensures Sum(w, cs, [r] + roots) == Sum(w, cs, [r]) + Sum(w, cs, roots)
  {
    if cs != [] {
      SumApart(w, cs[1..], r, roots);
      UnderMore(cs[0].path, r, roots);
    }
  }

  lemma UnderMore(path: string, r: string, roots: seq<string>)
    ensures UnderAny(path, [r] + roots) <==> IndexScan.Reaches(path, r) || UnderAny(path, roots)
    ensures UnderAny(path, [r]) <==> IndexScan.Reaches(path, r)
  {
    assert ([r] + roots)[0] == r && [r][0] == r;
    if UnderAny(path, roots) {
      var i :| 0 <= i < |roots| && IndexScan.Reaches(path, roots[i]);
      assert ([r] + roots)[i + 1] == roots[i];
    }
    if UnderAny(path, [r] + roots) && !IndexScan.Reaches(path, r) {
      var i :| 0 <= i < |[r] + roots| && IndexScan.Reaches(path, ([r] + roots)[i]);
      assert roots[i - 1] == ([r] + roots)[i];
    }
  }

  lemma {:induction false} SumOfNone(w: Walker, cs: seq<Coll>)
    ensures Sum(w, cs, []) == multiset{}
  {
    if cs != [] {
      SumOfNone(w, cs[1..]);
    }
  }

  /** What is at a path is the collection there; what is below it is below one of its children. */
  lemma {:induction false} SumOfTop(w: Walker, cs: seq<Coll>, c: Coll, roots: seq<string>)
    requires UniquePaths(cs)
    requires forall i :: 0 <= i < |cs| ==>
               && (cs[i].path == c.path ==> cs[i] == c && !UnderAny(cs[i].path, roots))
               && (cs[i].path != c.path ==> (IndexScan.Reaches(cs[i].path, c.path) <==> UnderAny(cs[i].path, roots)))
    ensures Sum(w, cs, [c.path]) == (if HasPath(cs, c.path) then multiset(Visible(w, c)) else multiset{}) + Sum(w, cs, roots)
  {
    if cs != [] {
      SumOfTop(w, cs[1..], c, roots);
      UnderMore(cs[0].path, c.path, []);
      HasPathOn([cs[0]], cs[1..], c.path);
      assert [cs[0]] + cs[1..] == cs;
      if cs[0].path == c.path {
        assert [cs[0]][0].path == c.path;
        assert !HasPath(cs[1..], c.path);
      }
    }
  }

  // --- Parent chains are path prefixes ---------------------------------------------------------------

  lemma WellFormedGrows(cs: seq<Coll>, top: string)
    requires WellFormed(cs, top)
    ensures Growing(cs)
  {
    forall i | 0 <= i < |cs| && cs[i].parent.Some? ensures |cs[i].parent.value| < |cs[i].path| {
      assert PlacedOk(cs[i], cs, top);
    }
  }

  /** Where a path is below a collection, so is the path one segment up, or that is the collection. */
  lemma OneUp(path: string, parent: string, dir: string)
    requires JustBelow(path, parent) && Below(path, dir)
    ensures parent == dir || Below(parent, dir)
  {
    var s :| IsSegment(s) && path == IndexSpec.Full(parent, s);
    assert path[|dir|] == '/' && path[..|dir|] == dir;
    if |dir| < |parent| {
      assert parent[..|dir|] == dir && parent[|dir|] == '/';
    } else if |dir| == |parent| {
      assert path[..|parent|] == parent;
    }
  }

  lemma OneDown(path: string, parent: string, dir: string)
    requires JustBelow(path, parent) && parent != "" && IndexScan.Reaches(parent, dir)
    ensures Below(path, dir)
  {
    var s :| IsSegment(s) && path == IndexSpec.Full(parent, s);
    assert (parent + "/") <= path;
  }

  /** No collection is at the empty path. */
  lemma NoEmptyPath(cs: seq<Coll>, top: string, path: string)
    requires WellFormed(cs, top) && HasPath(cs, path)
    ensures path != ""
  {
    var j :| 0 <= j < |cs| && cs[j].path == path;
    assert PlacedOk(cs[j], cs, top);
  }

  /** Every collection is at the top or below it. */
  lemma {:induction false} AllBelowTop(cs: seq<Coll>, top: string, k: nat)
    requires WellFormed(cs, top) && top != "" && k < |cs|
    ensures IndexScan.Reaches(cs[k].path, top)
    decreases |cs[k].path|
  {
    assert PlacedOk(cs[k], cs, top);
    if cs[k].path != top {
      var j :| 0 <= j < |cs| && cs[j].path == cs[k].parent.value;
      NoEmptyPath(cs, top, cs[j].path);
      WellFormedGrows(cs, top);
      AllBelowTop(cs, top, j);
      OneDown(cs[k].path, cs[j].path, top);
    }
  }

  /** What is below a collection has a parent. */
  lemma HasParent(cs: seq<Coll>, top: string, c: Coll, k: nat)
    requires WellFormed(cs, top) && c in cs && k < |cs| && Below(cs[k].path, c.path)
    ensures cs[k].parent.Some? && ParentOk(cs[k], cs)
  {
    assert PlacedOk(cs[k], cs, top);
    if top == "" {
      assert cs[k].path[|c.path|] == '/';
    } else {
      var i :| 0 <= i < |cs| && cs[i] == c;
      AllBelowTop(cs, top, i);
    }
  }

  /** What is below a collection is at or below one of its children, by the chain of its parents. */
  lemma {:induction false} BelowIsThroughAChild(cs: seq<Coll>, top: string, c: Coll, k: nat) returns (child: Coll)
    requires WellFormed(cs, top) && c in cs && k < |cs| && Below(cs[k].path, c.path)
    ensures child in cs && child.parent == Some(c.path) && IndexScan.Reaches(cs[k].path, child.path)
    decreases |cs[k].path|
  {
    HasParent(cs, top, c, k);
    var parent := cs[k].parent.value;
    OneUp(cs[k].path, parent, c.path);
    if parent == c.path {
      child := cs[k];
    } else {
      var j :| 0 <= j < |cs| && cs[j].path == parent;
      WellFormedGrows(cs, top);
      child := BelowIsThroughAChild(cs, top, c, j);
      NoEmptyPath(cs, top, parent);
      OneDown(cs[k].path, parent, child.path);
    }
  }

  /** And two children share nothing below them. */
  lemma ChildrenShareNothing(cs: seq<Coll>, top: string, path: string, a: Coll, b: Coll, other: string)
    requires WellFormed(cs, top) && a in cs && b in cs
    requires a.parent == Some(path) && b.parent == Some(path)
    requires IndexScan.Reaches(other, a.path) && IndexScan.Reaches(other, b.path)
    ensures a == b
  {
    var i :| 0 <= i < |cs| && cs[i] == a;
    var j :| 0 <= j < |cs| && cs[j] == b;
    assert PlacedOk(cs[i], cs, top) && PlacedOk(cs[j], cs, top);
    var s :| IsSegment(s) && a.path == IndexSpec.Full(path, s);
    var t :| IsSegment(t) && b.path == IndexSpec.Full(path, t);
    IndexScan.ReachesOne(path, s, t, other);
  }

  function PathsOf(cs: seq<Coll>): (paths: seq<string>)
    ensures |paths| == |cs| && forall i :: 0 <= i < |cs| ==> paths[i] == cs[i].path
  {
    seq(|cs|, i requires 0 <= i < |cs| => cs[i].path)
  }

  lemma {:induction false} ChildrenAreUnique(cs: seq<Coll>, path: string)
    requires UniquePaths(cs)
    ensures UniquePaths(ChildrenOf(cs, path))
  {
    if cs != [] {
      var front, c := cs[..|cs| - 1], cs[|cs| - 1];
      ChildrenAreUnique(front, path);
      forall i | 0 <= i < |ChildrenOf(front, path)| ensures ChildrenOf(front, path)[i].path != c.path {
        assert ChildrenOf(front, path)[i] in front;
      }
    }
  }

  // --- The tree holds the sum below its root ---------------------------------------------------------

  /** Some of one collection's children. */
  ghost predicate Siblings(cs: seq<Coll>, path: string, children: seq<Coll>) {
    UniquePaths(children) && forall i :: 0 <= i < |children| ==> children[i] in cs && children[i].parent == Some(path)
  }

  lemma HeadSharesNothing(cs: seq<Coll>, top: string, path: string, children: seq<Coll>)
    requires WellFormed(cs, top) && Siblings(cs, path, children) && children != []
    ensures forall i :: 0 <= i < |cs| ==>
              !(IndexScan.Reaches(cs[i].path, children[0].path) && UnderAny(cs[i].path, PathsOf(children[1..])))
  {
    forall i | 0 <= i < |cs| && IndexScan.Reaches(cs[i].path, children[0].path)
      ensures !UnderAny(cs[i].path, PathsOf(children[1..]))
    {
      forall k | 0 <= k < |children| - 1 ensures !IndexScan.Reaches(cs[i].path, PathsOf(children[1..])[k]) {
        if IndexScan.Reaches(cs[i].path, children[k + 1].path) {
          ChildrenShareNothing(cs, top, path, children[0], children[k + 1], cs[i].path);
        }
      }
    }
  }

  lemma TopOrChildren(cs: seq<Coll>, top: string, c: Coll)
    requires WellFormed(cs, top) && c in cs
    ensures forall i :: 0 <= i < |cs| ==>
              && (cs[i].path == c.path ==> cs[i] == c && !UnderAny(cs[i].path, PathsOf(ChildrenOf(cs, c.path))))
              && (cs[i].path != c.path ==>
                    (IndexScan.Reaches(cs[i].path, c.path) <==> UnderAny(cs[i].path, PathsOf(ChildrenOf(cs, c.path)))))
  {
    forall i | 0 <= i < |cs|
      ensures cs[i].path == c.path ==> cs[i] == c
      ensures UnderAny(cs[i].path, PathsOf(ChildrenOf(cs, c.path))) <==> Below(cs[i].path, c.path)
    {
      var at :| 0 <= at < |cs| && cs[at] == c;
      UnderChildrenIsBelow(cs, top, c, i);
    }
  }

  lemma ChildIsBelow(cs: seq<Coll>, top: string, c: Coll, child: Coll)
    requires WellFormed(cs, top) && c in cs && child in cs && child.parent == Some(c.path)
    ensures Below(child.path, c.path)
  {
    var i :| 0 <= i < |cs| && cs[i] == c;
    var k :| 0 <= k < |cs| && cs[k] == child;
    assert HasPath(cs, c.path) && PlacedOk(cs[k], cs, top);
    NoEmptyPath(cs, top, c.path);
    OneDown(child.path, c.path, c.path);
  }

  lemma UnderChildren(cs: seq<Coll>, top: string, c: Coll, path: string)
    requires WellFormed(cs, top) && c in cs
    requires UnderAny(path, PathsOf(ChildrenOf(cs, c.path)))
    ensures Below(path, c.path)
  {
    var children := ChildrenOf(cs, c.path);
    var k :| 0 <= k < |children| && IndexScan.Reaches(path, PathsOf(children)[k]);
    assert children[k] in children;
    ChildIsBelow(cs, top, c, children[k]);
  }

  lemma UnderChildrenIsBelow(cs: seq<Coll>, top: string, c: Coll, i: nat)
    requires WellFormed(cs, top) && c in cs && i < |cs|
    ensures UnderAny(cs[i].path, PathsOf(ChildrenOf(cs, c.path))) <==> Below(cs[i].path, c.path)
  {
    var children := ChildrenOf(cs, c.path);
    if UnderAny(cs[i].path, PathsOf(children)) {
      UnderChildren(cs, top, c, cs[i].path);
    }
    if Below(cs[i].path, c.path) {
      var child := BelowIsThroughAChild(cs, top, c, i);
      var k :| 0 <= k < |children| && children[k] == child;
      assert IndexScan.Reaches(cs[i].path, PathsOf(children)[k]);
    }
  }

  lemma TopSum(w: Walker, cs: seq<Coll>, top: string, c: Coll)
    requires WellFormed(cs, top) && c in cs
    ensures Sum(w, cs, [c.path]) == multiset(Visible(w, c)) + Sum(w, cs, PathsOf(ChildrenOf(cs, c.path)))
  {
    TopOrChildren(cs, top, c);
    var i :| 0 <= i < |cs| && cs[i] == c;
    assert HasPath(cs, c.path);
    SumOfTop(w, cs, c, PathsOf(ChildrenOf(cs, c.path)));
  }

  lemma FewerSiblings(cs: seq<Coll>, path: string, children: seq<Coll>)
    requires Siblings(cs, path, children) && children != []
    ensures Siblings(cs, path, children[1..])
  {
  }

  lemma PathsOfHead(children: seq<Coll>)
    requires children != []
    ensures PathsOf(children) == [children[0].path] + PathsOf(children[1..])
  {
  }

  lemma SiblingSum(w: Walker, cs: seq<Coll>, top: string, path: string, children: seq<Coll>)
    requires WellFormed(cs, top) && Siblings(cs, path, children) && children != []
    ensures Sum(w, cs, PathsOf(children)) == Sum(w, cs, [children[0].path]) + Sum(w, cs, PathsOf(children[1..]))
  {
    HeadSharesNothing(cs, top, path, children);
    SumApart(w, cs, children[0].path, PathsOf(children[1..]));
    PathsOfHead(children);
  }

  lemma ChildrenAreSiblings(cs: seq<Coll>, path: string)
    requires UniquePaths(cs)
    ensures Siblings(cs, path, ChildrenOf(cs, path))
  {
    ChildrenAreUnique(cs, path);
    forall i | 0 <= i < |ChildrenOf(cs, path)|
      ensures ChildrenOf(cs, path)[i] in cs && ChildrenOf(cs, path)[i].parent == Some(path)
    {
      assert ChildrenOf(cs, path)[i] in ChildrenOf(cs, path);
    }
  }

  /** What is built below a collection holds the entries at or below it. */
  lemma {:induction false} BelowHoldsSum(w: Walker, cs: seq<Coll>, top: string, c: Coll)
    requires WellFormed(cs, top) && Growing(cs) && c in cs
    ensures EntriesIn(BuildBelow(w, cs, c)) == Sum(w, cs, [c.path])
    decreases LongestPath(cs) - |c.path|, 0, |cs| + 1
  {
    ChildrenAreBounded(cs, c.path);
    ChildrenAreSiblings(cs, c.path);
    ChildrenHoldSum(w, cs, top, c.path, ChildrenOf(cs, c.path));
    TopSum(w, cs, top, c);
    InterleaveKeepsEntries(w, BuildAll(w, cs, |c.path|, ChildrenOf(cs, c.path)), Visible(w, c), c.order);
  }

  /** A collection's node holds the entries at or below it; where there are none there is no node. */
  lemma {:induction false} NodeHoldsSum(w: Walker, cs: seq<Coll>, top: string, c: Coll)
    requires WellFormed(cs, top) && Growing(cs) && c in cs
    ensures (if BuildNode(w, cs, c).Some? then EntriesAt(BuildNode(w, cs, c).value) else multiset{}) == Sum(w, cs, [c.path])
    decreases LongestPath(cs) - |c.path|, 1, 0
  {
    BelowHoldsSum(w, cs, top, c);
  }

  lemma {:induction false} ChildrenHoldSum(w: Walker, cs: seq<Coll>, top: string, path: string, children: seq<Coll>)
    requires WellFormed(cs, top) && Growing(cs) && Siblings(cs, path, children) && |path| <= LongestPath(cs)
    requires forall i :: 0 <= i < |children| ==> |children[i].path| > |path|
    ensures EntriesIn(BuildAll(w, cs, |path|, children)) == Sum(w, cs, PathsOf(children))
    decreases LongestPath(cs) - |path|, 0, |children|
  {
    if children == [] {
      SumOfNone(w, cs);
      assert PathsOf(children) == [];
    } else {
      SiblingSum(w, cs, top, path, children);
      FewerSiblings(cs, path, children);
      NodeHoldsSum(w, cs, top, children[0]);
      ChildrenHoldSum(w, cs, top, path, children[1..]);
      NodeThenRest(w, cs, |path|, children);
    }
  }

  lemma NodeThenRest(w: Walker, cs: seq<Coll>, above: nat, children: seq<Coll>)
    requires Growing(cs) && above <= LongestPath(cs) && children != []
    requires forall i :: 0 <= i < |children| ==> children[i] in cs && |children[i].path| > above
    ensures var node := BuildNode(w, cs, children[0]);
            EntriesIn(BuildAll(w, cs, above, children))
            == (if node.Some? then EntriesAt(node.value) else multiset{}) + EntriesIn(BuildAll(w, cs, above, children[1..]))
  {
    var node := BuildNode(w, cs, children[0]);
    if node.Some? {
      assert ([node.value] + BuildAll(w, cs, above, children[1..]))[1..] == BuildAll(w, cs, above, children[1..]);
    } else {
      assert [] + BuildAll(w, cs, above, children[1..]) == BuildAll(w, cs, above, children[1..]);
    }
  }

  // --- The two agree ----------------------------------------------------------------------------------

  /** The tree's entries are the listing's, each as often, whenever the root is a collection. */
  lemma TreeAndListingAgree(w: Walker, flat: seq<FlatItem>, top: string, root: string)
    requires WellFormed(Collections(flat), top) && Growing(Collections(flat))
    requires HasPath(Collections(flat), root)
    ensures EntriesIn(BuildTree(w, flat, root)) == multiset(Listing(w, flat, root))
  {
    var cs := Collections(flat);
    BelowHoldsSum(w, cs, top, FindRoot(cs, root).value);
    GatheredIsSum(w, cs, root);
  }

  predicate IsAbove(root: string, base: string) {
    (root + "/") <= base
  }

  /** A root that is above the content root reaches every collection. */
  lemma {:induction false} SumOfAll(w: Walker, cs: seq<Coll>, base: string, root: string)
    requires IsAbove(root, base) && Under(cs, base)
    ensures Sum(w, cs, [root]) == multiset{} <==> forall c :: c in cs ==> Visible(w, c) == []
  {
    if cs != [] {
      SumOfAll(w, cs[1..], base, root);
      UnderMore(cs[0].path, root, []);
      assert IndexScan.Reaches(cs[0].path, base);
      assert cs == [cs[0]] + cs[1..];
      if Visible(w, cs[0]) != [] {
        assert Visible(w, cs[0])[0] in Sum(w, cs, [root]);
      }
    }
  }

  /** A root that is no collection, and not above the content root, reaches none. */
  lemma {:induction false} ReachesNone(cs: seq<Coll>, top: string, root: string, k: nat)
    requires WellFormed(cs, top) && k < |cs| && !HasPath(cs, root) && !IsAbove(root, top)
    ensures !IndexScan.Reaches(cs[k].path, root)
    decreases |cs[k].path|
  {
    assert PlacedOk(cs[k], cs, top);
    if Below(cs[k].path, root) {
      assert cs[k].path[|root|] == '/';
      var parent := cs[k].parent.value;
      OneUp(cs[k].path, parent, root);
      var j :| 0 <= j < |cs| && cs[j].path == parent;
      WellFormedGrows(cs, top);
      ReachesNone(cs, top, root, j);
    }
  }

  lemma {:induction false} SumOfUnreached(w: Walker, cs: seq<Coll>, root: string)
    requires forall k :: 0 <= k < |cs| ==> !IndexScan.Reaches(cs[k].path, root)
    ensures Sum(w, cs, [root]) == multiset{}
  {
    if cs != [] {
      SumOfUnreached(w, cs[1..], root);
      UnderMore(cs[0].path, root, []);
    }
  }

  /** No collection is above the content root. */
  lemma CollectionIsNotAbove(cs: seq<Coll>, top: string, root: string)
    requires WellFormed(cs, top) && HasPath(cs, root)
    ensures !IsAbove(root, top)
  {
    if top != "" {
      var k :| 0 <= k < |cs| && cs[k].path == root;
      AllBelowTop(cs, top, k);
    }
  }

  lemma ListedWithoutTree(w: Walker, cs: seq<Coll>, base: string, root: string)
    requires WellFormed(cs, base) && !HasPath(cs, root)
    ensures Sum(w, cs, [root]) == multiset{} <==> !IsAbove(root, base) || forall c :: c in cs ==> Visible(w, c) == []
  {
    if IsAbove(root, base) {
      forall k | 0 <= k < |cs| ensures IndexScan.Reaches(cs[k].path, base) {
        AllBelowTop(cs, base, k);
      }
      SumOfAll(w, cs, base, root);
    } else {
      forall k | 0 <= k < |cs| ensures !IndexScan.Reaches(cs[k].path, root) {
        ReachesNone(cs, base, root, k);
      }
      SumOfUnreached(w, cs, root);
    }
  }

  /**
   * Over a schema as flattened, with any content root and any root asked for: they agree exactly when
   * the root asked for is not above the content root, or no collection has an entry to show.
   */
  lemma AgreeIff(w: Walker, schema: Root, base: string, root: string)
    requires ChildrenOk("", schema.children)
    ensures WellFormed(Collections(Flatten(schema, base)), base) && Growing(Collections(Flatten(schema, base)))
    ensures var flat := Flatten(schema, base);
            EntriesIn(BuildTree(w, flat, root)) == multiset(Listing(w, flat, root))
            <==> !IsAbove(root, base) || forall c :: c in Collections(flat) ==> Visible(w, c) == []
  {
    var flat := Flatten(schema, base);
    FlattenIsWellFormed(schema, base);
    WellFormedGrows(Collections(flat), base);
    if HasPath(Collections(flat), root) {
      TreeAndListingAgree(w, flat, base, root);
      CollectionIsNotAbove(Collections(flat), base, root);
    } else {
      GatheredIsSum(w, Collections(flat), root);
      ListedWithoutTree(w, Collections(flat), base, root);
    }
  }

  /** With a two-segment content root, asking for its first segment lists entries and shows no tree. */
  lemma RootAboveTheContentRoot(w: Walker, item: Item)
    requires w.read == ((c: Coll) => [item]) && w.shows == ((path: string) => true) && item.entryType == "post"
    ensures var flat := Flatten(Root(Some([EntryType("post", false)]), [], []), "cms/content");
            && Growing(Collections(flat))
            && BuildTree(w, flat, "cms") == [] && Listing(w, flat, "cms") == [item]
  {
    hide Flatten, WellFormed;
    var schema := Root(Some([EntryType("post", false)]), [], []);
    var flat := Flatten(schema, "cms/content");
    var c := RootColl(schema, "cms/content");
    CollectionsOfFlatten(schema, "cms/content");
    assert Collections(flat) == [c];
    assert IsAbove("cms", "cms/content");
    assert MayShow(w, c, item) by { assert c.entries.value[0].name == "post"; }
    assert Shown(w, c, [item]) == [item] by { assert [item][1..] == []; }
    assert [c][..0] == [];
    assert Gathered(w, [c], "cms") == [item];
    assert [item][1..] == [];
  }

  // --- What is shown, and where -------------------------------------------------------------------------

  /** A collection may show an entry of this type: it declares the type, and nowhere as unavailable. */
  predicate OffersType(c: Coll, entryType: string) {
    && c.entries.Some?
    && (exists e :: e in c.entries.value && e.name == entryType)
    && (forall e :: e in c.entries.value && e.name == entryType ==> !e.unavailable)
  }

  lemma MayShowIff(w: Walker, c: Coll, x: Item)
    ensures MayShow(w, c, x) <==> OffersType(c, x.entryType) && w.shows(x.path)
  {
    if c.entries.Some? {
      forall i | 0 <= i < |c.entries.value| ensures c.entries.value[i] in c.entries.value {
      }
    }
  }

  lemma {:induction false} ShownCounts(w: Walker, c: Coll, items: seq<Item>, x: Item)
    ensures multiset(Shown(w, c, items))[x] == if OffersType(c, x.entryType) && w.shows(x.path) then multiset(items)[x] else 0
  {
    hide MayShow, OffersType;
    if items != [] {
      MayShowIff(w, c, items[0]);
      ShownCounts(w, c, items[1..], x);
      assert items == [items[0]] + items[1..];
    }
  }

  /** A collection shows each of its entries of an available declared type that may be seen, as often as it is there. */
  lemma VisibleCounts(w: Walker, c: Coll, x: Item)
    ensures multiset(Visible(w, c))[x] == if OffersType(c, x.entryType) && w.shows(x.path) then multiset(w.read(c))[x] else 0
  {
    ShownCounts(w, c, w.read(c), x);
  }

  lemma {:induction false} BuiltNodes(w: Walker, cs: seq<Coll>, above: nat, children: seq<Coll>, n: TreeNode)
    requires Growing(cs) && above <= LongestPath(cs)
    requires forall i :: 0 <= i < |children| ==> children[i] in cs && |children[i].path| > above
    ensures n in BuildAll(w, cs, above, children) <==>
              n.CollNode? && n.coll in children && n.coll in cs && n.children != [] && n.children == BuildBelow(w, cs, n.coll)
  {
    hide BuildBelow;
    if children != [] {
      BuiltNodes(w, cs, above, children[1..], n);
      assert children == [children[0]] + children[1..];
    }
  }

  lemma {:induction false} EntryNodesAre(items: seq<Item>, n: TreeNode)
    ensures n in EntryNodes(items) <==> n.EntryNode? && n.item in items
  {
    if items != [] {
      EntryNodesAre(items[1..], n);
      assert items == [items[0]] + items[1..];
    }
  }

  /**
   * Below a collection stand its own visible entries, and a node for each of its child collections that
   * has anything below it, with what stands below that; nothing else.
   */
  lemma NodesBelow(w: Walker, cs: seq<Coll>, c: Coll, n: TreeNode)
    requires Growing(cs) && c in cs
    ensures n in BuildBelow(w, cs, c) <==>
              if n.EntryNode? then n.item in Visible(w, c)
              else n.coll in cs && n.coll.parent == Some(c.path) && n.children != [] && n.children == BuildBelow(w, cs, n.coll)
  {
    hide Visible, BuildAll, Interleave, EntryNodes;
    ChildrenAreBounded(cs, c.path);
    var colls, entries := BuildAll(w, cs, |c.path|, ChildrenOf(cs, c.path)), EntryNodes(Visible(w, c));
    BuiltNodes(w, cs, |c.path|, ChildrenOf(cs, c.path), n);
    EntryNodesAre(Visible(w, c), n);
    var all := Interleave(w, colls, entries, c.order);
    assert n in all <==> n in multiset(all);
    assert n in colls + entries <==> n in multiset(colls + entries);
  }

  /** The last place of an id in an order array. */
  predicate PlacedAt(order: seq<string>, id: Option<string>, k: nat) {
    k < |order| && id == Some(order[k]) && forall m :: k < m < |order| ==> id != Some(order[m])
  }

  predicate Unplaced(order: seq<string>, id: Option<string>) {
    forall k :: 0 <= k < |order| ==> id != Some(order[k])
  }

  /**
   * Of two ids the first is placed no later in an order array, if the second is placed at all; where
   * neither is, it is not after by its key.
   */
  ghost predicate StandsBefore(order: seq<string>, id: Option<string>, key: string, id': Option<string>, key': string,
                               keyLe: (string, string) -> bool)
  {
    && (forall k :: PlacedAt(order, id', k) ==> exists m :: m <= k && PlacedAt(order, id, m))
    && (Unplaced(order, id) && Unplaced(order, id') ==> keyLe(key, key'))
  }

  lemma NotAfterStandsBefore(order: seq<string>, id: Option<string>, key: string, id': Option<string>, key': string,
                             keyLe: (string, string) -> bool)
    requires NotAfter(order, id, key, id', key', keyLe)
    ensures StandsBefore(order, id, key, id', key', keyLe)
  {
    var x, y := PlaceIn(order, id), PlaceIn(order, id');
    forall k | PlacedAt(order, id', k) ensures exists m :: m <= k && PlacedAt(order, id, m) {
      assert y == Some(k);
      assert PlacedAt(order, id, x.value);
    }
  }

  /** Of two nodes, by their content ids, and the slug of an entry or the name of a collection. */
  ghost predicate InOrder(w: Walker, order: seq<string>, a: TreeNode, b: TreeNode) {
    StandsBefore(order,
                 if a.EntryNode? then a.item.contentId else a.coll.contentId, if a.EntryNode? then a.item.slug else a.coll.name,
                 if b.EntryNode? then b.item.contentId else b.coll.contentId, if b.EntryNode? then b.item.slug else b.coll.name,
                 w.keyLe)
  }

  /** Children stand as the order array says. */
  lemma ChildrenStandInOrder(w: Walker, colls: seq<TreeNode>, entries: seq<TreeNode>, order: seq<string>, i: nat, j: nat)
    requires Total(w.keyLe) && Transitive(w.keyLe) && i < j < |Interleave(w, colls, entries, order)|
    ensures InOrder(w, order, Interleave(w, colls, entries, order)[i], Interleave(w, colls, entries, order)[j])
  {
    hide Interleave, NotAfter, StandsBefore;
    var a, b := Interleave(w, colls, entries, order)[i], Interleave(w, colls, entries, order)[j];
    InterleaveIsInOrder(w, colls, entries, order, i, j);
    NotAfterStandsBefore(order, NodeId(a), NodeKey(a), NodeId(b), NodeKey(b), w.keyLe);
  }

  lemma PathsOrder<T(!new)>(keyLe: (string, string) -> bool)
    requires Total(keyLe) && Transitive(keyLe)
    ensures var le := (a: Listed<T>, b: Listed<T>) => keyLe(a.item.path, b.item.path); Total(le) && Transitive(le)
  {
    var le := (a: Listed<T>, b: Listed<T>) => keyLe(a.item.path, b.item.path);
    forall a: Listed<T>, b: Listed<T> ensures le(a, b) || le(b, a) {
      assert keyLe(a.item.path, b.item.path) || keyLe(b.item.path, a.item.path);
    }
    forall a: Listed<T>, b: Listed<T>, c: Listed<T> | le(a, b) && le(b, c) ensures le(a, c) {
      assert keyLe(a.item.path, b.item.path) && keyLe(b.item.path, c.item.path);
    }
  }

  /** A listing stands in the order of its paths, or of the custom sort. */
  lemma ListingIsInOrder<T(!new)>(w: Walker, flat: seq<FlatItem>, root: string, o: ListOptions<T>, i: nat, j: nat)
    requires i < j < |ListingWith(w, flat, root, o)|
    ensures var l := ListingWith(w, flat, root, o);
            && (o.sort.None? && Total(w.keyLe) && Transitive(w.keyLe) ==> w.keyLe(l[i].item.path, l[j].item.path))
            && (o.sort.Some? && Total(o.sort.value) && Transitive(o.sort.value) ==> o.sort.value(l[i], l[j]))
  {
    hide Gathered, Passed, Sort;
    var le := OrderOf(w, o);
    if o.sort.None? && Total(w.keyLe) && Transitive(w.keyLe) {
      PathsOrder<T>(w.keyLe);
    }
    if Total(le) && Transitive(le) {
      SortSorts(Passed(o, Gathered(w, Collections(flat), root)), le);
    }
  }

  lemma BelowIs(w: Walker, cs: seq<Coll>, c: Coll) returns (colls: seq<TreeNode>, entries: seq<TreeNode>)
    requires Growing(cs) && c in cs
    ensures BuildBelow(w, cs, c) == Interleave(w, colls, entries, c.order)
  {
    hide Interleave, EntryNodes, Visible, BuildAll, Growing;
    ChildrenAreBounded(cs, c.path);
    colls, entries := BuildAll(w, cs, |c.path|, ChildrenOf(cs, c.path)), EntryNodes(Visible(w, c));
  }

  lemma BelowStandsInOrder(w: Walker, cs: seq<Coll>, c: Coll, i: nat, j: nat)
    requires Total(w.keyLe) && Transitive(w.keyLe) && Growing(cs) && c in cs && i < j < |BuildBelow(w, cs, c)|
    ensures InOrder(w, c.order, BuildBelow(w, cs, c)[i], BuildBelow(w, cs, c)[j])
  {
    hide Interleave, BuildBelow, Growing, Total, Transitive, InOrder;
    var colls, entries := BelowIs(w, cs, c);
    ChildrenStandInOrder(w, colls, entries, c.order, i, j);
  }

  lemma TreeIsBelow(w: Walker, flat: seq<FlatItem>, base: string, c: Coll)
    requires WellFormed(Collections(flat), base) && Growing(Collections(flat)) && c in Collections(flat)
    ensures BuildTree(w, flat, c.path) == BuildBelow(w, Collections(flat), c)
  {
    hide BuildBelow, Growing;
    var cs := Collections(flat);
    var k :| 0 <= k < |cs| && cs[k] == c;
    assert HasPath(cs, c.path);
  }

  /** The tree asked for at a collection is what is below it, in its own order. */
  lemma TreeStandsInOrder(w: Walker, flat: seq<FlatItem>, base: string, c: Coll)
    requires Total(w.keyLe) && Transitive(w.keyLe)
    requires WellFormed(Collections(flat), base) && Growing(Collections(flat)) && c in Collections(flat)
    ensures var tree := BuildTree(w, flat, c.path);
            && (forall n :: n in tree <==> n in BuildBelow(w, Collections(flat), c))
            && forall i, j :: 0 <= i < j < |tree| ==> InOrder(w, c.order, tree[i], tree[j])
  {
    hide BuildTree, BuildBelow, InOrder, WellFormed, Total, Transitive;
    TreeIsBelow(w, flat, base, c);
    forall i, j | 0 <= i < j < |BuildTree(w, flat, c.path)|
      ensures InOrder(w, c.order, BuildTree(w, flat, c.path)[i], BuildTree(w, flat, c.path)[j])
    {
      BelowStandsInOrder(w, Collections(flat), c, i, j);
    }
  }
}
