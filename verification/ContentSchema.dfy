/** The nested collection schema and its flat form. */
module ContentSchema {
  import opened Options
  import opened IndexSpec
  import IndexScan

  datatype EntryType = EntryType(name: string, unavailable: bool)

  // A collection of the nested schema; `path` is relative to the content root.
  datatype Config = Config(path: string, name: string, contentId: Option<string>, entries: Option<seq<EntryType>>,
                           children: seq<Config>, order: seq<string>)

  datatype Root = Root(entries: Option<seq<EntryType>>, children: seq<Config>, order: seq<string>)

  datatype Coll = Coll(path: string, name: string, contentId: Option<string>, parent: Option<string>,
                       entries: Option<seq<EntryType>>, order: seq<string>)

  datatype FlatItem = CollItem(coll: Coll) | TypeItem(path: string, name: string, parent: Option<string>)

  const ROOT_COLLECTION_ID := "__rootcoll__"

  // --- Flattening -----------------------------------------------------------------------------------

  function TypeItems(path: string, entries: seq<EntryType>): seq<FlatItem> {
    if entries == [] then []
    else [TypeItem(Full(path, entries[0].name), entries[0].name, Some(path))] + TypeItems(path, entries[1..])
  }

  function TypesOf(path: string, entries: Option<seq<EntryType>>): seq<FlatItem> {
    if entries.None? then [] else TypeItems(path, entries.value)
  }

  function CollOf(base: string, parent: string, c: Config): Coll {
    Coll(Full(base, c.path), c.name, c.contentId, if parent == "" then None else Some(parent), c.entries, c.order)
  }

  /** `walkCollection`: the collection, its entry types, then each child in turn. */
  function Walk(base: string, parent: string, c: Config): seq<FlatItem>
    decreases c
  {
    [CollItem(CollOf(base, parent, c))] + TypesOf(Full(base, c.path), c.entries) + WalkAll(base, Full(base, c.path), c.children)
  }

  function WalkAll(base: string, parent: string, cs: seq<Config>): seq<FlatItem>
    decreases cs
  {
    if cs == [] then [] else Walk(base, parent, cs[0]) + WalkAll(base, parent, cs[1..])
  }

  function RootColl(root: Root, base: string): Coll {
    Coll(base, base, Some(ROOT_COLLECTION_ID), None, root.entries, root.order)
  }

  /** `flattenSchema`, for paths already normalized. */
  function Flatten(root: Root, base: string): seq<FlatItem> {
    (if base == "" then [] else [CollItem(RootColl(root, base))]) + TypesOf(base, root.entries) + WalkAll(base, base, root.children)
  }

  /** The collections of a flat schema. */
  function Collections(flat: seq<FlatItem>): seq<Coll> {
    if flat == [] then [] else (if flat[0].CollItem? then [flat[0].coll] else []) + Collections(flat[1..])
  }

  lemma {:induction false} CollectionsOn(a: seq<FlatItem>, b: seq<FlatItem>)
    ensures Collections(a + b) == Collections(a) + Collections(b)
  {
    if a == [] {
      assert a + b == b;
    } else {
      assert (a + b)[0] == a[0] && (a + b)[1..] == a[1..] + b;
      CollectionsOn(a[1..], b);
      assert Collections(a) + Collections(b)
             == (if a[0].CollItem? then [a[0].coll] else []) + (Collections(a[1..]) + Collections(b));
    }
  }

  lemma {:induction false} NoCollectionsInTypes(path: string, entries: seq<EntryType>)
    ensures Collections(TypeItems(path, entries)) == []
  {
    if entries != [] {
      NoCollectionsInTypes(path, entries[1..]);
      CollectionsOn([TypeItem(Full(path, entries[0].name), entries[0].name, Some(path))], TypeItems(path, entries[1..]));
    }
  }

  lemma CollectionsOfWalk(base: string, parent: string, c: Config)
    ensures Collections(Walk(base, parent, c))
            == [CollOf(base, parent, c)] + Collections(WalkAll(base, Full(base, c.path), c.children))
  {
    var head, types := [CollItem(CollOf(base, parent, c))], TypesOf(Full(base, c.path), c.entries);
    CollectionsOn(head + types, WalkAll(base, Full(base, c.path), c.children));
    CollectionsOn(head, types);
    if c.entries.Some? {
      NoCollectionsInTypes(Full(base, c.path), c.entries.value);
    }
  }

  /** The root collection, if the content root has a name; it has none of its own otherwise. */
  function Top(root: Root, base: string): seq<Coll> {
    if base == "" then [] else [RootColl(root, base)]
  }

  lemma CollectionsOfFlatten(root: Root, base: string)
    ensures Collections(Flatten(root, base)) == Top(root, base) + Collections(WalkAll(base, base, root.children))
  {
    var head, types := if base == "" then [] else [CollItem(RootColl(root, base))], TypesOf(base, root.entries);
    CollectionsOn(head + types, WalkAll(base, base, root.children));
    CollectionsOn(head, types);
    if root.entries.Some? {
      NoCollectionsInTypes(base, root.entries.value);
    }
  }

  // --- Well-formed schemas ----------------------------------------------------------------------------

  predicate IsSegment(s: string) {
    s != "" && '/' !in s
  }

  /** `path` is one segment below `dir`. */
  ghost predicate JustBelow(path: string, dir: string) {
    exists s :: IsSegment(s) && path == Full(dir, s)
  }

  /** Children sit one segment below their parent, no two at the same place. */
  ghost predicate ChildrenOk(dir: string, cs: seq<Config>)
    decreases cs
  {
    && (forall i :: 0 <= i < |cs| ==> JustBelow(cs[i].path, dir) && ConfigOk(cs[i]))
    && (forall i, j :: 0 <= i < j < |cs| ==> cs[i].path != cs[j].path)
  }

  ghost predicate ConfigOk(c: Config)
    decreases c
  {
    ChildrenOk(c.path, c.children)
  }

  predicate UniquePaths(cs: seq<Coll>) {
    forall i, j :: 0 <= i < j < |cs| ==> cs[i].path != cs[j].path
  }

  predicate HasPath(cs: seq<Coll>, path: string) {
    exists i :: 0 <= i < |cs| && cs[i].path == path
  }

  /** A collection's parent is a collection one segment above it. */
  ghost predicate ParentOk(c: Coll, within: seq<Coll>) {
    c.parent.Some? && JustBelow(c.path, c.parent.value) && HasPath(within, c.parent.value)
  }

  /**
   * Where a collection may stand: below one above it, or without a parent, at the top. Where the top
   * is the empty path, which is no collection, one segment below it.
   */
  ghost predicate PlacedOk(c: Coll, within: seq<Coll>, top: string) {
    if c.parent.None? then (if top == "" then IsSegment(c.path) else c.path == top)
    else c.path != top && ParentOk(c, within)
  }

  ghost predicate AllPlaced(cs: seq<Coll>, within: seq<Coll>, top: string) {
    forall i :: 0 <= i < |cs| ==> PlacedOk(cs[i], within, top)
  }

  ghost predicate WellFormed(cs: seq<Coll>, top: string) {
    UniquePaths(cs) && AllPlaced(cs, cs, top)
  }

  // --- Flattening a well-formed schema gives a well-formed flat one -----------------------------------

  /** Every collection is at a path or below it. */
  predicate Under(cs: seq<Coll>, path: string) {
    forall i :: 0 <= i < |cs| ==> IndexScan.Reaches(cs[i].path, path)
  }

  lemma UniqueOn(a: seq<Coll>, b: seq<Coll>)
    requires UniquePaths(a) && UniquePaths(b)
    requires forall i, j :: 0 <= i < |a| && 0 <= j < |b| ==> a[i].path != b[j].path
    ensures UniquePaths(a + b)
  {
  }

  lemma HasPathOn(a: seq<Coll>, b: seq<Coll>, path: string)
    ensures HasPath(a + b, path) <==> HasPath(a, path) || HasPath(b, path)
  {
    if HasPath(a + b, path) {
      var i :| 0 <= i < |a + b| && (a + b)[i].path == path;
      if i < |a| {
        assert a[i].path == path;
      } else {
        assert b[i - |a|].path == path;
      }
    }
    if HasPath(a, path) {
      var i :| 0 <= i < |a| && a[i].path == path;
      assert (a + b)[i].path == path;
    }
    if HasPath(b, path) {
      var i :| 0 <= i < |b| && b[i].path == path;
      assert (a + b)[|a| + i].path == path;
    }
  }

  /** A collection well placed among some is well placed among more. */
  lemma PlacedOn(cs: seq<Coll>, a: seq<Coll>, b: seq<Coll>, top: string)
    requires AllPlaced(cs, a, top) || AllPlaced(cs, b, top)
    ensures AllPlaced(cs, a + b, top)
  {
    forall i | 0 <= i < |cs| ensures PlacedOk(cs[i], a + b, top) {
      if cs[i].parent.Some? {
        HasPathOn(a, b, cs[i].parent.value);
      }
    }
  }

  /** The full path of what the schema has at `dir`, the root included. */
  function Above(base: string, dir: string): string {
    if dir == "" then base else Full(base, dir)
  }

  lemma PathBelow(base: string, dir: string, path: string)
    requires JustBelow(path, dir)
    ensures JustBelow(Full(base, path), Above(base, dir)) && Full(base, path) != base
    ensures Above(base, dir) == "" ==> IsSegment(Full(base, path))
  {
    var s :| IsSegment(s) && path == Full(dir, s);
    assert Full(base, path) == Full(Above(base, dir), s);
  }

  lemma WithTop(me: Coll, below: seq<Coll>)
    requires UniquePaths(below) && forall i :: 0 <= i < |below| ==> Below(below[i].path, me.path)
    ensures UniquePaths([me] + below) && Under([me] + below, me.path)
  {
    var cs := [me] + below;
    forall i, j | 0 <= i < j < |cs| ensures cs[i].path != cs[j].path {
      assert cs[j] == below[j - 1];
    }
  }

  lemma TopPlaced(me: Coll, below: seq<Coll>, up: seq<Coll>, top: string)
    requires PlacedOk(me, up, top) && AllPlaced(below, [me] + below, top)
    ensures AllPlaced([me] + below, up + ([me] + below), top)
  {
    var cs := [me] + below;
    PlacedOn([me], up, cs, top);
    PlacedOn(below, up, cs, top);
    forall i | 0 <= i < |cs| ensures PlacedOk(cs[i], up + cs, top) {
      if i == 0 {
        assert cs[0] == [me][0];
      } else {
        assert cs[i] == below[i - 1];
      }
    }
  }

  /** What is known of the collections of a walk, below a parent that is itself in `up`, if there is one. */
  ghost predicate WalkedOk(cs: seq<Coll>, up: seq<Coll>, path: string, top: string) {
    UniquePaths(cs) && Under(cs, path) && AllPlaced(cs, up + cs, top)
  }

  ghost predicate HasAbove(up: seq<Coll>, parent: string) {
    parent != "" ==> HasPath(up, parent)
  }

  /** The collections of one walked child. */
  lemma {:induction false} WalkOk(base: string, dir: string, up: seq<Coll>, c: Config)
    requires JustBelow(c.path, dir) && ConfigOk(c) && HasAbove(up, Above(base, dir))
    ensures WalkedOk(Collections(Walk(base, Above(base, dir), c)), up, Full(base, c.path), base)
    decreases c, 1
  {
    var parent := Above(base, dir);
    var me, below := CollOf(base, parent, c), Collections(WalkAll(base, Full(base, c.path), c.children));
    CollectionsOfWalk(base, parent, c);
    PathBelow(base, dir, c.path);
    assert HasPath([me], me.path) by { assert [me][0].path == me.path; }
    assert c.path != "" && Above(base, c.path) == me.path;
    WalkAllOk(base, c.path, [me], c.children);
    WithTop(me, below);
    MePlaced(base, dir, up, c);
    TopPlaced(me, below, up, base);
  }

  lemma MePlaced(base: string, dir: string, up: seq<Coll>, c: Config)
    requires JustBelow(c.path, dir) && HasAbove(up, Above(base, dir))
    ensures PlacedOk(CollOf(base, Above(base, dir), c), up, base)
  {
    PathBelow(base, dir, c.path);
  }

  predicate Below(path: string, dir: string) {
    (dir + "/") <= path
  }

  predicate Through(path: string, base: string, children: seq<Config>) {
    exists k :: 0 <= k < |children| && IndexScan.Reaches(path, Full(base, children[k].path))
  }

  predicate BelowAny(path: string, dir: string) {
    dir != "" ==> Below(path, dir)
  }

  /** Two children reach no common path. */
  lemma ChildrenApart(base: string, dir: string, a: string, b: string, path: string)
    requires JustBelow(a, dir) && JustBelow(b, dir)
    requires IndexScan.Reaches(path, Full(base, a))
    ensures BelowAny(path, Above(base, dir))
    ensures IndexScan.Reaches(path, Full(base, b)) ==> a == b
  {
    var parent := Above(base, dir);
    var s :| IsSegment(s) && a == Full(dir, s);
    var t :| IsSegment(t) && b == Full(dir, t);
    assert Full(base, a) == Full(parent, s) && Full(base, b) == Full(parent, t);
    if IndexScan.Reaches(path, Full(base, b)) {
      IndexScan.ReachesOne(parent, s, t, path);
    }
  }

  lemma TailOk(dir: string, children: seq<Config>)
    requires ChildrenOk(dir, children) && children != []
    ensures ChildrenOk(dir, children[1..]) && JustBelow(children[0].path, dir) && ConfigOk(children[0])
    ensures forall k :: 0 <= k < |children| - 1 ==> JustBelow(children[1..][k].path, dir) && children[1..][k].path != children[0].path
  {
  }

  lemma HeadApart(base: string, dir: string, children: seq<Config>, head: seq<Coll>, tail: seq<Coll>)
    requires ChildrenOk(dir, children) && children != []
    requires Under(head, Full(base, children[0].path))
    requires forall i :: 0 <= i < |tail| ==> Through(tail[i].path, base, children[1..])
    ensures forall i, j :: 0 <= i < |head| && 0 <= j < |tail| ==> head[i].path != tail[j].path
  {
    TailOk(dir, children);
    forall i, j | 0 <= i < |head| && 0 <= j < |tail| ensures head[i].path != tail[j].path {
      var k :| 0 <= k < |children[1..]| && IndexScan.Reaches(tail[j].path, Full(base, children[1..][k].path));
      ChildrenApart(base, dir, children[1..][k].path, children[0].path, tail[j].path);
    }
  }

  lemma AllThrough(base: string, dir: string, children: seq<Config>, head: seq<Coll>, tail: seq<Coll>)
    requires ChildrenOk(dir, children) && children != []
    requires Under(head, Full(base, children[0].path))
    requires forall i :: 0 <= i < |tail| ==> Through(tail[i].path, base, children[1..])
    ensures forall i :: 0 <= i < |head + tail| ==>
              Through((head + tail)[i].path, base, children) && BelowAny((head + tail)[i].path, Above(base, dir))
  {
    var cs := head + tail;
    forall i | 0 <= i < |cs| ensures Through(cs[i].path, base, children) && BelowAny(cs[i].path, Above(base, dir)) {
      if i < |head| {
        assert IndexScan.Reaches(cs[i].path, Full(base, children[0].path));
        ChildrenApart(base, dir, children[0].path, children[0].path, cs[i].path);
      } else {
        assert Through(tail[i - |head|].path, base, children[1..]);
        var k :| 0 <= k < |children[1..]| && IndexScan.Reaches(cs[i].path, Full(base, children[1..][k].path));
        assert children[k + 1] == children[1..][k];
        ChildrenApart(base, dir, children[k + 1].path, children[k + 1].path, cs[i].path);
      }
    }
  }

  /** The collections of all children of one collection, or of the root. */
  lemma {:induction false} WalkAllOk(base: string, dir: string, up: seq<Coll>, children: seq<Config>)
    requires ChildrenOk(dir, children) && HasAbove(up, Above(base, dir))
    ensures var parent := Above(base, dir);
            var cs := Collections(WalkAll(base, parent, children));
            && UniquePaths(cs) && AllPlaced(cs, up + cs, base)
            && (forall i :: 0 <= i < |cs| ==> Through(cs[i].path, base, children) && BelowAny(cs[i].path, parent))
    decreases children, 0
  {
    if children != [] {
      var parent := Above(base, dir);
      var head := Collections(Walk(base, parent, children[0]));
      var tail := Collections(WalkAll(base, parent, children[1..]));
      CollectionsOn(Walk(base, parent, children[0]), WalkAll(base, parent, children[1..]));
      TailOk(dir, children);
      WalkOk(base, dir, up, children[0]);
      WalkAllOk(base, dir, up, children[1..]);
      HeadApart(base, dir, children, head, tail);
      AllThrough(base, dir, children, head, tail);
      UniqueOn(head, tail);
      BothPlaced(up, head, tail, base);
    }
  }

  lemma BothPlaced(up: seq<Coll>, head: seq<Coll>, tail: seq<Coll>, top: string)
    requires AllPlaced(head, up + head, top) && AllPlaced(tail, up + tail, top)
    ensures AllPlaced(head + tail, up + (head + tail), top)
  {
    assert up + (head + tail) == (up + head) + tail;
    PlacedOn(head, up + head, tail, top);
    TailPlaced(up, head, tail, top);
  }

  lemma TailPlaced(up: seq<Coll>, head: seq<Coll>, tail: seq<Coll>, top: string)
    requires AllPlaced(tail, up + tail, top)
    ensures AllPlaced(tail, up + (head + tail), top)
  {
    forall i | 0 <= i < |tail| ensures PlacedOk(tail[i], up + (head + tail), top) {
      assert PlacedOk(tail[i], up + tail, top);
      if tail[i].parent.Some? {
        var parent := tail[i].parent.value;
        HasPathOn(up, tail, parent);
        HasPathOn(head, tail, parent);
        HasPathOn(up, head + tail, parent);
      }
    }
  }

  /** A flattened schema is well-formed: one collection a path, each below its parent, the root above all. */
  lemma FlattenIsWellFormed(root: Root, base: string)
    requires ChildrenOk("", root.children)
    ensures WellFormed(Collections(Flatten(root, base)), base)
  {
    var top, below := Top(root, base), Collections(WalkAll(base, base, root.children));
    CollectionsOfFlatten(root, base);
    if base == "" {
      WalkAllOk(base, "", [], root.children);
      assert [] + below == below;
    } else {
      assert HasPath(top, base) by { assert top[0].path == base; }
      WalkAllOk(base, "", top, root.children);
      UniqueOn(top, below);
    }
  }

  // --- What a flattened schema holds ----------------------------------------------------------------------

  /** `c` is in the nested schema, below the collection at `up`, or at the top where that is empty. */
  ghost predicate InSchema(children: seq<Config>, dir: string, c: Config, up: string)
    decreases children
  {
    exists i :: 0 <= i < |children| && ((children[i] == c && up == dir) || InSchema(children[i].children, children[i].path, c, up))
  }

  /** A collection of the schema as it is flattened: its full path, its parent's, and everything else as it was. */
  predicate FlattenedAs(x: Coll, base: string, c: Config, up: string) {
    && x.path == Full(base, c.path) && x.name == c.name && x.contentId == c.contentId
    && x.entries == c.entries && x.order == c.order
    && x.parent == (if up != "" then Some(Full(base, up)) else if base != "" then Some(base) else None)
  }

  lemma CollFlattened(base: string, dir: string, c: Config, x: Coll)
    ensures x == CollOf(base, Above(base, dir), c) <==> FlattenedAs(x, base, c, dir)
  {
    assert dir != "" ==> Full(base, dir) != "";
  }

  ghost predicate FlattenedFrom(children: seq<Config>, base: string, dir: string, x: Coll) {
    exists c, up :: InSchema(children, dir, c, up) && FlattenedAs(x, base, c, up)
  }

  lemma {:induction false} WalkAllHolds(base: string, dir: string, children: seq<Config>, x: Coll)
    requires ChildrenOk(dir, children)
    ensures x in Collections(WalkAll(base, Above(base, dir), children)) <==>
              exists i :: 0 <= i < |children| && x in Collections(Walk(base, Above(base, dir), children[i]))
    decreases |children|
  {
    hide Walk;
    if children != [] {
      TailOk(dir, children);
      CollectionsOn(Walk(base, Above(base, dir), children[0]), WalkAll(base, Above(base, dir), children[1..]));
      WalkAllHolds(base, dir, children[1..], x);
      if x in Collections(WalkAll(base, Above(base, dir), children[1..])) {
        var i :| 0 <= i < |children[1..]| && x in Collections(Walk(base, Above(base, dir), children[1..][i]));
        assert children[i + 1] == children[1..][i];
      }
      forall i | 0 <= i < |children| && x in Collections(Walk(base, Above(base, dir), children[i]))
        ensures x in Collections(WalkAll(base, Above(base, dir), children))
      {
        if i > 0 {
          assert children[1..][i - 1] == children[i];
        }
      }
    }
  }

  lemma ChildOk(dir: string, children: seq<Config>, i: nat)
    requires ChildrenOk(dir, children) && i < |children|
    ensures ChildrenOk(children[i].path, children[i].children) && children[i].path != ""
  {
    assert JustBelow(children[i].path, dir) && ConfigOk(children[i]);
  }

  lemma {:induction false} WalkHolds(base: string, dir: string, c: Config, x: Coll)
    requires ChildrenOk(c.path, c.children) && c.path != ""
    ensures x in Collections(Walk(base, Above(base, dir), c)) <==>
              FlattenedAs(x, base, c, dir) || FlattenedFrom(c.children, base, c.path, x)
    decreases c, 1
  {
    CollectionsOfWalk(base, Above(base, dir), c);
    CollFlattened(base, dir, c, x);
    ChildrenHold(base, c.path, c.children, x);
  }

  lemma {:induction false} ChildrenHold(base: string, dir: string, children: seq<Config>, x: Coll)
    requires ChildrenOk(dir, children)
    ensures x in Collections(WalkAll(base, Above(base, dir), children)) <==> FlattenedFrom(children, base, dir, x)
    decreases children, 0
  {
    hide Walk, WalkAll, FlattenedAs, ChildrenOk;
    WalkAllHolds(base, dir, children, x);
    forall i: nat | i < |children|
      ensures x in Collections(Walk(base, Above(base, dir), children[i])) <==>
                FlattenedAs(x, base, children[i], dir) || FlattenedFrom(children[i].children, base, children[i].path, x)
    {
      ChildOk(dir, children, i);
      WalkHolds(base, dir, children[i], x);
    }
    FromChildren(children, base, dir, x);
  }

  lemma FromChildren(children: seq<Config>, base: string, dir: string, x: Coll)
    ensures FlattenedFrom(children, base, dir, x) <==>
              exists i :: 0 <= i < |children|
                          && (FlattenedAs(x, base, children[i], dir) || FlattenedFrom(children[i].children, base, children[i].path, x))
  {
    hide FlattenedAs;
    if FlattenedFrom(children, base, dir, x) {
      var c, up :| InSchema(children, dir, c, up) && FlattenedAs(x, base, c, up);
      var i :| 0 <= i < |children| && ((children[i] == c && up == dir) || InSchema(children[i].children, children[i].path, c, up));
      assert FlattenedAs(x, base, children[i], dir) || FlattenedFrom(children[i].children, base, children[i].path, x);
    }
    forall i | 0 <= i < |children| && (FlattenedAs(x, base, children[i], dir)
                                       || FlattenedFrom(children[i].children, base, children[i].path, x))
      ensures FlattenedFrom(children, base, dir, x)
    {
      if FlattenedAs(x, base, children[i], dir) {
        assert InSchema(children, dir, children[i], dir);
      } else {
        var c, up :| InSchema(children[i].children, children[i].path, c, up) && FlattenedAs(x, base, c, up);
        assert InSchema(children, dir, c, up);
      }
    }
  }

  /** A flattened schema holds each collection of the nested one, the root where the content root has a name, and no other. */
  lemma FlattenHolds(root: Root, base: string, x: Coll)
    requires ChildrenOk("", root.children)
    ensures x in Collections(Flatten(root, base)) <==>
              || (base != "" && x == Coll(base, base, Some("__rootcoll__"), None, root.entries, root.order))
              || FlattenedFrom(root.children, base, "", x)
  {
    hide WalkAll, FlattenedFrom;
    CollectionsOfFlatten(root, base);
    ChildrenHold(base, "", root.children, x);
    var rest := Collections(WalkAll(base, base, root.children));
    assert x in Top(root, base) + rest <==> x in Top(root, base) || x in rest;
  }
}
