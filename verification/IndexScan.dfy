/** What scanning a tree of files into an index gives, whatever order the listings come in. */
module IndexScan {
  import opened Options
  import opened Filenames
  import opened IndexSpec

  predicate Skipped(name: string) {
    DotPrefixed(name) || name == "_ids_"
  }

  /** What a scan makes of one listed name, if it embeds an id. */
  function ItemOf(dir: string, name: string, node: Node): seq<Location> {
    var id := ExtractId(name);
    var path := Full(dir, name);
    if id.None? then []
    else if node.DirNode? then [Location(id.value, CollectionKind, path, None, None)]
    else [Location(id.value, EntryKind, path, Some(ToLogical(DirName(path))), Some(ExtractSlug(name, None)))]
  }

  /** The locations of a tree in the order its listings give them. */
  function Items(dir: string, children: seq<(string, Node)>): seq<Location>
    decreases children
  {
    if children == [] then [] else ItemsOfChild(dir, children[0]) + Items(dir, children[1..])
  }

  function ItemsOfChild(dir: string, child: (string, Node)): seq<Location>
    decreases child
  {
    if Skipped(child.0) then []
    else ItemOf(dir, child.0, child.1) + if child.1.DirNode? then Items(Full(dir, child.0), child.1.children) else []
  }

  // --- The result of a scan -------------------------------------------------------------------------

  predicate DistinctPaths(items: seq<Location>) {
    forall i, j :: 0 <= i < j < |items| ==> items[i].path != items[j].path
  }

  function PathsOf(items: seq<Location>, id: string): set<string> {
    set i | 0 <= i < |items| && items[i].id == id :: items[i].path
  }

  predicate Least(paths: set<string>, p: string) {
    p in paths && forall q :: q in paths && q != p ==> Less(p, q)
  }

  /** The smallest path of each id is kept, the others quarantined, and nothing else is there. */
  ghost predicate Keeps(items: seq<Location>, ix: Index, id: string) {
    var paths := PathsOf(items, id);
    if paths == {} then id !in ix.locations && id !in ix.dropped
    else
      && id in ix.locations && ix.locations[id] in items && ix.locations[id].id == id
      && Least(paths, ix.locations[id].path)
      && Dropped(ix, id) == paths - {ix.locations[id].path}
      && (id in ix.dropped ==> ix.dropped[id] != {})
  }

  ghost predicate Indexed(items: seq<Location>, ix: Index) {
    && Consistent(ix)
    && (forall id :: Keeps(items, ix, id))
  }

  lemma PathsGrow(items: seq<Location>, l: Location, id: string)
    ensures PathsOf(items + [l], id) == PathsOf(items, id) + if l.id == id then {l.path} else {}
  {
    var more := items + [l];
    forall p | p in PathsOf(items, id) ensures p in PathsOf(more, id) {
      var i :| 0 <= i < |items| && items[i].id == id && items[i].path == p;
      assert more[i].id == id && more[i].path == p;
    }
    if l.id == id {
      assert more[|items|] == l;
    }
    forall p | p in PathsOf(more, id) ensures p in PathsOf(items, id) || (l.id == id && p == l.path) {
      var i :| 0 <= i < |more| && more[i].id == id && more[i].path == p;
      if i < |items| {
        assert items[i].path == p;
      }
    }
  }

  lemma LeastWith(paths: set<string>, least: string, p: string)
    requires Least(paths, least) && p !in paths
    ensures Least(paths + {p}, if Less(p, least) then p else least)
  {
    LessIsTotal(p, least);
    if Less(p, least) {
      forall q | q in paths && q != least ensures Less(p, q) {
        LessChains(p, least, q);
      }
    }
  }

  /** Two indexes hold the same of one id. */
  predicate SameOf(x: Index, y: Index, id: string) {
    && (id in x.locations <==> id in y.locations) && (id in x.locations ==> x.locations[id] == y.locations[id])
    && (id in x.dropped <==> id in y.dropped) && Dropped(x, id) == Dropped(y, id)
  }

  lemma ScanOneLeaves(ix: Index, l: Location, id: string)
    requires id != l.id && (l.id in ix.locations ==> ix.locations[l.id].id == l.id)
    ensures SameOf(ScanOne(ix, l), ix, id)
  {
  }

  /** Indexing a location of id `l.id` says nothing about the other ids. */
  lemma OthersKept(items: seq<Location>, ix: Index, out: Index, l: Location, id: string)
    requires Keeps(items, ix, id) && id != l.id && SameOf(out, ix, id)
    ensures Keeps(items + [l], out, id)
  {
    PathsGrow(items, l, id);
  }

  lemma ScanOneConsistent(ix: Index, l: Location)
    requires Consistent(ix) && l.path !in ix.ids
    ensures Consistent(ScanOne(ix, l))
  {
    if l.id !in ix.locations {
      InsertKeeps(ix, l);
    } else if Less(l.path, ix.locations[l.id].path) {
      var existing := ix.locations[l.id];
      EvictKeeps(ix, l.id);
      InsertKeeps(Record(Evict(ix, existing), l.id, existing.path), l);
    }
  }

  lemma ScanOneKeeps(items: seq<Location>, ix: Index, l: Location)
    requires Indexed(items, ix) && forall i :: 0 <= i < |items| ==> items[i].path != l.path
    ensures Keeps(items + [l], ScanOne(ix, l), l.id)
  {
    assert Keeps(items, ix, l.id);
    PathsGrow(items, l, l.id);
    var paths := PathsOf(items, l.id);
    assert l.path !in paths;
    if paths != {} {
      var existing := ix.locations[l.id];
      LeastWith(paths, existing.path, l.path);
      LessIsTotal(l.path, existing.path);
      if Less(l.path, existing.path) {
        LessIsStrict(l.path, existing.path);
      }
    }
  }

  lemma ScanOneIndexed(items: seq<Location>, ix: Index, l: Location)
    requires Indexed(items, ix) && forall i :: 0 <= i < |items| ==> items[i].path != l.path
    ensures Indexed(items + [l], ScanOne(ix, l))
  {
    var out := ScanOne(ix, l);
    NewPath(items, ix, l);
    ScanOneConsistent(ix, l);
    forall id ensures Keeps(items + [l], out, id) {
      if id == l.id {
        ScanOneKeeps(items, ix, l);
      } else {
        assert Keeps(items, ix, id);
        ScanOneLeaves(ix, l, id);
        OthersKept(items, ix, out, l, id);
      }
    }
  }

  lemma NewPath(items: seq<Location>, ix: Index, l: Location)
    requires Indexed(items, ix) && forall i :: 0 <= i < |items| ==> items[i].path != l.path
    ensures l.path !in ix.ids
  {
    forall id | id in ix.locations ensures ix.locations[id].path != l.path {
      assert Keeps(items, ix, id);
    }
  }

  /** A scan of an empty index keeps, for each id, its smallest path and quarantines exactly the others. */
  lemma {:induction false} ScanIndexes(items: seq<Location>)
    requires DistinctPaths(items)
    ensures Indexed(items, ScanAll(EMPTY, items))
  {
    if items == [] {
      forall id ensures Keeps(items, EMPTY, id) {
        assert PathsOf(items, id) == {};
      }
    } else {
      var front, l := items[..|items| - 1], items[|items| - 1];
      ScanIndexes(front);
      ScanOneIndexed(front, ScanAll(EMPTY, front), l);
      assert items == front + [l];
    }
  }

  // --- Order does not matter ------------------------------------------------------------------------

  predicate SameItems(a: seq<Location>, b: seq<Location>) {
    && (forall i :: 0 <= i < |a| ==> a[i] in b)
    && (forall i :: 0 <= i < |b| ==> b[i] in a)
  }

  lemma SamePaths(a: seq<Location>, b: seq<Location>, id: string)
    requires SameItems(a, b)
    ensures PathsOf(a, id) == PathsOf(b, id)
  {
    forall p | p in PathsOf(a, id) ensures p in PathsOf(b, id) {
      var i :| 0 <= i < |a| && a[i].id == id && a[i].path == p;
      var j :| 0 <= j < |b| && b[j] == a[i];
    }
    forall p | p in PathsOf(b, id) ensures p in PathsOf(a, id) {
      var i :| 0 <= i < |b| && b[i].id == id && b[i].path == p;
      var j :| 0 <= j < |a| && a[j] == b[i];
    }
  }

  lemma SameKept(a: seq<Location>, b: seq<Location>, x: Index, y: Index, id: string)
    requires SameItems(a, b) && DistinctPaths(b) && Keeps(a, x, id) && Keeps(b, y, id)
    ensures id in x.locations <==> id in y.locations
    ensures id in x.locations ==> x.locations[id] == y.locations[id]
    ensures id in x.dropped <==> id in y.dropped
    ensures id in x.dropped ==> x.dropped[id] == y.dropped[id]
  {
    SamePaths(a, b, id);
    if PathsOf(a, id) != {} {
      var p, q := x.locations[id].path, y.locations[id].path;
      if p != q {
        LessIsStrict(p, q);
      }
      var i :| 0 <= i < |b| && b[i] == y.locations[id];
      assert x.locations[id] in b;
    }
  }

  /** The locations decide the other maps of a consistent index. */
  lemma LocationsDecide(x: Index, y: Index)
    requires Consistent(x) && Consistent(y) && x.locations == y.locations && x.dropped == y.dropped
    ensures x == y
  {
    assert forall path :: path in x.ids ==> path in y.ids && y.ids[path] == x.ids[path];
    assert forall path :: path in y.ids ==> path in x.ids;
    SameGroups(x, y);
    SameGroups(y, x);
    assert x.groups.Keys == y.groups.Keys;
  }

  lemma SameGroups(x: Index, y: Index)
    requires Partition(x) && Partition(y) && x.locations == y.locations
    ensures forall g :: g in x.groups ==> g in y.groups && x.groups[g] == y.groups[g]
  {
    forall g | g in x.groups ensures g in y.groups && x.groups[g] == y.groups[g] {
      var id :| id in x.groups[g];
      assert GroupOf(y.locations[id]) == Some(g);
      forall other | other in x.groups[g] ensures other in y.groups[g] {
        assert GroupOf(y.locations[other]) == Some(g);
      }
      forall other | other in y.groups[g] ensures other in x.groups[g] {
        assert GroupOf(x.locations[other]) == Some(g);
      }
    }
  }

  /** Two scans of the same files give the same four maps, in whatever order they met the files. */
  lemma ScanOrderIsIrrelevant(a: seq<Location>, b: seq<Location>)
    requires DistinctPaths(a) && DistinctPaths(b) && SameItems(a, b)
    ensures ScanAll(EMPTY, a) == ScanAll(EMPTY, b)
  {
    ScanIndexes(a);
    ScanIndexes(b);
    var x, y := ScanAll(EMPTY, a), ScanAll(EMPTY, b);
    forall id ensures (id in x.locations <==> id in y.locations) && (id in x.locations ==> x.locations[id] == y.locations[id])
                      && (id in x.dropped <==> id in y.dropped) && (id in x.dropped ==> x.dropped[id] == y.dropped[id])
    {
      assert Keeps(a, x, id) && Keeps(b, y, id);
      SameKept(a, b, x, y, id);
    }
    assert x.locations == y.locations && x.dropped == y.dropped;
    LocationsDecide(x, y);
  }

  // --- A second scan --------------------------------------------------------------------------------

  lemma {:induction false} RescanRecords(ix: Index, items: seq<Location>)
    requires forall i :: 0 <= i < |items| ==> items[i].id in ix.locations && !Less(items[i].path, ix.locations[items[i].id].path)
    ensures var out := ScanAll(ix, items);
            && out.locations == ix.locations && out.ids == ix.ids && out.groups == ix.groups
            && forall id :: Dropped(out, id) == Dropped(ix, id) + PathsOf(items, id)
  {
    if items == [] {
      forall id ensures Dropped(ix, id) == Dropped(ix, id) + PathsOf(items, id) {
        assert PathsOf(items, id) == {};
      }
    } else {
      var front, l := items[..|items| - 1], items[|items| - 1];
      RescanRecords(ix, front);
      assert items == front + [l];
      forall id ensures Dropped(ScanAll(ix, items), id) == Dropped(ix, id) + PathsOf(items, id) {
        PathsGrow(front, l, id);
      }
    }
  }

  /** Building twice is a trap: the second scan records every path of every id, the kept one included, as dropped. */
  lemma SecondScanQuarantinesKept(items: seq<Location>)
    requires DistinctPaths(items)
    ensures var once, twice := ScanAll(EMPTY, items), ScanAll(ScanAll(EMPTY, items), items);
            && twice.locations == once.locations && twice.ids == once.ids && twice.groups == once.groups
            && forall id :: Dropped(twice, id) == PathsOf(items, id)
                            && (id in once.locations ==> once.locations[id].path in Dropped(twice, id))
  {
    ScanIndexes(items);
    var once := ScanAll(EMPTY, items);
    forall i | 0 <= i < |items| ensures items[i].id in once.locations && !Less(items[i].path, once.locations[items[i].id].path) {
      var id := items[i].id;
      assert Keeps(items, once, id) && items[i].path in PathsOf(items, id);
      if items[i].path != once.locations[id].path {
        LessIsStrict(once.locations[id].path, items[i].path);
      } else if Less(items[i].path, items[i].path) {
        LessIsStrict(items[i].path, items[i].path);
      }
    }
    RescanRecords(once, items);
    forall id ensures Dropped(ScanAll(once, items), id) == PathsOf(items, id)
                      && (id in once.locations ==> once.locations[id].path in PathsOf(items, id))
    {
      assert Keeps(items, once, id);
    }
  }

  // --- Scanning into an index that holds something ----------------------------------------------------

  /** Each id is filed under itself, and no quarantine record is empty: so of every index there is. */
  predicate Tidy(ix: Index) {
    && (forall id :: id in ix.locations ==> ix.locations[id].id == id)
    && (forall id :: id in ix.dropped ==> ix.dropped[id] != {})
  }

  lemma {:induction false} ScanStaysTidy(ix: Index, items: seq<Location>)
    requires Tidy(ix)
    ensures Tidy(ScanAll(ix, items))
  {
    if items != [] {
      ScanStaysTidy(ix, items[..|items| - 1]);
    }
  }

  predicate Undercut(ix: Index, id: string, paths: set<string>) {
    id in ix.locations ==> exists p :: p in paths && Less(p, ix.locations[id].path)
  }

  function Before(ix: Index, id: string): set<string> {
    if id in ix.locations then {ix.locations[id].path} else {}
  }

  /** What a scan makes of one id that may have been in the index before. */
  ghost predicate Rescanned(items: seq<Location>, ix: Index, out: Index, id: string) {
    var paths := PathsOf(items, id);
    if paths == {} then
      && (id in out.locations <==> id in ix.locations) && (id in ix.locations ==> out.locations[id] == ix.locations[id])
      && (id in out.dropped <==> id in ix.dropped) && Dropped(out, id) == Dropped(ix, id)
    else
      && id in out.locations
      && if Undercut(ix, id, paths) then
           && out.locations[id] in items && Least(paths, out.locations[id].path)
           && Dropped(out, id) == Dropped(ix, id) + (paths - {out.locations[id].path}) + Before(ix, id)
         else out.locations[id] == ix.locations[id] && Dropped(out, id) == Dropped(ix, id) + paths
  }

  lemma SameRescanned(items: seq<Location>, more: seq<Location>, ix: Index, mid: Index, out: Index, id: string)
    requires Rescanned(items, ix, mid, id) && SameOf(out, mid, id)
    requires PathsOf(more, id) == PathsOf(items, id) && forall x :: x in items ==> x in more
    ensures Rescanned(more, ix, out, id)
  {
  }

  lemma OthersRescanned(items: seq<Location>, ix: Index, mid: Index, l: Location, id: string)
    requires Tidy(mid) && Rescanned(items, ix, mid, id) && id != l.id
    ensures Rescanned(items + [l], ix, ScanOne(mid, l), id)
  {
    PathsGrow(items, l, id);
    ScanOneLeaves(mid, l, id);
    SameRescanned(items, items + [l], ix, mid, ScanOne(mid, l), id);
  }

  lemma ScanOneTakes(ix: Index, l: Location)
    requires Tidy(ix) && l.id in ix.locations
    ensures var out, held := ScanOne(ix, l), ix.locations[l.id];
            && l.id in out.locations
            && out.locations[l.id] == (if Less(l.path, held.path) then l else held)
            && Dropped(out, l.id) == Dropped(ix, l.id) + {if Less(l.path, held.path) then held.path else l.path}
  {
  }

  /** The first path of an id that the scan meets. */
  lemma FirstRescanned(items: seq<Location>, ix: Index, mid: Index, l: Location)
    requires Tidy(mid) && Rescanned(items, ix, mid, l.id) && PathsOf(items, l.id) == {}
    ensures Rescanned(items + [l], ix, ScanOne(mid, l), l.id)
  {
    PathsGrow(items, l, l.id);
    assert PathsOf(items + [l], l.id) == {l.path};
    assert l.path in {l.path};
  }

  /** A further path, where nothing before it was smaller than what the index held. */
  lemma StillRescanned(items: seq<Location>, ix: Index, mid: Index, l: Location)
    requires Tidy(mid) && Rescanned(items, ix, mid, l.id) && PathsOf(items, l.id) != {}
    requires !Undercut(ix, l.id, PathsOf(items, l.id)) && l.path !in PathsOf(items, l.id)
    ensures Rescanned(items + [l], ix, ScanOne(mid, l), l.id)
  {
    PathsGrow(items, l, l.id);
    var paths, held := PathsOf(items, l.id), ix.locations[l.id].path;
    if Less(l.path, held) {
      forall q | q in paths ensures Less(l.path, q) {
        LessIsTotal(held, q);
        if held != q {
          LessChains(l.path, held, q);
        }
      }
      assert paths + {l.path} - {l.path} == paths;
    }
  }

  /** A further path, where a scanned one is kept already. */
  lemma MoreRescanned(items: seq<Location>, ix: Index, mid: Index, l: Location)
    requires Tidy(mid) && Rescanned(items, ix, mid, l.id) && PathsOf(items, l.id) != {}
    requires Undercut(ix, l.id, PathsOf(items, l.id)) && l.path !in PathsOf(items, l.id)
    ensures Rescanned(items + [l], ix, ScanOne(mid, l), l.id)
  {
    PathsGrow(items, l, l.id);
    var paths, kept := PathsOf(items, l.id), mid.locations[l.id].path;
    LeastWith(paths, kept, l.path);
    ScanOneTakes(mid, l);
    UndercutMore(ix, l.id, paths, PathsOf(items + [l], l.id));
    var lost := if Less(l.path, kept) then kept else l.path;
    SwapOne(paths, kept, l.path, lost);
    assert Dropped(mid, l.id) + {lost} == Dropped(ix, l.id) + (paths - {kept} + {lost}) + Before(ix, l.id);
  }

  lemma SwapOne(paths: set<string>, kept: string, p: string, lost: string)
    requires kept in paths && p !in paths && (lost == kept || lost == p)
    ensures paths - {kept} + {lost} == paths + {p} - {if lost == kept then p else kept}
  {
  }

  lemma UndercutMore(ix: Index, id: string, paths: set<string>, more: set<string>)
    requires Undercut(ix, id, paths) && paths <= more
    ensures Undercut(ix, id, more)
  {
  }

  lemma {:induction false} ScanRescans(ix: Index, items: seq<Location>, id: string)
    requires Tidy(ix) && DistinctPaths(items)
    ensures Rescanned(items, ix, ScanAll(ix, items), id)
  {
    if items == [] {
      assert PathsOf(items, id) == {};
    } else {
      var front, l := items[..|items| - 1], items[|items| - 1];
      assert items == front + [l];
      ScanRescans(ix, front, id);
      ScanStaysTidy(ix, front);
      assert l.path !in PathsOf(front, l.id);
      if id != l.id {
        OthersRescanned(front, ix, ScanAll(ix, front), l, id);
      } else if PathsOf(front, id) == {} {
        FirstRescanned(front, ix, ScanAll(ix, front), l);
      } else if Undercut(ix, id, PathsOf(front, id)) {
        MoreRescanned(front, ix, ScanAll(ix, front), l);
      } else {
        StillRescanned(front, ix, ScanAll(ix, front), l);
      }
    }
  }

  /** What the index holds of an id is paths the scan will meet, none of them the smallest. */
  predicate Overtaken(items: seq<Location>, ix: Index, id: string) {
    var paths := PathsOf(items, id);
    && (id in ix.locations ==> ix.locations[id].path in paths && !Least(paths, ix.locations[id].path))
    && (forall p :: p in Dropped(ix, id) ==> p in paths && !Least(paths, p))
  }

  lemma LeastIsOne(paths: set<string>, p: string, q: string)
    requires Least(paths, p) && Least(paths, q)
    ensures p == q
  {
    if p != q {
      LessIsStrict(p, q);
    }
  }

  lemma NotLeast(paths: set<string>, p: string) returns (q: string)
    requires p in paths && !Least(paths, p)
    ensures q in paths && Less(q, p)
  {
    q :| q in paths && q != p && !Less(p, q);
    LessIsTotal(p, q);
  }

  lemma OvertakenKeeps(items: seq<Location>, ix: Index, out: Index, id: string)
    requires Tidy(ix) && Tidy(out) && Rescanned(items, ix, out, id) && Overtaken(items, ix, id)
    ensures Keeps(items, out, id)
  {
    var paths := PathsOf(items, id);
    if paths != {} {
      if id in ix.locations {
        var q := NotLeast(paths, ix.locations[id].path);
      }
      assert Undercut(ix, id, paths);
      var kept := out.locations[id].path;
      assert Dropped(ix, id) <= paths - {kept};
      assert Before(ix, id) <= paths - {kept};
    }
  }

  lemma KeepsOnlyOvertaken(items: seq<Location>, ix: Index, out: Index, id: string)
    requires Tidy(ix) && Rescanned(items, ix, out, id) && Keeps(items, out, id)
    ensures Overtaken(items, ix, id)
  {
    var paths := PathsOf(items, id);
    if paths != {} {
      var kept := out.locations[id].path;
      assert kept !in Dropped(out, id);
      forall p | p in paths - {kept} ensures !Least(paths, p) {
        if Least(paths, p) {
          LeastIsOne(paths, p, kept);
        }
      }
      forall p | p in Dropped(ix, id) + Before(ix, id) ensures p in paths - {kept} {
        assert p in Dropped(out, id);
      }
      if id in ix.locations {
        assert ix.locations[id].path in Before(ix, id);
      }
    }
  }

  /** Every path the index holds is one that the scan meets under the same id. */
  ghost predicate Among(items: seq<Location>, ix: Index) {
    forall id :: id in ix.locations ==> ix.locations[id].path in PathsOf(items, id)
  }

  lemma ScanOneAmong(items: seq<Location>, ix: Index, l: Location)
    requires Consistent(ix) && Among(items, ix) && DistinctPaths(items) && l in items
    ensures Consistent(ScanOne(ix, l)) && Among(items, ScanOne(ix, l))
  {
    var i :| 0 <= i < |items| && items[i] == l;
    assert l.path in PathsOf(items, l.id);
    if l.path in ix.ids {
      var j :| 0 <= j < |items| && items[j].id == ix.ids[l.path] && items[j].path == l.path;
      assert i == j;
      if Less(l.path, l.path) {
        LessIsStrict(l.path, l.path);
      }
    } else {
      ScanOneConsistent(ix, l);
    }
  }

  lemma {:induction false} ScanStaysAmong(items: seq<Location>, ix: Index, k: nat)
    requires Consistent(ix) && Among(items, ix) && DistinctPaths(items) && k <= |items|
    ensures Consistent(ScanAll(ix, items[..k])) && Among(items, ScanAll(ix, items[..k]))
  {
    if k > 0 {
      ScanStaysAmong(items, ix, k - 1);
      assert items[..k][..k - 1] == items[..k - 1];
      ScanOneAmong(items, ScanAll(ix, items[..k - 1]), items[k - 1]);
    }
  }

  /**
   * Scanning into an index that may hold something gives the guarantees of a scan exactly when all it
   * held, kept or quarantined, is overtaken: paths the scan meets, and of no id the smallest.
   */
  lemma ScanIndexesIff(ix: Index, items: seq<Location>)
    requires Consistent(ix) && Tidy(ix) && DistinctPaths(items)
    ensures Indexed(items, ScanAll(ix, items)) <==> forall id :: Overtaken(items, ix, id)
  {
    var out := ScanAll(ix, items);
    ScanStaysTidy(ix, items);
    forall id ensures Rescanned(items, ix, out, id) {
      ScanRescans(ix, items, id);
    }
    if forall id :: Overtaken(items, ix, id) {
      forall id ensures Keeps(items, out, id) {
        OvertakenKeeps(items, ix, out, id);
      }
      forall id | id in ix.locations ensures ix.locations[id].path in PathsOf(items, id) {
        assert Overtaken(items, ix, id);
      }
      ScanStaysAmong(items, ix, |items|);
      assert items[..|items|] == items;
    }
    if Indexed(items, out) {
      forall id ensures Overtaken(items, ix, id) {
        assert Keeps(items, out, id);
        KeepsOnlyOvertaken(items, ix, out, id);
      }
    }
  }

  /** So a second scan of the same files keeps them only where there are none. */
  lemma SecondScanIndexesIff(items: seq<Location>)
    requires DistinctPaths(items)
    ensures Indexed(items, ScanAll(ScanAll(EMPTY, items), items)) <==> items == []
  {
    ScanIndexes(items);
    var once := ScanAll(EMPTY, items);
    ScanStaysTidy(EMPTY, items);
    ScanIndexesIff(once, items);
    if items != [] {
      var id := items[0].id;
      assert items[0].path in PathsOf(items, id);
      assert Keeps(items, once, id);
      assert !Overtaken(items, once, id);
    }
  }

  // --- Trees ----------------------------------------------------------------------------------------

  /** Names as a directory holds them: no separator, none twice. */
  predicate WellFormed(children: seq<(string, Node)>)
    decreases children
  {
    && (forall i :: 0 <= i < |children| ==> children[i].0 != "" && '/' !in children[i].0)
    && (forall i, j :: 0 <= i < j < |children| ==> children[i].0 != children[j].0)
    && (forall i :: 0 <= i < |children| ==> WellFormedBelow(children[i]))
  }

  predicate WellFormedBelow(child: (string, Node))
    decreases child
  {
    child.1.DirNode? ==> WellFormed(child.1.children)
  }

  /** A path is a name in a directory, or below one. */
  predicate Reaches(path: string, full: string) {
    path == full || (full + "/") <= path
  }

  lemma ReachesOne(dir: string, a: string, b: string, path: string)
    requires '/' !in a && '/' !in b && a != ""  && b != ""
    requires Reaches(path, Full(dir, a)) && Reaches(path, Full(dir, b))
    ensures a == b
  {
    var at := if dir == "" then 0 else |dir| + 1;
    var rest := path[at..];
    assert Full(dir, a) <= path && Full(dir, b) <= path;
    assert a <= rest && b <= rest;
    assert |a| < |rest| ==> rest[|a|] == '/';
    assert |b| < |rest| ==> rest[|b|] == '/';
  }

  lemma {:induction false} ReachedThrough(dir: string, children: seq<(string, Node)>)
    requires WellFormed(children)
    ensures forall l :: l in Items(dir, children) ==>
              exists i :: 0 <= i < |children| && Reaches(l.path, Full(dir, children[i].0))
    decreases children, 1
  {
    if children != [] {
      ReachedThroughChild(dir, children[0]);
      assert WellFormed(children[1..]);
      ReachedThrough(dir, children[1..]);
      forall l | l in Items(dir, children)
        ensures exists i :: 0 <= i < |children| && Reaches(l.path, Full(dir, children[i].0))
      {
        if l !in ItemsOfChild(dir, children[0]) {
          var i :| 0 <= i < |children[1..]| && Reaches(l.path, Full(dir, children[1..][i].0));
          assert children[i + 1] == children[1..][i];
        }
      }
    }
  }

  lemma {:induction false} ReachedThroughChild(dir: string, child: (string, Node))
    requires child.0 != "" && '/' !in child.0 && (child.1.DirNode? ==> WellFormed(child.1.children))
    ensures forall l :: l in ItemsOfChild(dir, child) ==> Reaches(l.path, Full(dir, child.0))
    decreases child, 0
  {
    if !Skipped(child.0) && child.1.DirNode? {
      var full := Full(dir, child.0);
      ReachedThrough(full, child.1.children);
      forall l | l in Items(full, child.1.children) ensures Reaches(l.path, full) {
        var i :| 0 <= i < |child.1.children| && Reaches(l.path, Full(full, child.1.children[i].0));
        assert full + "/" <= Full(full, child.1.children[i].0) <= l.path;
      }
    }
  }

  lemma DistinctOn(a: seq<Location>, b: seq<Location>)
    requires DistinctPaths(a) && DistinctPaths(b)
    requires forall x, y :: x in a && y in b ==> x.path != y.path
    ensures DistinctPaths(a + b)
  {
    forall i, j | 0 <= i < j < |a + b| ensures (a + b)[i].path != (a + b)[j].path {
      if i < |a| <= j {
        assert (a + b)[i] in a && (a + b)[j] in b;
      }
    }
  }

  /** No two locations of a tree share a path. */
  lemma {:induction false} ItemsAreDistinct(dir: string, children: seq<(string, Node)>)
    requires WellFormed(children)
    ensures DistinctPaths(Items(dir, children))
    decreases children, 1
  {
    if children != [] {
      ItemsOfChildAreDistinct(dir, children[0]);
      assert WellFormed(children[1..]);
      ItemsAreDistinct(dir, children[1..]);
      ReachedThroughChild(dir, children[0]);
      ReachedThrough(dir, children[1..]);
      forall x, y | x in ItemsOfChild(dir, children[0]) && y in Items(dir, children[1..]) ensures x.path != y.path {
        var i :| 0 <= i < |children[1..]| && Reaches(y.path, Full(dir, children[1..][i].0));
        assert children[i + 1] == children[1..][i];
        if x.path == y.path {
          ReachesOne(dir, children[0].0, children[i + 1].0, x.path);
        }
      }
      DistinctOn(ItemsOfChild(dir, children[0]), Items(dir, children[1..]));
    }
  }

  lemma {:induction false} ItemsOfChildAreDistinct(dir: string, child: (string, Node))
    requires child.0 != "" && '/' !in child.0 && (child.1.DirNode? ==> WellFormed(child.1.children))
    ensures DistinctPaths(ItemsOfChild(dir, child))
    decreases child, 0
  {
    if !Skipped(child.0) && child.1.DirNode? {
      var full := Full(dir, child.0);
      ItemsAreDistinct(full, child.1.children);
      ReachedThrough(full, child.1.children);
      forall x, y | x in ItemOf(dir, child.0, child.1) && y in Items(full, child.1.children) ensures x.path != y.path {
        var i :| 0 <= i < |child.1.children| && Reaches(y.path, Full(full, child.1.children[i].0));
        assert |y.path| >= |Full(full, child.1.children[i].0)| > |full| == |x.path|;
      }
      DistinctOn(ItemOf(dir, child.0, child.1), Items(full, child.1.children));
    }
  }

  /** The same files in another listing order, at every level. */
  predicate Reordered(a: seq<(string, Node)>, b: seq<(string, Node)>)
    decreases a, 1
  {
    && (forall i :: 0 <= i < |a| ==> HasTwinIn(a[i], b))
    && (forall j :: 0 <= j < |b| ==> IsTwinFrom(a, b[j]))
  }

  predicate HasTwinIn(x: (string, Node), b: seq<(string, Node)>)
    decreases x, 1
  {
    exists j :: 0 <= j < |b| && Twins(x, b[j])
  }

  predicate IsTwinFrom(a: seq<(string, Node)>, y: (string, Node))
    decreases a, 0
  {
    exists i :: 0 <= i < |a| && Twins(a[i], y)
  }

  predicate Twins(x: (string, Node), y: (string, Node))
    decreases x, 0
  {
    x.0 == y.0 && (x.1.DirNode? <==> y.1.DirNode?) && (x.1.DirNode? ==> Reordered(x.1.children, y.1.children))
  }

  lemma {:induction false} ItemsByChild(dir: string, children: seq<(string, Node)>, l: Location)
    ensures l in Items(dir, children) <==> exists i :: 0 <= i < |children| && l in ItemsOfChild(dir, children[i])
  {
    if children != [] {
      ItemsByChild(dir, children[1..], l);
      if l in Items(dir, children[1..]) {
        var i :| 0 <= i < |children[1..]| && l in ItemsOfChild(dir, children[1..][i]);
        assert children[i + 1] == children[1..][i];
      }
      forall i | 0 <= i < |children| && l in ItemsOfChild(dir, children[i]) ensures l in Items(dir, children) {
        if i > 0 {
          assert children[1..][i - 1] == children[i];
        }
      }
    }
  }

  lemma {:induction false} ReorderedItems(dir: string, a: seq<(string, Node)>, b: seq<(string, Node)>, l: Location)
    requires Reordered(a, b)
    ensures l in Items(dir, a) <==> l in Items(dir, b)
    decreases a
  {
    ItemsByChild(dir, a, l);
    ItemsByChild(dir, b, l);
    forall i | 0 <= i < |a| && l in ItemsOfChild(dir, a[i]) ensures l in Items(dir, b) {
      assert HasTwinIn(a[i], b);
      var j :| 0 <= j < |b| && Twins(a[i], b[j]);
      TwinItems(dir, a[i], b[j], l);
    }
    forall j | 0 <= j < |b| && l in ItemsOfChild(dir, b[j]) ensures l in Items(dir, a) {
      assert IsTwinFrom(a, b[j]);
      var i :| 0 <= i < |a| && Twins(a[i], b[j]);
      TwinItems(dir, a[i], b[j], l);
    }
  }

  lemma {:induction false} TwinItems(dir: string, x: (string, Node), y: (string, Node), l: Location)
    requires Twins(x, y)
    ensures l in ItemsOfChild(dir, x) <==> l in ItemsOfChild(dir, y)
    decreases x
  {
    if x.1.DirNode? {
      ReorderedItems(Full(dir, x.0), x.1.children, y.1.children, l);
    }
  }

  lemma ReorderedSameItems(dir: string, a: seq<(string, Node)>, b: seq<(string, Node)>)
    requires Reordered(a, b)
    ensures SameItems(Items(dir, a), Items(dir, b))
  {
    var x, y := Items(dir, a), Items(dir, b);
    forall i | 0 <= i < |x| ensures x[i] in y {
      ReorderedItems(dir, a, b, x[i]);
    }
    forall i | 0 <= i < |y| ensures y[i] in x {
      ReorderedItems(dir, a, b, y[i]);
    }
  }

  /** Hosts that list the same tree in different orders build the same index. */
  lemma ReaddirOrderIsIrrelevant(dir: string, a: seq<(string, Node)>, b: seq<(string, Node)>)
    requires WellFormed(a) && WellFormed(b) && Reordered(a, b)
    ensures ScanAll(EMPTY, Items(dir, a)) == ScanAll(EMPTY, Items(dir, b))
  {
    ItemsAreDistinct(dir, a);
    ItemsAreDistinct(dir, b);
    ReorderedSameItems(dir, a, b);
    ScanOrderIsIrrelevant(Items(dir, a), Items(dir, b));
  }

  /** The winner and the losers of every id, after scanning any tree into an empty index. */
  lemma ScanKeepsSmallest(dir: string, children: seq<(string, Node)>)
    requires WellFormed(children)
    ensures Indexed(Items(dir, children), ScanAll(EMPTY, Items(dir, children)))
  {
    ItemsAreDistinct(dir, children);
    ScanIndexes(Items(dir, children));
  }

  lemma BaseOfFull(dir: string, name: string)
    requires '/' !in name
    ensures BaseName(Full(dir, name)) == name
  {
    if dir == "" {
      SplitOfPlain(name, '/');
    } else {
      var parts := Split(dir, '/') + [name];
      JoinOfSplit(dir, '/');
      JoinOfConcat(Split(dir, '/'), [name], '/');
      SplitOfJoin(parts, '/');
      assert Full(dir, name) == Join(parts, '/');
    }
  }

  lemma {:induction false} ItemsEmbed(dir: string, children: seq<(string, Node)>)
    requires WellFormed(children)
    ensures forall l :: l in Items(dir, children) ==> ExtractId(BaseName(l.path)) == Some(l.id)
    decreases children, 1
  {
    if children != [] {
      ItemsOfChildEmbed(dir, children[0]);
      assert WellFormed(children[1..]);
      ItemsEmbed(dir, children[1..]);
    }
  }

  lemma {:induction false} ItemsOfChildEmbed(dir: string, child: (string, Node))
    requires child.0 != "" && '/' !in child.0 && WellFormedBelow(child)
    ensures forall l :: l in ItemsOfChild(dir, child) ==> ExtractId(BaseName(l.path)) == Some(l.id)
    decreases child, 0
  {
    BaseOfFull(dir, child.0);
    if child.1.DirNode? {
      ItemsEmbed(Full(dir, child.0), child.1.children);
    }
  }

  /** A scan leaves an index that every run of operations keeps consistent. */
  lemma ScanEmbeds(dir: string, children: seq<(string, Node)>)
    requires WellFormed(children)
    ensures Consistent(ScanAll(EMPTY, Items(dir, children))) && Embedded(ScanAll(EMPTY, Items(dir, children)))
  {
    ScanKeepsSmallest(dir, children);
    ItemsEmbed(dir, children);
    var items := Items(dir, children);
    var ix := ScanAll(EMPTY, items);
    forall id | id in ix.locations ensures ExtractId(BaseName(ix.locations[id].path)) == Some(id) {
      assert Keeps(items, ix, id);
    }
  }
}
