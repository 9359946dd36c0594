/** What the content-id index is, as values: four maps, and what each operation does to them. */
module IndexSpec {
  import opened Options
  import opened Filenames

  datatype Kind = EntryKind | CollectionKind

  datatype Location = Location(id: string, kind: Kind, path: string, collection: Option<string>, slug: Option<string>)

  datatype Index = Index(
    locations: map<string, Location>,
    ids: map<string, string>,
    groups: map<string, set<string>>,
    dropped: map<string, set<string>>
  )

  const EMPTY := Index(map[], map[], map[], map[])

  /** The collection an entry is grouped under; the empty path groups nothing. */
  function GroupOf(l: Location): Option<string> {
    if l.kind.EntryKind? && l.collection.Some? && l.collection.value != "" then l.collection else None
  }

  function Joined(groups: map<string, set<string>>, group: Option<string>, id: string): map<string, set<string>> {
    if group.None? then groups
    else groups[group.value := (if group.value in groups then groups[group.value] else {}) + {id}]
  }

  /** Leaving a group; an empty group goes. */
  function Left(groups: map<string, set<string>>, group: Option<string>, id: string): map<string, set<string>> {
    if group.None? || group.value !in groups then groups
    else if groups[group.value] - {id} == {} then groups - {group.value}
    else groups[group.value := groups[group.value] - {id}]
  }

  // --- Paths ----------------------------------------------------------------------------------------

  /** `path.dirname` and `path.basename` of a relative path. */
  function DirName(path: string): string {
    var parts := Split(path, '/');
    if |parts| == 1 then "." else Join(parts[..|parts| - 1], '/')
  }

  function BaseName(path: string): string {
    var parts := Split(path, '/');
    parts[|parts| - 1]
  }

  function Full(dir: string, name: string): string {
    if dir == "" then name else dir + "/" + name
  }

  /** String order by character. */
  predicate Less(a: string, b: string) {
    b != "" && (a == "" || a[0] < b[0] || (a[0] == b[0] && Less(a[1..], b[1..])))
  }

  /** What comes first: the string that ends first, or has the smaller character where the two part. */
  predicate PartsAt(a: string, b: string, k: nat) {
    k <= |a| && k < |b| && a[..k] == b[..k] && (k == |a| || a[k] < b[k])
  }

  lemma {:induction false} LessIff(a: string, b: string)
    ensures Less(a, b) <==> exists k: nat :: PartsAt(a, b, k)
  {
    if a == "" {
      assert b != "" ==> PartsAt(a, b, 0);
    } else if b != "" && a[0] == b[0] {
      LessIff(a[1..], b[1..]);
      if Less(a, b) {
        var k: nat :| PartsAt(a[1..], b[1..], k);
        assert a[..k + 1] == [a[0]] + a[1..][..k] && b[..k + 1] == [b[0]] + b[1..][..k];
        assert PartsAt(a, b, k + 1);
      }
      forall k: nat | PartsAt(a, b, k) ensures Less(a, b) {
        assert k > 0;
        assert a[..k][1..] == a[1..][..k - 1] && b[..k][1..] == b[1..][..k - 1];
        assert PartsAt(a[1..], b[1..], k - 1);
      }
    } else if b != "" && a[0] < b[0] {
      assert PartsAt(a, b, 0);
    } else if b != "" {
      forall k: nat ensures !PartsAt(a, b, k) {
        if 0 < k <= |a| && k < |b| {
          assert a[..k][0] != b[..k][0];
        }
      }
    }
  }

  lemma {:induction false} LessIsTotal(a: string, b: string)
    ensures a == b || Less(a, b) || Less(b, a)
  {
    if a != "" && b != "" && a[0] == b[0] {
      LessIsTotal(a[1..], b[1..]);
      if a[1..] == b[1..] {
        assert a == [a[0]] + a[1..] && b == [b[0]] + b[1..];
      }
    }
  }

  lemma {:induction false} LessIsStrict(a: string, b: string)
    requires Less(a, b)
    ensures !Less(b, a) && a != b
  {
    if a != "" && a[0] == b[0] {
      LessIsStrict(a[1..], b[1..]);
    }
  }

  lemma {:induction false} LessChains(a: string, b: string, c: string)
    requires Less(a, b) && Less(b, c)
    ensures Less(a, c)
  {
    if a != "" && a[0] == b[0] && b[0] == c[0] {
      LessChains(a[1..], b[1..], c[1..]);
    }
  }

  // --- Operations -----------------------------------------------------------------------------------

  function Insert(ix: Index, l: Location): Index {
    ix.(locations := ix.locations[l.id := l], ids := ix.ids[l.path := l.id], groups := Joined(ix.groups, GroupOf(l), l.id))
  }

  function Evict(ix: Index, l: Location): Index {
    ix.(locations := ix.locations - {l.id}, ids := ix.ids - {l.path}, groups := Left(ix.groups, GroupOf(l), l.id))
  }

  function Record(ix: Index, id: string, path: string): Index {
    ix.(dropped := ix.dropped[id := Dropped(ix, id) + {path}])
  }

  function Dropped(ix: Index, id: string): set<string> {
    if id in ix.dropped then ix.dropped[id] else {}
  }

  /** One scanned location: the smaller path of an id is kept, the other quarantined. */
  function ScanOne(ix: Index, l: Location): Index {
    if l.id !in ix.locations then Insert(ix, l)
    else
      var existing := ix.locations[l.id];
      if Less(l.path, existing.path) then Insert(Record(Evict(ix, existing), l.id, existing.path), l)
      else Record(ix, l.id, l.path)
  }

  function ScanAll(ix: Index, items: seq<Location>): Index {
    if items == [] then ix else ScanOne(ScanAll(ix, items[..|items| - 1]), items[|items| - 1])
  }

  lemma {:induction false} ScanAllOn(ix: Index, a: seq<Location>, b: seq<Location>)
    ensures ScanAll(ix, a + b) == ScanAll(ScanAll(ix, a), b)
  {
    if b == [] {
      assert a + b == a;
    } else {
      assert (a + b)[..|a + b| - 1] == a + b[..|b| - 1];
      ScanAllOn(ix, a, b[..|b| - 1]);
    }
  }

  /** `remove`; an id not in the index changes nothing. */
  function Remove(ix: Index, id: string): Index {
    if id in ix.locations then Evict(ix, ix.locations[id]) else ix
  }

  datatype AddOutcome = Added | NoId | Collision

  function AddOutcomeOf(ix: Index, l: Location): AddOutcome {
    var id := ExtractId(BaseName(l.path));
    if id.None? then NoId else if id.value in ix.locations then Collision else Added
  }

  /** `add`: the id is the one the path embeds; a refused location changes nothing. */
  function Add(ix: Index, l: Location): Index {
    if AddOutcomeOf(ix, l).Added? then Insert(ix, l.(id := ExtractId(BaseName(l.path)).value)) else ix
  }

  /** A location at its new path; an entry's collection and slug follow the path. */
  function Moved(l: Location, path: string): Location {
    if l.kind.EntryKind?
    then l.(path := path, slug := Some(ExtractSlug(BaseName(path), None)), collection := Some(ToLogical(DirName(path))))
    else l.(path := path)
  }

  /** `updatePath` of a known id. */
  function UpdatePath(ix: Index, id: string, path: string): Index
    requires id in ix.locations
  {
    var l, m := ix.locations[id], Moved(ix.locations[id], path);
    ix.(locations := ix.locations[id := m],
        ids := (ix.ids - {l.path})[path := id],
        groups := if GroupOf(l) == GroupOf(m) then ix.groups else Joined(Left(ix.groups, GroupOf(l), id), GroupOf(m), id))
  }

  // --- What an index keeps --------------------------------------------------------------------------

  /** The two directions are inverse of each other. */
  predicate Inverse(ix: Index) {
    && (forall id :: id in ix.locations ==>
          ix.locations[id].id == id && ix.locations[id].path in ix.ids && ix.ids[ix.locations[id].path] == id)
    && (forall path :: path in ix.ids ==> ix.ids[path] in ix.locations && ix.locations[ix.ids[path]].path == path)
  }

  /** Groups are exactly the entries by collection, none of them empty, with one id perhaps set aside. */
  predicate Parted(locations: map<string, Location>, groups: map<string, set<string>>, but: Option<string>) {
    && (forall group, id :: group in groups && id in groups[group] ==>
          Some(id) != but && id in locations && GroupOf(locations[id]) == Some(group))
    && (forall id :: id in locations && Some(id) != but && GroupOf(locations[id]).Some? ==>
          GroupOf(locations[id]).value in groups && id in groups[GroupOf(locations[id]).value])
    && (forall group :: group in groups ==> groups[group] != {})
  }

  predicate Partition(ix: Index) {
    Parted(ix.locations, ix.groups, None)
  }

  predicate Consistent(ix: Index) {
    Inverse(ix) && Partition(ix)
  }

  /** Every location is filed under the id its own path embeds. */
  predicate Embedded(ix: Index) {
    forall id :: id in ix.locations ==> ExtractId(BaseName(ix.locations[id].path)) == Some(id)
  }

  lemma LeftGroups(groups: map<string, set<string>>, group: Option<string>, id: string)
    requires forall g :: g in groups ==> groups[g] != {}
    requires forall g :: g in groups && id in groups[g] ==> group == Some(g)
    ensures var after := Left(groups, group, id);
            forall g :: g in after ==> after[g] != {} && g in groups && after[g] == groups[g] - {id}
    ensures var after := Left(groups, group, id);
            forall g, other :: g in groups && other in groups[g] && other != id ==> g in after && other in after[g]
  {
    var after := Left(groups, group, id);
    forall g, other | g in groups && other in groups[g] && other != id ensures g in after && other in after[g] {
      if group == Some(g) {
        assert other in groups[g] - {id};
      }
    }
    forall g | g in after ensures after[g] == groups[g] - {id} {
      if group != Some(g) {
        assert groups[g] - {id} == groups[g];
      }
    }
  }

  lemma LeaveGroup(locations: map<string, Location>, groups: map<string, set<string>>, id: string)
    requires Parted(locations, groups, None) && id in locations
    ensures Parted(locations, Left(groups, GroupOf(locations[id]), id), Some(id))
  {
    LeftGroups(groups, GroupOf(locations[id]), id);
  }

  lemma JoinGroup(locations: map<string, Location>, groups: map<string, set<string>>, id: string, m: Location)
    requires Parted(locations, groups, Some(id))
    ensures Parted(locations[id := m], Joined(groups, GroupOf(m), id), None)
  {
  }

  lemma KeepGroup(locations: map<string, Location>, groups: map<string, set<string>>, id: string, m: Location)
    requires Parted(locations, groups, None) && id in locations && GroupOf(m) == GroupOf(locations[id])
    ensures Parted(locations[id := m], groups, None)
  {
  }

  lemma SetAside(locations: map<string, Location>, groups: map<string, set<string>>, id: string)
    requires Parted(locations, groups, None) && id !in locations
    ensures Parted(locations, groups, Some(id))
  {
  }

  lemma NoLongerThere(locations: map<string, Location>, groups: map<string, set<string>>, id: string)
    requires Parted(locations, groups, Some(id))
    ensures Parted(locations - {id}, groups, None)
  {
  }

  lemma InsertKeeps(ix: Index, l: Location)
    requires Consistent(ix) && l.id !in ix.locations && l.path !in ix.ids
    ensures Consistent(Insert(ix, l))
  {
    SetAside(ix.locations, ix.groups, l.id);
    JoinGroup(ix.locations, ix.groups, l.id, l);
    assert Inverse(Insert(ix, l));
  }

  lemma EvictKeeps(ix: Index, id: string)
    requires Consistent(ix) && id in ix.locations
    ensures Consistent(Evict(ix, ix.locations[id]))
    ensures forall path :: path in Evict(ix, ix.locations[id]).ids ==> path in ix.ids
  {
    LeaveGroup(ix.locations, ix.groups, id);
    NoLongerThere(ix.locations, Left(ix.groups, GroupOf(ix.locations[id]), id), id);
    assert Inverse(Evict(ix, ix.locations[id]));
  }

  /** A path whose id is not in the index is not in it either. */
  lemma NewIdNewPath(ix: Index, path: string)
    requires Consistent(ix) && Embedded(ix)
    requires ExtractId(BaseName(path)).Some? && ExtractId(BaseName(path)).value !in ix.locations
    ensures path !in ix.ids
  {
  }

  lemma AddKeeps(ix: Index, l: Location)
    requires Consistent(ix) && Embedded(ix)
    ensures Consistent(Add(ix, l)) && Embedded(Add(ix, l))
  {
    if AddOutcomeOf(ix, l).Added? {
      NewIdNewPath(ix, l.path);
      InsertKeeps(ix, l.(id := ExtractId(BaseName(l.path)).value));
    }
  }

  lemma RemoveKeeps(ix: Index, id: string)
    requires Consistent(ix) && Embedded(ix)
    ensures Consistent(Remove(ix, id)) && Embedded(Remove(ix, id))
  {
    if id in ix.locations {
      EvictKeeps(ix, id);
    }
  }

  lemma JoinedThenLeft(groups: map<string, set<string>>, group: Option<string>, id: string)
    requires group.Some? && group.value in groups ==> id !in groups[group.value] && groups[group.value] != {}
    ensures Left(Joined(groups, group, id), group, id) == groups
  {
    if group.Some? {
      var before := if group.value in groups then groups[group.value] else {};
      assert before + {id} - {id} == before;
    }
  }

  lemma EvictUndoesInsert(ix: Index, l: Location)
    requires Consistent(ix) && l.id !in ix.locations && l.path !in ix.ids
    ensures Evict(Insert(ix, l), l) == ix
  {
    JoinedThenLeft(ix.groups, GroupOf(l), l.id);
    assert Insert(ix, l).locations - {l.id} == ix.locations;
    assert Insert(ix, l).ids - {l.path} == ix.ids;
  }

  /** What was added is undone by removing it. */
  lemma RemoveUndoesAdd(ix: Index, l: Location)
    requires Consistent(ix) && Embedded(ix) && AddOutcomeOf(ix, l).Added?
    ensures Remove(Add(ix, l), ExtractId(BaseName(l.path)).value) == ix
  {
    NewIdNewPath(ix, l.path);
    EvictUndoesInsert(ix, l.(id := ExtractId(BaseName(l.path)).value));
  }

  lemma UpdateGroups(ix: Index, id: string, path: string)
    requires Consistent(ix) && id in ix.locations
    ensures Partition(UpdatePath(ix, id, path))
  {
    var m := Moved(ix.locations[id], path);
    if GroupOf(ix.locations[id]) == GroupOf(m) {
      KeepGroup(ix.locations, ix.groups, id, m);
    } else {
      LeaveGroup(ix.locations, ix.groups, id);
      JoinGroup(ix.locations, Left(ix.groups, GroupOf(ix.locations[id]), id), id, m);
    }
  }

  /** Repointing an id keeps the index consistent exactly when the new path is not another id's. */
  lemma UpdatePathKeepsIff(ix: Index, id: string, path: string)
    requires Consistent(ix) && id in ix.locations
    ensures Consistent(UpdatePath(ix, id, path)) <==> (path in ix.ids ==> ix.ids[path] == id)
  {
    UpdateGroups(ix, id, path);
    var out := UpdatePath(ix, id, path);
    if path in ix.ids && ix.ids[path] != id {
      var other := ix.ids[path];
      assert other in out.locations && out.locations[other].path == path && out.ids[path] == id;
    } else {
      assert Inverse(out);
    }
  }

  lemma DirectoryName(slug: string, id: string)
    requires slug != "" && '.' !in slug && '/' !in slug && IsValidId(id)
    ensures ExtractId(BaseName(slug + "." + id)) == Some(id)
  {
    DirectoryRoundTrip(slug, id);
    assert '/' !in id;
    SplitOfPlain(slug + "." + id, '/');
  }

  const POSTS := Location("bChqT78gcaLd", CollectionKind, "posts.bChqT78gcaLd", None, None)
  const NEWS := Location("jeQpM82jqJ8i", CollectionKind, "news.jeQpM82jqJ8i", None, None)

  lemma PostsEmbedsItsId()
    ensures ExtractId(BaseName(POSTS.path)) == Some(POSTS.id)
  {
    var slug, id := "posts", POSTS.id;
    assert IsValidId(id);
    assert slug + "." + id == POSTS.path;
    DirectoryName(slug, id);
  }

  lemma NewsEmbedsItsId()
    ensures ExtractId(BaseName(NEWS.path)) == Some(NEWS.id)
  {
    var slug, id := "news", NEWS.id;
    assert IsValidId(id);
    assert slug + "." + id == NEWS.path;
    DirectoryName(slug, id);
  }

  /** Adding two locations whose paths embed their ids. */
  lemma BothAdded(a: Location, b: Location)
    requires ExtractId(BaseName(a.path)) == Some(a.id) && ExtractId(BaseName(b.path)) == Some(b.id) && a.id != b.id
    ensures var ix := Add(Add(EMPTY, a), b);
            && Consistent(ix) && Embedded(ix)
            && ix.locations == map[a.id := a, b.id := b] && b.path in ix.ids && ix.ids[b.path] == b.id
  {
    AddKeeps(EMPTY, a);
    AddKeeps(Add(EMPTY, a), b);
  }

  /** An id repointed to another's path: the path says the one, and the other's location says the path. */
  lemma Repointed(ix: Index, id: string, other: string, path: string)
    requires Consistent(ix) && id in ix.locations && other in ix.locations && other != id
    requires path in ix.ids && ix.ids[path] == other
    ensures var out := UpdatePath(ix, id, path);
            && other in out.locations && out.locations[other].path == path
            && path in out.ids && out.ids[path] == id
            && !Consistent(out)
  {
    UpdatePathKeepsIff(ix, id, path);
  }

  /** Two collections, added, and one repointed to where the other is. */
  lemma RepointedOntoAnother()
    ensures var ix := Add(Add(EMPTY, POSTS), NEWS);
            && Consistent(ix) && Embedded(ix)
            && POSTS.id in ix.locations && NEWS.id in ix.locations
            && ix.locations[POSTS.id] == POSTS && ix.locations[NEWS.id] == NEWS
            && (var out := UpdatePath(ix, POSTS.id, NEWS.path);
                && NEWS.id in out.locations && out.locations[NEWS.id].path == NEWS.path
                && NEWS.path in out.ids && out.ids[NEWS.path] == POSTS.id
                && !Consistent(out))
  {
    PostsEmbedsItsId();
    NewsEmbedsItsId();
    assert POSTS.id[0] != NEWS.id[0];
    BothAdded(POSTS, NEWS);
    Repointed(Add(Add(EMPTY, POSTS), NEWS), POSTS.id, NEWS.id, NEWS.path);
  }

  /** So a new path that embeds the same id is always safe. */
  lemma UpdatePathKeeps(ix: Index, id: string, path: string)
    requires Consistent(ix) && Embedded(ix) && id in ix.locations && ExtractId(BaseName(path)) == Some(id)
    ensures Consistent(UpdatePath(ix, id, path)) && Embedded(UpdatePath(ix, id, path))
  {
    UpdatePathKeepsIff(ix, id, path);
  }

  // --- What each operation does ---------------------------------------------------------------------

  /**
   * A location is added unless its path embeds no id, or one the index has: under that id, from its path,
   * and in its collection's group, with all there was before left alone.
   */
  lemma AddAdds(ix: Index, l: Location)
    requires Consistent(ix) && Embedded(ix)
    ensures var id, out := ExtractId(BaseName(l.path)), Add(ix, l);
            if id.None? then AddOutcomeOf(ix, l) == NoId && out == ix
            else if id.value in ix.locations then AddOutcomeOf(ix, l) == Collision && out == ix
            else
              && AddOutcomeOf(ix, l) == Added
              && out.locations == ix.locations[id.value := l.(id := id.value)]
              && out.ids == ix.ids[l.path := id.value] && l.path !in ix.ids
              && (l.kind.EntryKind? && l.collection.Some? && l.collection.value != "" ==>
                    l.collection.value in out.groups && id.value in out.groups[l.collection.value])
              && out.dropped == ix.dropped
  {
    if ExtractId(BaseName(l.path)).Some? && ExtractId(BaseName(l.path)).value !in ix.locations {
      NewIdNewPath(ix, l.path);
    }
  }

  /** Removing an id takes it out of every map, and nothing else. */
  lemma RemoveRemoves(ix: Index, id: string)
    requires Consistent(ix)
    ensures var out := Remove(ix, id);
            && out.locations == ix.locations - {id} && out.dropped == ix.dropped
            && (forall path :: path in out.ids <==> path in ix.ids && ix.ids[path] != id)
            && (forall path :: path in out.ids ==> out.ids[path] == ix.ids[path])
            && (forall group :: group in out.groups ==> id !in out.groups[group])
  {
    if id in ix.locations {
      EvictKeeps(ix, id);
    } else {
      assert ix.locations - {id} == ix.locations;
    }
  }

  /** Repointing an id moves it to the new path, and no other id. */
  lemma UpdateMoves(ix: Index, id: string, path: string)
    requires Consistent(ix) && id in ix.locations && (path in ix.ids ==> ix.ids[path] == id)
    ensures var was, out := ix.locations[id], UpdatePath(ix, id, path);
            && id in out.locations && out.locations[id].path == path && out.locations[id].kind == was.kind && out.locations[id].id == id
            && (!was.kind.EntryKind? ==> out.locations[id] == was.(path := path))
            && out.locations - {id} == ix.locations - {id} && out.dropped == ix.dropped
            && path in out.ids && out.ids[path] == id && (path != was.path ==> was.path !in out.ids)
            && (forall other :: other in ix.ids && ix.ids[other] != id ==> other in out.ids && out.ids[other] == ix.ids[other])
  {
  }

  // --- Runs of operations ---------------------------------------------------------------------------

  datatype Op = AddOp(l: Location) | RemoveOp(id: string) | UpdateOp(id: string, path: string)

  /** A repointing embeds the id it moves; one of an unknown id throws and changes nothing. */
  predicate Legal(op: Op) {
    op.UpdateOp? ==> ExtractId(BaseName(op.path)) == Some(op.id)
  }

  function Do(ix: Index, op: Op): Index {
    match op
    case AddOp(l) => Add(ix, l)
    case RemoveOp(id) => Remove(ix, id)
    case UpdateOp(id, path) => if id in ix.locations then UpdatePath(ix, id, path) else ix
  }

  function DoAll(ix: Index, ops: seq<Op>): Index
    decreases |ops|
  {
    if ops == [] then ix else DoAll(Do(ix, ops[0]), ops[1..])
  }

  /** Every sequence of adds, removes and legal repointings keeps the maps inverse and the groups a partition. */
  lemma {:induction false} OperationsKeep(ix: Index, ops: seq<Op>)
    requires Consistent(ix) && Embedded(ix) && forall i :: 0 <= i < |ops| ==> Legal(ops[i])
    ensures Consistent(DoAll(ix, ops)) && Embedded(DoAll(ix, ops)) && DoAll(ix, ops).dropped == ix.dropped
    decreases |ops|
  {
    hide Consistent, Embedded;
    if ops != [] {
      match ops[0] {
        case AddOp(l) => AddKeeps(ix, l);
        case RemoveOp(id) => RemoveKeeps(ix, id);
        case UpdateOp(id, path) => if id in ix.locations { UpdatePathKeeps(ix, id, path); }
      }
      OperationsKeep(Do(ix, ops[0]), ops[1..]);
    }
  }
}
