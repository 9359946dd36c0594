/** The content-id index itself: four maps and the location objects in them, changed in place. */
module ContentIdIndex {
  import opened Options
  import opened Filenames
  import opened IndexSpec
  import opened IndexScan
  import IndexTree

  class IdLocation {
    const id: string
    const kind: Kind
    var relativePath: string
    var collection: Option<string>
    var slug: Option<string>

    constructor (l: Location)
      ensures Value() == l
    {
      id, kind := l.id, l.kind;
      relativePath, collection, slug := l.path, l.collection, l.slug;
    }

    function Value(): Location
      reads this
    {
      Location(id, kind, relativePath, collection, slug)
    }

    /** A new path; an entry's slug and collection follow it. */
    method MoveTo(newPath: string)
      modifies this
      ensures Value() == Moved(old(Value()), newPath)
    {
      relativePath := newPath;
      if kind.EntryKind? {
        slug := Some(ExtractSlug(BaseName(newPath), None));
        collection := Some(ToLogical(DirName(newPath)));
      }
    }
  }

  datatype Duplicate = Duplicate(id: string, keptPath: string, droppedPaths: seq<string>)

  class ContentIdIndex {
    var idToLocation: map<string, IdLocation>
    var pathToId: map<string, string>
    var byCollection: map<string, set<string>>
    var duplicateIds: map<string, set<string>>

    /** Every location object is filed under its own id, so no two ids share one. */
    ghost predicate Valid()
      reads this`idToLocation, idToLocation.Values
    {
      forall id :: id in idToLocation ==> idToLocation[id].id == id
    }

    function Locations(): map<string, Location>
      reads this`idToLocation, idToLocation.Values
    {
      map id | id in idToLocation :: idToLocation[id].Value()
    }

    function Contents(): Index
      reads this, idToLocation.Values
    {
      Index(Locations(), pathToId, byCollection, duplicateIds)
    }

    constructor ()
      ensures Valid() && Contents() == EMPTY
    {
      idToLocation, pathToId, byCollection, duplicateIds := map[], map[], map[], map[];
      new;
      assert Locations() == map[];
    }

    // --- The maps ------------------------------------------------------------------------------------

    method JoinCollection(group: Option<string>, id: string)
      modifies this`byCollection
      ensures byCollection == Joined(old(byCollection), group, id)
    {
      if group.Some? {
        if group.value !in byCollection {
          byCollection := byCollection[group.value := {}];
        }
        byCollection := byCollection[group.value := byCollection[group.value] + {id}];
      }
    }

    /** Take an id out of a collection's set, and the set with its last id. */
    method LeaveCollection(group: Option<string>, id: string)
      modifies this`byCollection
      ensures byCollection == Left(old(byCollection), group, id)
    {
      if group.Some? && group.value in byCollection {
        var ids := byCollection[group.value] - {id};
        byCollection := if ids == {} then byCollection - {group.value} else byCollection[group.value := ids];
      }
    }

    method InsertLocation(location: IdLocation)
      requires Valid() && location.id !in idToLocation
      modifies this
      ensures Valid() && idToLocation == old(idToLocation)[location.id := location]
      ensures Contents() == Insert(old(Contents()), location.Value())
    {
      idToLocation := idToLocation[location.id := location];
      pathToId := pathToId[location.relativePath := location.id];
      JoinCollection(GroupOf(location.Value()), location.id);
      assert Locations() == old(Locations())[location.id := location.Value()];
    }

    method EvictLocation(location: IdLocation)
      requires Valid() && location.id in idToLocation && idToLocation[location.id] == location
      modifies this
      ensures Valid() && idToLocation == old(idToLocation) - {location.id}
      ensures Contents() == Evict(old(Contents()), location.Value())
    {
      idToLocation := idToLocation - {location.id};
      pathToId := pathToId - {location.relativePath};
      LeaveCollection(GroupOf(location.Value()), location.id);
      assert Locations() == old(Locations()) - {location.id};
    }

    method RecordDuplicate(id: string, droppedPath: string)
      modifies this`duplicateIds
      ensures Contents() == Record(old(Contents()), id, droppedPath)
    {
      var dropped := if id in duplicateIds then duplicateIds[id] else {};
      duplicateIds := duplicateIds[id := dropped + {droppedPath}];
    }

    // --- The scan ------------------------------------------------------------------------------------

    /** A location whose path is smaller takes the id over, and the one before it is quarantined. */
    method Displace(existing: IdLocation, location: IdLocation)
      requires Valid() && existing.id in idToLocation && idToLocation[existing.id] == existing
      requires location.id == existing.id && location != existing
      modifies this
      ensures Valid() && idToLocation == old(idToLocation)[location.id := location]
      ensures Contents() == Insert(Record(Evict(old(Contents()), old(existing.Value())), location.id, old(existing.relativePath)),
                                   location.Value())
    {
      EvictLocation(existing);
      RecordDuplicate(existing.id, existing.relativePath);
      InsertLocation(location);
    }

    /** Index one listed name that embeds an id, or quarantine whichever of two paths is larger. */
    method ScanName(l: Location)
      requires Valid()
      modifies this
      ensures Valid() && Contents() == ScanOne(old(Contents()), l)
      ensures fresh(idToLocation.Values - old(idToLocation.Values))
    {
      var location := new IdLocation(l);
      assert Contents() == old(Contents());
      if l.id in idToLocation {
        var existing := idToLocation[l.id];
        assert Contents().locations[l.id] == existing.Value();
        if Less(l.path, existing.relativePath) {
          Displace(existing, location);
        } else {
          RecordDuplicate(l.id, l.path);
        }
      } else {
        InsertLocation(location);
      }
    }

    /** `scanDirectory`: each listed name in turn, a directory's own listing right after it. */
    method ScanDirectory(dir: string, children: seq<(string, Node)>)
      requires Valid()
      modifies this
      ensures Valid() && Contents() == ScanAll(old(Contents()), Items(dir, children))
      ensures fresh(idToLocation.Values - old(idToLocation.Values))
      decreases children
    {
      var i := 0;
      ghost var before := Contents();
      while i < |children|
        invariant 0 <= i <= |children|
        invariant Valid() && fresh(idToLocation.Values - old(idToLocation.Values))
        invariant ScanAll(Contents(), Items(dir, children[i..])) == ScanAll(before, Items(dir, children))
      {
        ghost var start := Contents();
        assert children[i..][0] == children[i] && children[i..][1..] == children[i + 1..];
        ScanAllOn(start, ItemsOfChild(dir, children[i]), Items(dir, children[i + 1..]));
        ScanChild(dir, children[i]);
        i := i + 1;
      }
    }

    method ScanChild(dir: string, child: (string, Node))
      requires Valid()
      modifies this
      ensures Valid() && Contents() == ScanAll(old(Contents()), ItemsOfChild(dir, child))
      ensures fresh(idToLocation.Values - old(idToLocation.Values))
      decreases child
    {
      if Skipped(child.0) {
        return;
      }
      ghost var start := Contents();
      var items := ItemOf(dir, child.0, child.1);
      if items != [] {
        ScanName(items[0]);
        assert items[..0] == [];
      }
      assert Contents() == ScanAll(start, items);
      if child.1.DirNode? {
        ScanAllOn(start, items, Items(Full(dir, child.0), child.1.children));
        ScanDirectory(Full(dir, child.0), child.1.children);
      } else {
        assert items + [] == items;
      }
    }

    /**
     * `buildFromFilenames`: the guarantees of a scan hold of what comes out exactly when all the index
     * held before is overtaken, as in one that held nothing.
     */
    method BuildFromFilenames(start: string, children: seq<(string, Node)>)
      requires Valid() && WellFormed(children)
      modifies this
      ensures Valid() && Contents() == ScanAll(old(Contents()), Items(start, children))
      ensures Consistent(old(Contents())) && Tidy(old(Contents())) ==>
                (Indexed(Items(start, children), Contents())
                 <==> forall id :: Overtaken(Items(start, children), old(Contents()), id))
      ensures old(Contents()) == EMPTY ==>
                && IndexTree.IndexesTree(start, children, Contents())
                && Indexed(Items(start, children), Contents()) && Embedded(Contents())
    {
      ghost var before := Contents();
      ScanDirectory(start, children);
      ItemsAreDistinct(start, children);
      if Consistent(before) && Tidy(before) {
        ScanIndexesIff(before, Items(start, children));
      }
      IndexTree.ScanIndexesTree(start, children);
      ScanKeepsSmallest(start, children);
      ScanEmbeds(start, children);
    }

    // --- Changes -------------------------------------------------------------------------------------

    /** `add`: throws, changing nothing, without an id in the name or on an id already there. */
    method AddLocation(l: Location) returns (outcome: AddOutcome)
      requires Valid()
      modifies this
      ensures Valid() && outcome == AddOutcomeOf(old(Contents()), l) && Contents() == Add(old(Contents()), l)
    {
      var id := ExtractId(BaseName(l.path));
      if id.None? {
        return NoId;
      }
      if id.value in idToLocation {
        return Collision;
      }
      var location := new IdLocation(l.(id := id.value));
      assert Contents() == old(Contents());
      InsertLocation(location);
      return Added;
    }

    method RemoveLocation(id: string)
      requires Valid()
      modifies this
      ensures Valid() && Contents() == Remove(old(Contents()), id)
    {
      if id in idToLocation {
        assert Contents().locations[id] == idToLocation[id].Value();
        EvictLocation(idToLocation[id]);
      }
    }

    /** `updatePath`: throws, changing nothing, on an id that is not there. */
    method UpdateLocation(id: string, newPath: string) returns (known: bool)
      requires Valid()
      modifies this, idToLocation.Values
      ensures Valid() && idToLocation == old(idToLocation) && known == (id in old(idToLocation))
      ensures Contents() == if known then UpdatePath(old(Contents()), id, newPath) else old(Contents())
    {
      if id !in idToLocation {
        return false;
      }
      assert Contents().locations[id] == idToLocation[id].Value();
      Repoint(idToLocation[id], newPath);
      return true;
    }

    method Repoint(location: IdLocation, newPath: string)
      requires Valid() && location.id in idToLocation && idToLocation[location.id] == location
      modifies this, location
      ensures Valid() && idToLocation == old(idToLocation)
      ensures Contents() == UpdatePath(old(Contents()), location.id, newPath)
    {
      var oldGroup := GroupOf(location.Value());
      pathToId := (pathToId - {location.relativePath})[newPath := location.id];
      Relocate(location, newPath);
      Regroup(oldGroup, GroupOf(location.Value()), location.id);
    }

    /** Only the one location object changes, and it is no other id's. */
    method Relocate(location: IdLocation, newPath: string)
      requires Valid() && location.id in idToLocation && idToLocation[location.id] == location
      modifies location
      ensures Valid() && location.Value() == Moved(old(location.Value()), newPath)
      ensures Locations() == old(Locations())[location.id := location.Value()]
    {
      location.MoveTo(newPath);
      forall id | id in idToLocation && id != location.id ensures idToLocation[id].Value() == old(Locations())[id] {
        assert idToLocation[id] != location;
      }
    }

    method Regroup(from: Option<string>, to: Option<string>, id: string)
      modifies this`byCollection
      ensures byCollection == if from == to then old(byCollection) else Joined(Left(old(byCollection), from, id), to, id)
    {
      if from != to {
        LeaveCollection(from, id);
        JoinCollection(to, id);
      }
    }

    // --- Queries -------------------------------------------------------------------------------------

    method FindById(id: string) returns (found: Option<IdLocation>)
      requires Valid()
      ensures found.Some? <==> id in Contents().locations
      ensures found.Some? ==> found.value.Value() == Contents().locations[id] && found.value.id == id
    {
      found := if id in idToLocation then Some(idToLocation[id]) else None;
    }

    /** A path is found under the id whose location it is, and under no other. */
    method FindByPath(relativePath: string) returns (found: Option<string>)
      requires Valid()
      ensures Inverse(Contents()) ==> forall id ::
                found == Some(id) <==> id in Contents().locations && Contents().locations[id].path == relativePath
    {
      found := if relativePath in pathToId then Some(pathToId[relativePath]) else None;
    }

    /** `found` is the locations of the ids there are among `ids`, each once. */
    ghost predicate Lists(found: seq<IdLocation>, ids: set<string>)
      reads this`idToLocation
    {
      && (forall i, j :: 0 <= i < j < |found| ==> found[i] != found[j])
      && (forall l :: l in found ==> l.id in ids && l.id in idToLocation && idToLocation[l.id] == l)
      && (forall id :: id in ids && id in idToLocation ==> idToLocation[id] in found)
    }

    /** The ids grouped under some collections. */
    ghost function GroupedIn(keys: set<string>): set<string>
      reads this`idToLocation, idToLocation.Values
    {
      set id | id in idToLocation && GroupOf(idToLocation[id].Value()).Some?
               && GroupOf(idToLocation[id].Value()).value in keys
    }

    lemma GroupIs(key: string)
      requires Partition(Contents())
      ensures GroupedIn({key}) == if key in byCollection then byCollection[key] else {}
    {
      var ix := Contents();
      forall id ensures id in GroupedIn({key}) <==> key in byCollection && id in byCollection[key] {
        if id in idToLocation {
          assert ix.locations[id] == idToLocation[id].Value();
        }
      }
    }

    method Collect(ids: set<string>) returns (found: seq<IdLocation>)
      requires Valid()
      ensures Lists(found, ids)
    {
      found := [];
      var rest := ids;
      while rest != {}
        invariant rest <= ids && Lists(found, ids - rest)
        decreases |rest|
      {
        var id :| id in rest;
        rest := rest - {id};
        if id in idToLocation {
          found := found + [idToLocation[id]];
        }
      }
    }

    method GetAllLocations() returns (found: seq<IdLocation>)
      requires Valid()
      ensures Lists(found, idToLocation.Keys)
    {
      found := Collect(idToLocation.Keys);
    }

    /** The entries of a collection: a linear filter, each once. */
    method GetEntriesInCollection(collection: string) returns (found: seq<IdLocation>)
      requires Valid() && Partition(Contents())
      ensures Lists(found, GroupedIn({collection}))
    {
      GroupIs(collection);
      if collection !in byCollection {
        return [];
      }
      found := Collect(byCollection[collection]);
    }

    /** The entries of some collections: groups are disjoint, so none is met twice. */
    method CollectGroups(keys: set<string>) returns (found: seq<IdLocation>)
      requires Valid() && Partition(Contents()) && keys <= byCollection.Keys
      ensures Lists(found, GroupedIn(keys))
    {
      found := [];
      var rest := keys;
      while rest != {}
        invariant rest <= keys && Lists(found, GroupedIn(keys - rest))
        decreases |rest|
      {
        var key :| key in rest;
        var group := Collect(byCollection[key]);
        GroupIs(key);
        ListsOn(found, group, GroupedIn(keys - rest), GroupedIn({key}));
        assert GroupedIn(keys - rest) + GroupedIn({key}) == GroupedIn(keys - (rest - {key}));
        rest := rest - {key};
        found := found + group;
      }
      assert keys - rest == keys;
    }

    lemma ListsOn(a: seq<IdLocation>, b: seq<IdLocation>, ids: set<string>, more: set<string>)
      requires Lists(a, ids) && Lists(b, more) && ids !! more
      ensures Lists(a + b, ids + more)
    {
      forall i, j | 0 <= i < j < |a + b| ensures (a + b)[i] != (a + b)[j] {
        if i < |a| <= j {
          assert (a + b)[i] in a && (a + b)[j] in b;
        }
      }
    }

    /** A collection's entries and those of every collection below it, each once. */
    method GetEntriesInCollectionTree(collection: string) returns (found: seq<IdLocation>)
      requires Valid() && Partition(Contents())
      ensures Lists(found, GroupedIn(set key | key in byCollection && InTree(collection, key)))
      ensures forall id :: id in idToLocation && GroupOf(idToLocation[id].Value()).Some?
                           && InTree(collection, GroupOf(idToLocation[id].Value()).value)
                ==> idToLocation[id] in found
    {
      var keys := set key | key in byCollection && InTree(collection, key);
      found := CollectGroups(keys);
      forall id | id in idToLocation && GroupOf(idToLocation[id].Value()).Some?
                  && InTree(collection, GroupOf(idToLocation[id].Value()).value)
        ensures id in GroupedIn(keys)
      {
        assert Contents().locations[id] == idToLocation[id].Value();
      }
    }

    /** Every entry that is in some collection, each once. */
    method GetAllEntryLocations() returns (found: seq<IdLocation>)
      requires Valid() && Partition(Contents())
      ensures Lists(found, set id | id in idToLocation && GroupOf(idToLocation[id].Value()).Some?)
    {
      found := CollectGroups(byCollection.Keys);
      forall id | id in idToLocation && GroupOf(idToLocation[id].Value()).Some? ensures id in GroupedIn(byCollection.Keys) {
        assert Contents().locations[id] == idToLocation[id].Value();
      }
    }

    /** The quarantine record of an id, its dropped paths in order. */
    method GetDuplicateFor(id: string) returns (duplicate: Option<Duplicate>)
      requires Valid()
      ensures duplicate.Some? <==> id in duplicateIds && id in idToLocation
      ensures duplicate.Some? ==>
                && duplicate.value.id == id
                && duplicate.value.keptPath == Contents().locations[id].path
                && Ascending(duplicate.value.droppedPaths)
                && forall p :: p in duplicate.value.droppedPaths <==> p in duplicateIds[id]
    {
      if id !in duplicateIds || id !in idToLocation {
        return None;
      }
      var dropped := Sorted(duplicateIds[id]);
      return Some(Duplicate(id, idToLocation[id].relativePath, dropped));
    }
  }

  /** A collection, or one below it. */
  predicate InTree(collection: string, key: string) {
    key == collection || (collection + "/") <= key
  }

  predicate Ascending(paths: seq<string>) {
    forall i, j :: 0 <= i < j < |paths| ==> Less(paths[i], paths[j])
  }

  method LeastOf(paths: set<string>) returns (least: string)
    requires paths != {}
    ensures Least(paths, least)
  {
    least :| least in paths;
    var rest := paths - {least};
    while rest != {}
      invariant rest <= paths && Least(paths - rest, least)
      decreases |rest|
    {
      var p :| p in rest;
      LeastWith(paths - rest, least, p);
      least := if Less(p, least) then p else least;
      assert paths - rest + {p} == paths - (rest - {p});
      rest := rest - {p};
    }
    assert paths - rest == paths;
  }

  /** The paths of a set in order. */
  method Sorted(paths: set<string>) returns (sorted: seq<string>)
    ensures Ascending(sorted)
    ensures forall p :: p in sorted <==> p in paths
  {
    sorted := [];
    var rest := paths;
    while rest != {}
      invariant rest <= paths && Ascending(sorted)
      invariant forall p :: p in sorted <==> p in paths - rest
      invariant forall p, q :: p in sorted && q in rest ==> Less(p, q)
      decreases |rest|
    {
      var p := LeastOf(rest);
      rest := rest - {p};
      sorted := sorted + [p];
    }
  }
}
