/**
 * The branch registry: one snapshot file shared by every process, rebuilt by scans
 * that read one branch directory at a time while branches change under them. Each
 * registry instance joins concurrent rebuilds; any process may die at any step, and a
 * slow one may rename an old snapshot over a newer one.
 */
module RegistryCache {
  import opened Options
  import opened GenerationMarker

  type Id = nat
  type Context = string

  // A name in the branches root: nothing, not a directory, or a directory by its branch.json.
  datatype Doc = Gone | Plain | Bare | Broken | Meta(context: Context)

  type Listing = seq<(Key, Context)>

  // `asOf` is the version of each name the listing was read from.
  datatype Snapshot = Snapshot(branches: Listing, generation: Option<Token>, asOf: Versions)
  datatype File = Absent | Garbled | OtherVersion | Stored(snap: Snapshot)

  datatype Stage =
    | Started
    | Captured
    | Reading(rest: seq<Key>, branches: Listing, asOf: Versions)
    | Persisting(branches: Listing, asOf: Versions)
    | Finished(branches: Listing, asOf: Versions)
    | Failed

  // `floor` is what had landed when the scan read the marker, or when it started.
  datatype Scan = Scan(registry: Id, read: MarkerRead, floor: Versions, stage: Stage)

  datatype Call =
    | ListRead(registry: Id)
    | ListMark(registry: Id, snap: Snapshot)
    | ListAwait(registry: Id, scan: Id)
    | Listed(registry: Id, branches: Listing, asOf: Versions)
    | InvBump(registry: Id)
    | InvCheck(registry: Id, since: Versions)
    | InvDrain(registry: Id, scan: Id, since: Versions)
    | InvAwait(registry: Id, scan: Id, since: Versions)
    | Invalidated(registry: Id)
    | Threw(registry: Id)

  datatype State = State(
    world: World<Doc>,
    file: File,
    inFlight: map<Id, Id>,
    scans: map<Id, Scan>,
    calls: map<Id, Call>
  )

  datatype Action =
    | Change(k: Key, doc: Doc)
    | BumpElsewhere(token: Token)
    | LoseFile(left: File)
    | StartList(call: Id, registry: Id)
    | StartInvalidate(call: Id, registry: Id)
    | StepCall(call: Id, scan: Id, token: Token, read: MarkerRead)
    | StepScan(scan: Id, read: MarkerRead, listing: seq<Key>, broken: bool)
    | Crash(registry: Id)

  predicate Hidden(k: Key) {
    k != "" && k[0] == '.'
  }

  /** What a scan makes of version `n` of a name. */
  function Entry(w: World<Doc>, k: Key, n: nat): Option<Context> {
    var d := DocAt(w, k, n);
    if !Hidden(k) && d.Some? && d.value.Meta? then Some(d.value.context) else None
  }

  predicate Exists(w: World<Doc>, k: Key) {
    var d := Latest(w, k);
    d.Some? && !d.value.Gone?
  }

  /** A listing is exactly the branches of the versions it was read from. */
  ghost predicate Faithful(w: World<Doc>, branches: Listing, asOf: Versions, but: seq<Key>) {
    && (forall k :: Seen(asOf, k) <= Seen(Current(w), k))
    && (forall k, c :: (k, c) in branches <==> k !in but && Entry(w, k, Seen(asOf, k)) == Some(c))
  }

  // --- The scan ------------------------------------------------------------------------------------

  /** One step of `performRegenerate`: the marker, the listing, each directory in turn, the rename. */
  function ScanStep(s: State, id: Id, read: MarkerRead, listing: seq<Key>, broken: bool): State
    requires id in s.scans && s.world.marker in s.world.floors
  {
    var scan, w := s.scans[id], s.world;
    match scan.stage
    case Started =>
      s.(scans := s.scans[id := scan.(read := read, floor := Landed(w), stage := Captured)])
    case Captured =>
      if broken then Settle(s, id, Failed)
      else s.(scans := s.scans[id := scan.(stage := Reading(listing, [], Current(w)))])
    case Reading(rest, branches, asOf) =>
      if rest == [] then s.(scans := s.scans[id := scan.(stage := Persisting(branches, asOf))])
      else s.(scans := s.scans[id := scan.(stage := ReadNext(w, rest, branches, asOf))])
    case Persisting(branches, asOf) =>
      if scan.read.Unreadable? then Settle(s, id, Finished(branches, asOf))
      else if broken then Settle(s, id, Failed)
      else Settle(s.(file := Stored(Snapshot(branches, scan.read.token, asOf))), id, Finished(branches, asOf))
    case _ => s
  }

  /** Read one listed name as it is now; a name that was not a directory when listed is skipped. */
  function ReadNext(w: World<Doc>, rest: seq<Key>, branches: Listing, asOf: Versions): Stage
    requires rest != []
  {
    var k := rest[0];
    if Hidden(k) || DocAt(w, k, Seen(asOf, k)) == Some(Plain) then Reading(rest[1..], branches, asOf)
    else
      var now := Seen(Current(w), k);
      var entry := Entry(w, k, now);
      Reading(rest[1..], if entry.Some? then branches + [(k, entry.value)] else branches, asOf[k := now])
  }

  /** A scan ends, and with it the instance's in-flight slot. */
  function Settle(s: State, id: Id, stage: Stage): State
    requires id in s.scans
  {
    s.(scans := s.scans[id := s.scans[id].(stage := stage)], inFlight := s.inFlight - {s.scans[id].registry})
  }

  // --- The calls -----------------------------------------------------------------------------------

  /** `regenerate`: join the scan in flight, or start one. */
  function Regenerate(s: State, registry: Id, unused: Id): (State, Id)
    requires s.world.marker in s.world.floors
  {
    if registry in s.inFlight then (s, s.inFlight[registry])
    else (s.(inFlight := s.inFlight[registry := unused],
             scans := s.scans[unused := Scan(registry, Unreadable, Landed(s.world), Started)]), unused)
  }

  function ToList(s: State, c: Id, registry: Id, unused: Id): State
    requires s.world.marker in s.world.floors
  {
    var (t, id) := Regenerate(s, registry, unused);
    t.(calls := t.calls[c := ListAwait(registry, id)])
  }

  function ToInvalidate(s: State, c: Id, registry: Id, unused: Id, since: Versions): State
    requires s.world.marker in s.world.floors
  {
    var (t, id) := Regenerate(s, registry, unused);
    t.(calls := t.calls[c := InvAwait(registry, id, since)])
  }

  predicate Settled(s: State, scan: Id) {
    scan !in s.scans || s.scans[scan].stage.Finished? || s.scans[scan].stage.Failed?
  }

  /** One step of `list` or `invalidate`, up to its next await. */
  function CallStep(s: State, c: Id, unused: Id, token: Token, read: MarkerRead): State
    requires c in s.calls && s.world.marker in s.world.floors
  {
    match s.calls[c]
    case ListRead(r) =>
      if s.file.Stored? then s.(calls := s.calls[c := ListMark(r, s.file.snap)]) else ToList(s, c, r, unused)
    case ListMark(r, snap) =>
      if IsCurrent(snap.generation, read) then s.(calls := s.calls[c := Listed(r, snap.branches, snap.asOf)])
      else ToList(s, c, r, unused)
    case ListAwait(r, scan) =>
      if scan in s.scans && s.scans[scan].stage.Finished?
      then s.(calls := s.calls[c := Listed(r, s.scans[scan].stage.branches, s.scans[scan].stage.asOf)])
      else s.(calls := s.calls[c := Threw(r)])
    case InvBump(r) =>
      s.(world := Bump(s.world, token), calls := s.calls[c := InvCheck(r, Current(s.world))])
    case InvCheck(r, since) =>
      if r in s.inFlight then s.(calls := s.calls[c := InvDrain(r, s.inFlight[r], since)])
      else ToInvalidate(s, c, r, unused, since)
    case InvDrain(r, _, since) => ToInvalidate(s, c, r, unused, since)
    case InvAwait(r, _, _) => s.(calls := s.calls[c := Invalidated(r)])
    case _ => s
  }

  predicate Waits(s: State, call: Call) {
    match call
    case ListAwait(_, scan) => !Settled(s, scan)
    case InvDrain(_, scan, _) => !Settled(s, scan)
    case InvAwait(_, scan, _) => !Settled(s, scan)
    case _ => false
  }

  /** A scan whose process died ends without a result. */
  function Killed(scan: Scan): Scan {
    if scan.stage.Finished? then scan else scan.(stage := Failed)
  }

  ghost predicate Enabled(s: State, a: Action) {
    match a
    case Change(_, _) => true
    case BumpElsewhere(t) => Some(t) !in s.world.floors
    case LoseFile(f) => !f.Stored?
    case StartList(c, _) => c !in s.calls
    case StartInvalidate(c, _) => c !in s.calls
    case StepCall(c, scan, t, read) =>
      && c in s.calls && !Waits(s, s.calls[c])
      && scan !in s.scans && Some(t) !in s.world.floors && MayRead(s.world, read)
    case StepScan(scan, read, listing, _) =>
      && scan in s.scans && MayRead(s.world, read)
      && Distinct(listing) && forall k :: k in listing <==> Exists(s.world, k)
    case Crash(_) => true
  }

  function Apply(s: State, a: Action): State
    requires Enabled(s, a) && s.world.marker in s.world.floors
  {
    match a
    case Change(k, d) => s.(world := Mutate(s.world, k, d))
    case BumpElsewhere(t) => s.(world := Bump(s.world, t))
    case LoseFile(f) => s.(file := f)
    case StartList(c, r) => s.(calls := s.calls[c := ListRead(r)])
    case StartInvalidate(c, r) => s.(calls := s.calls[c := InvBump(r)])
    case StepCall(c, scan, t, read) => CallStep(s, c, scan, t, read)
    case StepScan(scan, read, listing, broken) => ScanStep(s, scan, read, listing, broken)
    case Crash(r) =>
      s.(inFlight := s.inFlight - {r},
         scans := map id | id in s.scans :: if s.scans[id].registry == r then Killed(s.scans[id]) else s.scans[id],
         calls := map c | c in s.calls && s.calls[c].registry != r :: s.calls[c])
  }

  // --- The invariant --------------------------------------------------------------------------------

  ghost predicate SnapOk(w: World<Doc>, snap: Snapshot) {
    && snap.generation in w.floors
    && Covers(snap.asOf, w.floors[snap.generation])
    && Faithful(w, snap.branches, snap.asOf, [])
  }

  ghost predicate ResultOk(w: World<Doc>, scan: Scan, branches: Listing, asOf: Versions, rest: seq<Key>) {
    Covers(asOf, scan.floor) && Faithful(w, branches, asOf, rest)
  }

  ghost predicate ScanOk(w: World<Doc>, scan: Scan)
    requires w.marker in w.floors
  {
    && Covers(Landed(w), scan.floor)
    && (!scan.stage.Started? && !scan.stage.Failed? && scan.read.Read? ==>
          scan.read.token in w.floors && w.floors[scan.read.token] == scan.floor)
    && match scan.stage
       case Reading(rest, branches, asOf) => ResultOk(w, scan, branches, asOf, rest) && Distinct(rest)
       case Persisting(branches, asOf) => ResultOk(w, scan, branches, asOf, [])
       case Finished(branches, asOf) => ResultOk(w, scan, branches, asOf, [])
       case _ => true
  }

  ghost predicate InFlightOk(s: State) {
    forall r :: r in s.inFlight ==>
      var id := s.inFlight[r];
      id in s.scans && s.scans[id].registry == r && !s.scans[id].stage.Finished? && !s.scans[id].stage.Failed?
  }

  ghost predicate CallOk(s: State, call: Call)
    requires s.world.marker in s.world.floors && InFlightOk(s)
  {
    match call
    case ListMark(_, snap) => SnapOk(s.world, snap)
    case Listed(_, branches, asOf) => Faithful(s.world, branches, asOf, [])
    case InvCheck(_, since) => Covers(Landed(s.world), since)
    case InvDrain(r, scan, since) =>
      && Covers(Landed(s.world), since)
      && (r in s.inFlight ==> s.inFlight[r] == scan || Covers(s.scans[s.inFlight[r]].floor, since))
    case InvAwait(_, scan, since) => scan in s.scans && Covers(s.scans[scan].floor, since)
    case _ => true
  }

  ghost predicate Inv(s: State) {
    && WorldOk(s.world)
    && InFlightOk(s)
    && (s.file.Stored? ==> SnapOk(s.world, s.file.snap))
    && (forall id :: id in s.scans ==> ScanOk(s.world, s.scans[id]))
    && (forall c :: c in s.calls ==> CallOk(s, s.calls[c]))
  }

  ghost predicate Init(s: State) {
    && WorldOk(s.world) && s.file.Absent? && s.inFlight == map[] && s.scans == map[] && s.calls == map[]
  }

  // --- A world that moves on ---------------------------------------------------------------------

  lemma FaithfulStays(v: World<Doc>, w: World<Doc>, branches: Listing, asOf: Versions, but: seq<Key>)
    requires Grows(v, w) && Faithful(v, branches, asOf, but)
    ensures Faithful(w, branches, asOf, but)
  {
    forall k ensures Entry(w, k, Seen(asOf, k)) == Entry(v, k, Seen(asOf, k)) && Seen(asOf, k) <= Seen(Current(w), k) {
      DocStays(v, w, k, Seen(asOf, k));
    }
  }

  lemma SnapStays(v: World<Doc>, w: World<Doc>, snap: Snapshot)
    requires Grows(v, w) && SnapOk(v, snap)
    ensures SnapOk(w, snap)
  {
    FaithfulStays(v, w, snap.branches, snap.asOf, []);
  }

  lemma ScanStays(v: World<Doc>, w: World<Doc>, scan: Scan)
    requires Grows(v, w) && ScanOk(v, scan)
    ensures ScanOk(w, scan)
  {
    CoversAll(Landed(w), Landed(v), scan.floor);
    match scan.stage
    case Reading(rest, branches, asOf) => FaithfulStays(v, w, branches, asOf, rest);
    case Persisting(branches, asOf) => FaithfulStays(v, w, branches, asOf, []);
    case Finished(branches, asOf) => FaithfulStays(v, w, branches, asOf, []);
    case _ =>
  }

  lemma CallStays(s: State, t: State, call: Call)
    requires s.world.marker in s.world.floors && InFlightOk(s) && CallOk(s, call)
    requires Grows(s.world, t.world) && t.scans == s.scans && t.inFlight == s.inFlight
    ensures CallOk(t, call)
  {
    match call
    case ListMark(_, snap) => SnapStays(s.world, t.world, snap);
    case Listed(_, branches, asOf) => FaithfulStays(s.world, t.world, branches, asOf, []);
    case InvCheck(_, since) => CoversAll(Landed(t.world), Landed(s.world), since);
    case InvDrain(_, _, since) => CoversAll(Landed(t.world), Landed(s.world), since);
    case _ =>
  }

  lemma WorldMoves(s: State, w: World<Doc>)
    requires Inv(s) && WorldOk(w) && Grows(s.world, w)
    ensures Inv(s.(world := w))
  {
    if s.file.Stored? {
      SnapStays(s.world, w, s.file.snap);
    }
    forall id | id in s.scans ensures ScanOk(w, s.scans[id]) {
      ScanStays(s.world, w, s.scans[id]);
    }
    forall c | c in s.calls ensures CallOk(s.(world := w), s.calls[c]) {
      CallStays(s, s.(world := w), s.calls[c]);
    }
  }

  // --- Scans ----------------------------------------------------------------------------------------

  lemma ReadNextOk(w: World<Doc>, scan: Scan, rest: seq<Key>, branches: Listing, asOf: Versions)
    requires WorldOk(w) && rest != [] && ResultOk(w, scan, branches, asOf, rest) && Distinct(rest)
    ensures var next := ReadNext(w, rest, branches, asOf);
            next.Reading? && ResultOk(w, scan, next.branches, next.asOf, next.rest) && Distinct(next.rest)
  {
    var next := ReadNext(w, rest, branches, asOf);
    var k := rest[0];
    forall j ensures Seen(asOf, j) <= Seen(next.asOf, j) <= Seen(Current(w), j) {
    }
    CoversAll(next.asOf, asOf, scan.floor);
    forall j, c ensures (j, c) in next.branches <==> j !in next.rest && Entry(w, j, Seen(next.asOf, j)) == Some(c) {
      assert (j, c) in branches <==> j !in rest && Entry(w, j, Seen(asOf, j)) == Some(c);
      assert j in rest <==> j == k || j in rest[1..];
    }
  }

  /** A scan moves on without settling. */
  lemma ScanMoves(s: State, id: Id, scan: Scan)
    requires Inv(s) && id in s.scans && ScanOk(s.world, scan)
    requires scan.registry == s.scans[id].registry && !scan.stage.Finished? && !scan.stage.Failed?
    requires Covers(scan.floor, s.scans[id].floor)
    requires !s.scans[id].stage.Finished? && !s.scans[id].stage.Failed?
    ensures Inv(s.(scans := s.scans[id := scan]))
  {
    var t := s.(scans := s.scans[id := scan]);
    forall c | c in s.calls ensures CallOk(t, s.calls[c]) {
      match s.calls[c]
      case InvDrain(r, sc, since) =>
        if r in s.inFlight && s.inFlight[r] == id && sc != id {
          CoversAll(scan.floor, s.scans[id].floor, since);
        }
      case InvAwait(_, sc, since) =>
        if sc == id {
          CoversAll(scan.floor, s.scans[id].floor, since);
        }
      case _ =>
    }
  }

  lemma ScanSettles(s: State, id: Id, stage: Stage)
    requires Inv(s) && id in s.scans && ScanOk(s.world, s.scans[id].(stage := stage))
    requires stage.Finished? || stage.Failed?
    requires !s.scans[id].stage.Finished? && !s.scans[id].stage.Failed?
    ensures Inv(Settle(s, id, stage))
  {
    var t := Settle(s, id, stage);
    forall r | r in t.inFlight ensures t.inFlight[r] != id {
    }
  }

  lemma CaptureKeeps(s: State, id: Id, read: MarkerRead)
    requires Inv(s) && id in s.scans && s.scans[id].stage.Started? && MayRead(s.world, read)
    ensures Inv(ScanStep(s, id, read, [], false))
  {
    ScanMoves(s, id, s.scans[id].(read := read, floor := Landed(s.world), stage := Captured));
  }

  lemma ListKeeps(s: State, id: Id, listing: seq<Key>)
    requires Inv(s) && id in s.scans && s.scans[id].stage.Captured?
    requires Distinct(listing) && forall k :: k in listing <==> Exists(s.world, k)
    ensures Inv(s.(scans := s.scans[id := s.scans[id].(stage := Reading(listing, [], Current(s.world)))]))
  {
    var w, scan := s.world, s.scans[id];
    assert Covers(Current(w), w.floors[w.marker]);
    CoversAll(Current(w), Landed(w), scan.floor);
    forall k | k !in listing ensures Entry(w, k, Seen(Current(w), k)).None? {
      assert !Exists(w, k);
    }
    ScanMoves(s, id, scan.(stage := Reading(listing, [], Current(w))));
  }

  lemma PersistKeeps(s: State, id: Id, read: MarkerRead, listing: seq<Key>, broken: bool)
    requires Inv(s) && id in s.scans && s.scans[id].stage.Persisting?
    ensures Inv(ScanStep(s, id, read, listing, broken))
  {
    var scan := s.scans[id];
    var done := Finished(scan.stage.branches, scan.stage.asOf);
    if scan.read.Read? && !broken {
      var t := s.(file := Stored(Snapshot(scan.stage.branches, scan.read.token, scan.stage.asOf)));
      ScanSettles(t, id, done);
    } else {
      ScanSettles(s, id, if broken && scan.read.Read? then Failed else done);
    }
  }

  lemma ScanKeeps(s: State, id: Id, read: MarkerRead, listing: seq<Key>, broken: bool)
    requires Inv(s) && Enabled(s, StepScan(id, read, listing, broken))
    ensures Inv(ScanStep(s, id, read, listing, broken))
  {
    var scan := s.scans[id];
    match scan.stage
    case Started => CaptureKeeps(s, id, read);
    case Captured =>
      if broken {
        ScanSettles(s, id, Failed);
      } else {
        ListKeeps(s, id, listing);
      }
    case Reading(rest, branches, asOf) =>
      if rest == [] {
        ScanMoves(s, id, scan.(stage := Persisting(branches, asOf)));
      } else {
        ReadNextOk(s.world, scan, rest, branches, asOf);
        ScanMoves(s, id, scan.(stage := ReadNext(s.world, rest, branches, asOf)));
      }
    case Persisting(_, _) => PersistKeeps(s, id, read, listing, broken);
    case _ =>
  }

  // --- Calls ----------------------------------------------------------------------------------------

  lemma CallMoves(s: State, c: Id, call: Call)
    requires Inv(s) && CallOk(s, call)
    ensures Inv(s.(calls := s.calls[c := call]))
  {
    var t := s.(calls := s.calls[c := call]);
    forall d | d in t.calls ensures CallOk(t, t.calls[d]) {
      CallStays(s, t, t.calls[d]);
    }
  }

  /** A new scan is at least as new as everything that has landed. */
  lemma RegenerateKeeps(s: State, r: Id, unused: Id)
    requires Inv(s) && unused !in s.scans
    ensures var (t, id) := Regenerate(s, r, unused);
            Inv(t) && id in t.scans && t.inFlight == s.inFlight[r := id] && t.calls == s.calls && t.world == s.world
    ensures var (t, id) := Regenerate(s, r, unused);
            r !in s.inFlight ==> t.scans[id].floor == Landed(s.world)
    ensures var (t, id) := Regenerate(s, r, unused);
            r in s.inFlight ==> t == s && id == s.inFlight[r]
  {
    if r !in s.inFlight {
      var (t, id) := Regenerate(s, r, unused);
      forall c | c in t.calls ensures CallOk(t, t.calls[c]) {
        assert CallOk(s, s.calls[c]);
      }
    }
  }

  lemma ToListKeeps(s: State, c: Id, r: Id, unused: Id)
    requires Inv(s) && unused !in s.scans
    ensures Inv(ToList(s, c, r, unused))
  {
    RegenerateKeeps(s, r, unused);
    var (t, id) := Regenerate(s, r, unused);
    CallMoves(t, c, ListAwait(r, id));
  }

  lemma ToInvalidateKeeps(s: State, c: Id, r: Id, unused: Id, since: Versions)
    requires Inv(s) && unused !in s.scans && Covers(Landed(s.world), since)
    requires r in s.inFlight ==> Covers(s.scans[s.inFlight[r]].floor, since)
    ensures Inv(ToInvalidate(s, c, r, unused, since))
  {
    RegenerateKeeps(s, r, unused);
    var (t, id) := Regenerate(s, r, unused);
    CallMoves(t, c, InvAwait(r, id, since));
  }

  lemma BumpKeeps(s: State, c: Id, token: Token)
    requires Inv(s) && c in s.calls && s.calls[c].InvBump? && Some(token) !in s.world.floors
    ensures Inv(s.(world := Bump(s.world, token), calls := s.calls[c := InvCheck(s.calls[c].registry, Current(s.world))]))
  {
    BumpGrows(s.world, token);
    WorldMoves(s, Bump(s.world, token));
    CallMoves(s.(world := Bump(s.world, token)), c, InvCheck(s.calls[c].registry, Current(s.world)));
  }

  lemma CallKeeps(s: State, c: Id, unused: Id, token: Token, read: MarkerRead)
    requires Inv(s) && Enabled(s, StepCall(c, unused, token, read))
    ensures Inv(CallStep(s, c, unused, token, read))
  {
    match s.calls[c]
    case ListRead(r) =>
      if s.file.Stored? {
        CallMoves(s, c, ListMark(r, s.file.snap));
      } else {
        ToListKeeps(s, c, r, unused);
      }
    case ListMark(r, snap) =>
      if IsCurrent(snap.generation, read) {
        CallMoves(s, c, Listed(r, snap.branches, snap.asOf));
      } else {
        ToListKeeps(s, c, r, unused);
      }
    case ListAwait(r, scan) =>
      if scan in s.scans && s.scans[scan].stage.Finished? {
        assert ScanOk(s.world, s.scans[scan]);
        CallMoves(s, c, Listed(r, s.scans[scan].stage.branches, s.scans[scan].stage.asOf));
      } else {
        CallMoves(s, c, Threw(r));
      }
    case InvBump(_) => BumpKeeps(s, c, token);
    case InvCheck(r, since) =>
      if r in s.inFlight {
        CallMoves(s, c, InvDrain(r, s.inFlight[r], since));
      } else {
        ToInvalidateKeeps(s, c, r, unused, since);
      }
    case InvDrain(r, _, since) => ToInvalidateKeeps(s, c, r, unused, since);
    case InvAwait(r, _, _) => CallMoves(s, c, Invalidated(r));
    case _ =>
  }

  lemma CrashKeeps(s: State, r: Id)
    requires Inv(s)
    ensures Inv(Apply(s, Crash(r)))
  {
    var t := Apply(s, Crash(r));
    forall id | id in t.scans ensures ScanOk(t.world, t.scans[id]) {
      assert ScanOk(s.world, s.scans[id]);
    }
    forall c | c in t.calls ensures CallOk(t, t.calls[c]) {
      assert CallOk(s, s.calls[c]);
    }
  }

  lemma StepKeeps(s: State, a: Action)
    requires Inv(s) && Enabled(s, a)
    ensures Inv(Apply(s, a))
  {
    match a
    case Change(k, d) =>
      MutateGrows(s.world, k, d);
      WorldMoves(s, Mutate(s.world, k, d));
    case BumpElsewhere(t) =>
      BumpGrows(s.world, t);
      WorldMoves(s, Bump(s.world, t));
    case LoseFile(_) => CallsAlone(s, a);
    case StartList(c, r) => CallMoves(s, c, ListRead(r));
    case StartInvalidate(c, r) => CallMoves(s, c, InvBump(r));
    case StepCall(c, scan, t, read) => CallKeeps(s, c, scan, t, read);
    case StepScan(scan, read, listing, broken) => ScanKeeps(s, scan, read, listing, broken);
    case Crash(r) => CrashKeeps(s, r);
  }

  lemma CallsAlone(s: State, a: Action)
    requires Inv(s) && Enabled(s, a) && a.LoseFile?
    ensures Inv(Apply(s, a))
  {
    var t := Apply(s, a);
    forall c | c in t.calls ensures CallOk(t, t.calls[c]) {
      CallStays(s, t, s.calls[c]);
    }
  }

  // --- What the registry answers ------------------------------------------------------------------

  ghost predicate IsRun(states: seq<State>, acts: seq<Action>) {
    && |states| == |acts| + 1
    && Init(states[0])
    && forall k :: 0 <= k < |acts| ==>
         states[k].world.marker in states[k].world.floors && Enabled(states[k], acts[k])
         && states[k + 1] == Apply(states[k], acts[k])
  }

  lemma {:induction false} RunInv(states: seq<State>, acts: seq<Action>, k: nat)
    requires IsRun(states, acts) && k < |states|
    ensures Inv(states[k])
  {
    if k > 0 {
      RunInv(states, acts, k - 1);
      assert states[k] == Apply(states[k - 1], acts[k - 1]);
      StepKeeps(states[k - 1], acts[k - 1]);
    }
  }

  /** At least as new as `floor`, and exact for every name with no change past it. */
  ghost predicate FreshFrom(w: World<Doc>, branches: Listing, asOf: Versions, floor: Versions) {
    && Covers(asOf, floor)
    && (forall k, c :: (k, c) in branches ==> Entry(w, k, Seen(asOf, k)) == Some(c))
    && (forall k, c :: Seen(floor, k) == Seen(Current(w), k) ==>
          ((k, c) in branches <==> Entry(w, k, Seen(Current(w), k)) == Some(c)))
  }

  lemma FaithfulIsFresh(w: World<Doc>, branches: Listing, asOf: Versions, floor: Versions)
    requires Faithful(w, branches, asOf, []) && Covers(asOf, floor)
    ensures FreshFrom(w, branches, asOf, floor)
  {
    forall k, c | Seen(floor, k) == Seen(Current(w), k)
      ensures (k, c) in branches <==> Entry(w, k, Seen(Current(w), k)) == Some(c)
    {
      assert Seen(floor, k) <= Seen(asOf, k);
    }
  }

  /**
   * Whenever `list` serves the stored snapshot, every branch in it is at least as new as every
   * change whose bump had landed when the marker was read, and nothing that changed no further
   * is missing from it or left in it.
   */
  lemma ServedSnapshotIsFresh(states: seq<State>, acts: seq<Action>, k: nat, c: Id, unused: Id, token: Token, read: MarkerRead)
    requires IsRun(states, acts) && k < |acts| && acts[k] == StepCall(c, unused, token, read)
    requires c in states[k].calls && states[k].calls[c].ListMark?
    requires c in states[k + 1].calls && states[k + 1].calls[c].Listed?
    ensures var w, got := states[k].world, states[k + 1].calls[c];
            w.marker in w.floors && FreshFrom(w, got.branches, got.asOf, Landed(w))
  {
    RunInv(states, acts, k);
    var s := states[k];
    var snap := s.calls[c].snap;
    assert states[k + 1] == Apply(s, acts[k]);
    assert SnapOk(s.world, snap) && s.world.marker == snap.generation;
    FaithfulIsFresh(s.world, snap.branches, snap.asOf, Landed(s.world));
  }

  /** A rebuild's own result is as new as what had landed when it read the marker, readable or not. */
  lemma RebuildIsFresh(states: seq<State>, acts: seq<Action>, k: nat, id: Id)
    requires IsRun(states, acts) && k < |states| && id in states[k].scans && states[k].scans[id].stage.Finished?
    ensures var scan := states[k].scans[id];
            FreshFrom(states[k].world, scan.stage.branches, scan.stage.asOf, scan.floor)
  {
    RunInv(states, acts, k);
    var scan := states[k].scans[id];
    assert ScanOk(states[k].world, scan);
    FaithfulIsFresh(states[k].world, scan.stage.branches, scan.stage.asOf, scan.floor);
  }

  /** The versions an `invalidate` past its bump remembers. */
  function SinceOf(call: Call): Option<Versions> {
    match call
    case InvCheck(_, since) => Some(since)
    case InvDrain(_, _, since) => Some(since)
    case InvAwait(_, _, since) => Some(since)
    case _ => None
  }

  /** Call `c` writes its own fresh token, and with it vouches for every version there is. */
  ghost predicate Bumps(s: State, a: Action, t: State, c: Id, registry: Id) {
    && a.StepCall? && a.call == c && c in s.calls && s.calls[c] == InvBump(registry)
    && Some(a.token) !in s.world.floors && t.world.marker == Some(a.token)
    && t.world.hist == s.world.hist
    && t.world.marker in t.world.floors && Landed(t.world) == Current(s.world)
  }

  lemma SinceInCall(s: State, c: Id, unused: Id, token: Token, read: MarkerRead)
    requires c in s.calls && s.world.marker in s.world.floors && Some(token) !in s.world.floors
    requires SinceOf(CallStep(s, c, unused, token, read).calls[c]).Some?
    ensures var t := CallStep(s, c, unused, token, read);
            && s.calls[c].registry == t.calls[c].registry
            && (SinceOf(s.calls[c]) == SinceOf(t.calls[c])
                || (s.calls[c].InvBump? && t.world == Bump(s.world, token) && SinceOf(t.calls[c]) == Some(Current(s.world))))
  {
  }

  /** A `since` appears with the call's bump, as what is current then, and stays as it is. */
  lemma SinceStep(s: State, a: Action, c: Id)
    requires Inv(s) && Enabled(s, a) && c in Apply(s, a).calls && SinceOf(Apply(s, a).calls[c]).Some?
    ensures var t := Apply(s, a);
            || (&& c in s.calls && s.calls[c].registry == t.calls[c].registry
                && SinceOf(s.calls[c]) == SinceOf(t.calls[c]))
            || (Bumps(s, a, t, c, t.calls[c].registry) && SinceOf(t.calls[c]) == Some(Current(s.world)))
  {
    if a.StepCall? && a.call == c {
      SinceInCall(s, c, a.scan, a.token, a.read);
    } else {
      SinceElsewhere(s, a, c);
    }
  }

  lemma SinceElsewhere(s: State, a: Action, c: Id)
    requires s.world.marker in s.world.floors && Enabled(s, a) && c in Apply(s, a).calls && !(a.StepCall? && a.call == c)
    requires SinceOf(Apply(s, a).calls[c]).Some?
    ensures c in s.calls && s.calls[c] == Apply(s, a).calls[c]
  {
  }

  /** What a `since` stands for: every version there was when the call's own bump landed. */
  lemma {:induction false} SinceIsTheBump(states: seq<State>, acts: seq<Action>, k: nat, c: Id) returns (j: nat)
    requires IsRun(states, acts) && k < |states| && c in states[k].calls && SinceOf(states[k].calls[c]).Some?
    ensures j < k && Bumps(states[j], acts[j], states[j + 1], c, states[k].calls[c].registry)
    ensures SinceOf(states[k].calls[c]) == Some(Current(states[j].world))
    decreases k
  {
    assert k > 0;
    RunInv(states, acts, k - 1);
    assert states[k] == Apply(states[k - 1], acts[k - 1]);
    SinceStep(states[k - 1], acts[k - 1], c);
    if Bumps(states[k - 1], acts[k - 1], states[k], c, states[k].calls[c].registry)
       && SinceOf(states[k].calls[c]) == Some(Current(states[k - 1].world)) {
      j := k - 1;
    } else {
      j := SinceIsTheBump(states, acts, k - 1, c);
    }
  }

  /**
   * `invalidate` ends with a rebuild that saw every change made before its bump landed, at `j`,
   * whatever it had to wait for since.
   */
  lemma InvalidateRebuildsAfterItsBump(states: seq<State>, acts: seq<Action>, k: nat, c: Id) returns (j: nat)
    requires IsRun(states, acts) && k < |states| && c in states[k].calls && states[k].calls[c].InvAwait?
    requires var id := states[k].calls[c].scan;
             id in states[k].scans && states[k].scans[id].stage.Finished?
    ensures j < k && Bumps(states[j], acts[j], states[j + 1], c, states[k].calls[c].registry)
    ensures var scan := states[k].scans[states[k].calls[c].scan];
            FreshFrom(states[k].world, scan.stage.branches, scan.stage.asOf, Current(states[j].world))
  {
    j := SinceIsTheBump(states, acts, k, c);
    RunInv(states, acts, k);
    var s, call := states[k], states[k].calls[c];
    var scan := s.scans[call.scan];
    assert ScanOk(s.world, scan) && CallOk(s, call);
    CoversAll(scan.stage.asOf, scan.floor, call.since);
    FaithfulIsFresh(s.world, scan.stage.branches, scan.stage.asOf, call.since);
  }

  /** A snapshot from a rebuild that read an older token is never served again, however late it lands. */
  lemma LateSnapshotIsStale(s: State, snap: Snapshot, token: Token, read: MarkerRead)
    requires Inv(s) && s.file == Stored(snap) && Some(token) !in s.world.floors
    requires MayRead(Bump(s.world, token), read)
    ensures !IsCurrent(snap.generation, read)
  {
  }

  /** Once changes stop and their bumps have landed, a served snapshot is the branches there are. */
  lemma QuietRegistryIsExact(w: World<Doc>, branches: Listing, asOf: Versions)
    requires WorldOk(w) && FreshFrom(w, branches, asOf, Landed(w)) && Landed(w) == Current(w)
    ensures forall k, c :: (k, c) in branches <==> (!Hidden(k) && Latest(w, k) == Some(Meta(c)))
  {
    forall k, c ensures (k, c) in branches <==> (!Hidden(k) && Latest(w, k) == Some(Meta(c))) {
      assert Seen(Landed(w), k) == Seen(Current(w), k);
    }
  }

  // --- Undisturbed ------------------------------------------------------------------------------------

  /** A snapshot whose token is the marker's is served as it is, and nothing is rebuilt. */
  lemma WarmListIsServed(s: State, c: Id, unused: Id, token: Token, r: Id, snap: Snapshot)
    requires Inv(s) && c in s.calls && s.calls[c] == ListRead(r) && s.file == Stored(snap)
    requires snap.generation == s.world.marker
    ensures var t := CallStep(s, c, unused, token, Read(s.world.marker));
            && c in t.calls && t.world == s.world
            && CallStep(t, c, unused, token, Read(s.world.marker))
               == s.(calls := s.calls[c := Listed(r, snap.branches, snap.asOf)])
  {
  }

  /** Without one, a rebuild is joined, or started where none is in flight. */
  lemma ColdListRebuilds(s: State, c: Id, unused: Id, token: Token, r: Id, read: MarkerRead)
    requires Inv(s) && c in s.calls && unused !in s.scans
    requires (s.calls[c] == ListRead(r) && !s.file.Stored?)
             || (s.calls[c].ListMark? && s.calls[c].registry == r && !IsCurrent(s.calls[c].snap.generation, read))
    ensures var t := CallStep(s, c, unused, token, read);
            && r in t.inFlight && t.calls == s.calls[c := ListAwait(r, t.inFlight[r])]
            && (r in s.inFlight ==> t.inFlight == s.inFlight && t.scans == s.scans)
            && (r !in s.inFlight ==>
                  t.inFlight == s.inFlight[r := unused] && t.scans == s.scans[unused := Scan(r, Unreadable, Landed(s.world), Started)])
  {
  }

  function ScanAlone(s: State, id: Id, read: MarkerRead, listing: seq<Key>, k: nat): (t: State)
    requires id in s.scans && s.world.marker in s.world.floors
    ensures id in t.scans && t.world == s.world
  {
    if k == 0 then s else ScanStep(ScanAlone(s, id, read, listing, k - 1), id, read, listing, false)
  }

  lemma {:induction false} ScanAloneOn(s: State, id: Id, read: MarkerRead, listing: seq<Key>, i: nat, j: nat)
    requires id in s.scans && s.world.marker in s.world.floors
    ensures ScanAlone(s, id, read, listing, i + j) == ScanAlone(ScanAlone(s, id, read, listing, i), id, read, listing, j)
  {
    hide ScanStep;
    if j > 0 {
      ScanAloneOn(s, id, read, listing, i, j - 1);
      SameScanStep(ScanAlone(s, id, read, listing, i + j - 1),
                   ScanAlone(ScanAlone(s, id, read, listing, i), id, read, listing, j - 1), id, read, listing);
    }
  }

  lemma SameScanStep(s: State, t: State, id: Id, read: MarkerRead, listing: seq<Key>)
    requires s == t && id in s.scans && s.world.marker in s.world.floors
    ensures ScanStep(s, id, read, listing, false) == ScanStep(t, id, read, listing, false)
  {
  }

  /** The scan of `s` has got on to another stage, and that is all. */
  ghost predicate OnlyScan(s: State, t: State, id: Id)
    requires id in s.scans && id in t.scans
  {
    t == s.(scans := s.scans[id := s.scans[id].(stage := t.scans[id].stage)])
  }

  lemma OneRead(s: State, id: Id, read: MarkerRead, listing: seq<Key>)
    requires Inv(s) && Enabled(s, StepScan(id, read, listing, false)) && s.scans[id].stage.Reading?
    requires Covers(s.scans[id].stage.asOf, Current(s.world)) && s.scans[id].stage.rest != []
    ensures var t := ScanStep(s, id, read, listing, false);
            && Inv(t) && id in t.scans && OnlyScan(s, t, id) && t.scans[id].stage.Reading?
            && t.scans[id].stage.rest == s.scans[id].stage.rest[1..]
            && Covers(t.scans[id].stage.asOf, Current(s.world))
  {
    ScanKeeps(s, id, read, listing, false);
    var stage := s.scans[id].stage;
    ReadNextCovers(s.world, stage.rest, stage.branches, stage.asOf);
  }

  /** The scan of `t` is that of `s` after `k` more reads. */
  ghost predicate ReadOn(s: State, t: State, id: Id, k: nat)
    requires id in s.scans && s.scans[id].stage.Reading? && k <= |s.scans[id].stage.rest|
  {
    && Inv(t) && id in t.scans && OnlyScan(s, t, id) && t.scans[id].stage.Reading?
    && t.scans[id].stage.rest == s.scans[id].stage.rest[k..]
    && Covers(t.scans[id].stage.asOf, Current(s.world))
  }

  lemma ReadOneMore(s: State, t: State, id: Id, read: MarkerRead, listing: seq<Key>, k: nat)
    requires Inv(s) && Enabled(s, StepScan(id, read, listing, false)) && s.scans[id].stage.Reading?
    requires k < |s.scans[id].stage.rest| && ReadOn(s, t, id, k)
    ensures ReadOn(s, ScanStep(t, id, read, listing, false), id, k + 1)
  {
    OneRead(t, id, read, listing);
  }

  lemma {:induction false} ReadingAlone(s: State, id: Id, read: MarkerRead, listing: seq<Key>, k: nat)
    requires Inv(s) && Enabled(s, StepScan(id, read, listing, false)) && s.scans[id].stage.Reading?
    requires Covers(s.scans[id].stage.asOf, Current(s.world)) && k <= |s.scans[id].stage.rest|
    ensures ReadOn(s, ScanAlone(s, id, read, listing, k), id, k)
  {
    if k > 0 {
      ReadingAlone(s, id, read, listing, k - 1);
      ReadOneMore(s, ScanAlone(s, id, read, listing, k - 1), id, read, listing, k - 1);
    }
  }

  lemma ReadNextCovers(w: World<Doc>, rest: seq<Key>, branches: Listing, asOf: Versions)
    requires rest != [] && Covers(asOf, Current(w))
    ensures ReadNext(w, rest, branches, asOf).Reading? && ReadNext(w, rest, branches, asOf).rest == rest[1..]
    ensures Covers(ReadNext(w, rest, branches, asOf).asOf, Current(w))
  {
    var next := ReadNext(w, rest, branches, asOf);
    forall k ensures Seen(Current(w), k) <= Seen(next.asOf, k) {
      assert Seen(Current(w), k) <= Seen(asOf, k);
    }
  }

  lemma BeforeReading(s: State, id: Id, listing: seq<Key>)
    requires Inv(s) && Enabled(s, StepScan(id, Read(s.world.marker), listing, false)) && s.scans[id].stage.Started?
    ensures var t := ScanAlone(s, id, Read(s.world.marker), listing, 2);
            && Inv(t) && Enabled(t, StepScan(id, Read(s.world.marker), listing, false))
            && t == s.(scans := s.scans[id := Scan(s.scans[id].registry, Read(s.world.marker), Landed(s.world),
                                                 Reading(listing, [], Current(s.world)))])
  {
    var read := Read(s.world.marker);
    assert ScanAlone(s, id, read, listing, 0) == s;
    ScanKeeps(s, id, read, listing, false);
    var one := ScanAlone(s, id, read, listing, 1);
    assert one == ScanStep(s, id, read, listing, false);
    ScanKeeps(one, id, read, listing, false);
  }

  /**
   * A rebuild nothing interferes with stores what it lists, under the marker's token, and what it
   * lists is exactly the branches there are.
   */
  lemma RebuildAlone(s: State, id: Id, listing: seq<Key>) returns (t: State)
    requires Inv(s) && Enabled(s, StepScan(id, Read(s.world.marker), listing, false)) && s.scans[id].stage.Started?
    ensures t == ScanAlone(s, id, Read(s.world.marker), listing, |listing| + 4)
    ensures id in t.scans && t.scans[id].stage.Finished? && t.inFlight == s.inFlight - {s.scans[id].registry}
    ensures t.file == Stored(Snapshot(t.scans[id].stage.branches, s.world.marker, t.scans[id].stage.asOf))
    ensures forall k, c :: (k, c) in t.scans[id].stage.branches <==> (!Hidden(k) && Latest(s.world, k) == Some(Meta(c)))
  {
    var read, n := Read(s.world.marker), |listing|;
    ThroughReading(s, id, listing);
    var done := ScanAlone(s, id, read, listing, 2 + n);
    AfterReading(done, id, read, listing);
    ScanAloneOn(s, id, read, listing, 2 + n, 2);
    t := ScanAlone(s, id, read, listing, n + 4);
  }

  /** A scan that has read everything it listed, as of now. */
  ghost predicate ReadUp(s: State, id: Id, read: MarkerRead) {
    && Inv(s) && id in s.scans && s.scans[id].stage.Reading? && s.scans[id].stage.rest == []
    && s.scans[id].read == read && Covers(s.scans[id].stage.asOf, Current(s.world))
  }

  lemma ReadAllListed(s: State, id: Id, listing: seq<Key>)
    requires Inv(s) && Enabled(s, StepScan(id, Read(s.world.marker), listing, false))
    requires s.scans[id].read == Read(s.world.marker) && s.scans[id].stage == Reading(listing, [], Current(s.world))
    ensures var done := ScanAlone(s, id, Read(s.world.marker), listing, |listing|);
            && ReadUp(done, id, Read(s.world.marker))
            && done.inFlight == s.inFlight && done.scans[id].registry == s.scans[id].registry
  {
    ReadingAlone(s, id, Read(s.world.marker), listing, |listing|);
  }

  lemma ThroughReading(s: State, id: Id, listing: seq<Key>)
    requires Inv(s) && Enabled(s, StepScan(id, Read(s.world.marker), listing, false)) && s.scans[id].stage.Started?
    ensures var done := ScanAlone(s, id, Read(s.world.marker), listing, 2 + |listing|);
            && ReadUp(done, id, Read(s.world.marker))
            && done.inFlight == s.inFlight && done.scans[id].registry == s.scans[id].registry
  {
    var read := Read(s.world.marker);
    BeforeReading(s, id, listing);
    ReadAllListed(ScanAlone(s, id, read, listing, 2), id, listing);
    ScanAloneOn(s, id, read, listing, 2, |listing|);
  }

  lemma AfterReading(s: State, id: Id, read: MarkerRead, listing: seq<Key>)
    requires ReadUp(s, id, Read(s.world.marker))
    ensures var t, scan := ScanAlone(s, id, read, listing, 2), s.scans[id];
            && t.scans[id].stage == Finished(scan.stage.branches, scan.stage.asOf)
            && t.inFlight == s.inFlight - {scan.registry}
            && t.file == Stored(Snapshot(scan.stage.branches, s.world.marker, scan.stage.asOf))
    ensures forall k, c :: (k, c) in s.scans[id].stage.branches <==> (!Hidden(k) && Latest(s.world, k) == Some(Meta(c)))
  {
    var stage := s.scans[id].stage;
    assert ScanOk(s.world, s.scans[id]);
    FaithfulIsExact(s.world, stage.branches, stage.asOf);
    assert ScanAlone(s, id, read, listing, 0) == s;
    assert ScanAlone(s, id, read, listing, 1)
           == s.(scans := s.scans[id := s.scans[id].(stage := Persisting(stage.branches, stage.asOf))]);
  }

  lemma FaithfulIsExact(w: World<Doc>, branches: Listing, asOf: Versions)
    requires Faithful(w, branches, asOf, []) && Covers(asOf, Current(w))
    ensures forall k, c :: (k, c) in branches <==> (!Hidden(k) && Latest(w, k) == Some(Meta(c)))
  {
    forall k, c ensures (k, c) in branches <==> (!Hidden(k) && Latest(w, k) == Some(Meta(c))) {
      assert Seen(asOf, k) == Seen(Current(w), k);
    }
  }
}
