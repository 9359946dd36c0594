/**
 * The per-branch schema cache: one file replaced only by rename, and in each process a
 * memo of the entry parsed from it, keyed by the file's identity. Entries carry the
 * marker token read before their resolve and the fingerprint of the registry used.
 */
module SchemaCache {
  import opened Options
  import opened GenerationMarker

  type Id = nat
  // device, inode, size and mtime of one version of the file; never reused.
  type Identity = nat
  type Fingerprint = string

  const SCHEMA_CACHE_VERSION: nat := 4

  datatype Doc = NoFile | Text(content: string)

  // What a resolve made of these collection files under this registry.
  datatype Schema = Resolved(registry: Fingerprint, files: map<Key, string>)

  // `asOf` is the version of each file the schema was resolved from.
  datatype Entry = Entry(version: nat, schema: Schema, generation: Option<Token>, registry: Fingerprint, asOf: Versions)

  // The text of a cache file: an entry printed as JSON, or something else.
  datatype Body = Printed(entry: Entry) | Junk

  datatype Outcome =
    | Served(entry: Entry, identity: Identity)
    | Fresh(schema: Schema, asOf: Versions, floor: Versions)
    | NoSchema

  datatype Task =
    | Opening
    | Opened(identity: Identity)
    | Parsed(identity: Identity, entry: Entry)
    | Capturing
    | Resolving(read: MarkerRead, floor: Versions)
    | Scanning(read: MarkerRead, floor: Versions, rest: seq<Key>, files: map<Key, string>, asOf: Versions)
    | Renaming(floor: Versions, schema: Schema, asOf: Versions, identity: Identity)
    | Answered(outcome: Outcome)

  // A process serving one registry; the memo may lose its entry at any time.
  datatype Process = Process(registry: Fingerprint, memo: Option<(Identity, Entry)>, tasks: map<Id, Task>)

  datatype State = State(
    world: World<Doc>,
    // Every file version ever written, and the one at the cache path.
    store: map<Identity, Body>,
    file: Option<Identity>,
    processes: map<Id, Process>
  )

  datatype Choice = Choice(read: MarkerRead, listing: seq<Key>, identity: Identity, stale: bool, broken: bool)

  datatype Action =
    | Change(k: Key, doc: Doc)
    | BumpElsewhere(token: Token)
    // Another release, or anyone else, replaces the file.
    | Replace(identity: Identity, body: Body)
    | RemoveFile
    | Boot(p: Id, registry: Fingerprint)
    | Evict(p: Id)
    | Call(p: Id, task: Id)
    // The eager re-resolve after an invalidation: never through the cache.
    | ResolveAgain(p: Id, task: Id)
    | Step(p: Id, task: Id, ch: Choice)
    | Crash(p: Id)

  /** `JSON.parse` of a body; `json` is what printing and parsing does to a schema. */
  function Parse(body: Body, json: Schema -> Schema): Option<Entry> {
    if body.Printed? then Some(body.entry.(schema := json(body.entry.schema))) else None
  }

  function TextAt(w: World<Doc>, k: Key, n: nat): Option<string> {
    var d := DocAt(w, k, n);
    if d.Some? && d.value.Text? then Some(d.value.content) else None
  }

  // --- One call ------------------------------------------------------------------------------------

  function At(s: State, p: Id, t: Id, task: Task): State
    requires p in s.processes
  {
    s.(processes := s.processes[p := s.processes[p].(tasks := s.processes[p].tasks[t := task])])
  }

  function Remember(s: State, p: Id, identity: Identity, entry: Entry): State
    requires p in s.processes
  {
    s.(processes := s.processes[p := s.processes[p].(memo := Some((identity, entry)))])
  }

  /** `readSnapshot` on an open handle: the memo when it is of this version, else the parsed body. */
  function Load(s: State, p: Id, t: Id, identity: Identity, json: Schema -> Schema): State
    requires p in s.processes && identity in s.store
  {
    var memo := s.processes[p].memo;
    if memo.Some? && memo.value.0 == identity then At(s, p, t, Parsed(identity, memo.value.1))
    else
      var entry := Parse(s.store[identity], json);
      if entry.None? then At(s, p, t, Capturing)
      else At(Remember(s, p, identity, entry.value), p, t, Parsed(identity, entry.value))
  }

  predicate Servable(s: State, p: Id, entry: Entry, ch: Choice)
    requires p in s.processes
  {
    && entry.version == SCHEMA_CACHE_VERSION
    && entry.registry == s.processes[p].registry
    && IsCurrent(entry.generation, ch.read)
    && !ch.stale
  }

  function ScanNext(w: World<Doc>, task: Task): Task
    requires task.Scanning? && task.rest != []
  {
    var k := task.rest[0];
    var now := Seen(Current(w), k);
    var text := TextAt(w, k, now);
    task.(rest := task.rest[1..], asOf := task.asOf[k := now],
          files := if text.Some? then task.files[k := text.value] else task.files)
  }

  function NewEntry(read: MarkerRead, schema: Schema, asOf: Versions): Entry
    requires read.Read?
  {
    Entry(SCHEMA_CACHE_VERSION, schema, read.token, schema.registry, asOf)
  }

  /** The end of a resolve: an unreadable marker persists nothing, else a temp file is written. */
  function Finish(s: State, p: Id, t: Id, task: Task, ch: Choice): State
    requires p in s.processes && task.Scanning?
  {
    var schema := Resolved(s.processes[p].registry, task.files);
    if ch.broken then At(s, p, t, Answered(NoSchema))
    else if task.read.Unreadable? then At(s, p, t, Answered(Fresh(schema, task.asOf, task.floor)))
    else At(s.(store := s.store[ch.identity := Printed(NewEntry(task.read, schema, task.asOf))]), p, t,
            Renaming(task.floor, schema, task.asOf, ch.identity))
  }

  function TaskStep(s: State, p: Id, t: Id, ch: Choice, json: Schema -> Schema): State
    requires p in s.processes && t in s.processes[p].tasks
    requires s.world.marker in s.world.floors
    requires forall id :: s.file == Some(id) ==> id in s.store
    requires s.processes[p].tasks[t].Opened? ==> s.processes[p].tasks[t].identity in s.store
    requires s.processes[p].tasks[t].Renaming? ==> s.processes[p].tasks[t].identity in s.store
  {
    var w, task := s.world, s.processes[p].tasks[t];
    match task
    case Opening => At(s, p, t, if s.file.Some? && !ch.broken then Opened(s.file.value) else Capturing)
    case Opened(identity) => Load(s, p, t, identity, json)
    case Parsed(identity, entry) =>
      At(s, p, t, if Servable(s, p, entry, ch) then Answered(Served(entry, identity)) else Capturing)
    case Capturing => At(s, p, t, Resolving(ch.read, Landed(w)))
    case Resolving(read, floor) => At(s, p, t, Scanning(read, floor, ch.listing, map[], Current(w)))
    case Scanning(_, _, rest, _, _) =>
      if rest != [] then At(s, p, t, ScanNext(w, task)) else Finish(s, p, t, task, ch)
    case Renaming(floor, schema, asOf, identity) =>
      if ch.broken then At(s, p, t, Answered(NoSchema))
      else
        var moved := s.(file := Some(identity));
        var entry := Parse(s.store[identity], json);
        At(if entry.Some? then Remember(moved, p, identity, entry.value) else moved, p, t,
           Answered(Fresh(schema, asOf, floor)))
    case Answered(_) => s
  }

  ghost predicate Enabled(s: State, a: Action) {
    match a
    case BumpElsewhere(t) => Some(t) !in s.world.floors
    case Replace(id, body) => id !in s.store && (body.Printed? ==> body.entry.version != SCHEMA_CACHE_VERSION)
    case Boot(p, _) => p !in s.processes
    case Evict(p) => p in s.processes
    case Call(p, t) => p in s.processes && t !in s.processes[p].tasks
    case ResolveAgain(p, t) => p in s.processes && t !in s.processes[p].tasks
    case Step(p, t, ch) =>
      && p in s.processes && t in s.processes[p].tasks
      && MayRead(s.world, ch.read) && ch.identity !in s.store
      && Distinct(ch.listing)
      && forall k :: k in ch.listing <==> TextAt(s.world, k, Seen(Current(s.world), k)).Some?
    case _ => true
  }

  function Apply(s: State, a: Action, json: Schema -> Schema): State
    requires Enabled(s, a) && s.world.marker in s.world.floors
    requires StoreOk(s)
  {
    match a
    case Change(k, d) => s.(world := Mutate(s.world, k, d))
    case BumpElsewhere(t) => s.(world := Bump(s.world, t))
    case Replace(id, body) => s.(store := s.store[id := body], file := Some(id))
    case RemoveFile => s.(file := None)
    case Boot(p, registry) => s.(processes := s.processes[p := Process(registry, None, map[])])
    case Evict(p) => s.(processes := s.processes[p := s.processes[p].(memo := None)])
    case Call(p, t) => At(s, p, t, Opening)
    case ResolveAgain(p, t) => At(s, p, t, Capturing)
    case Step(p, t, ch) => TaskStep(s, p, t, ch, json)
    case Crash(p) => s.(processes := s.processes - {p})
  }

  // --- The invariant --------------------------------------------------------------------------------

  ghost predicate StoreOk(s: State) {
    && (s.file.Some? ==> s.file.value in s.store)
    && forall p, t :: p in s.processes && t in s.processes[p].tasks ==>
         var task := s.processes[p].tasks[t];
         task.Opened? || task.Parsed? || task.Renaming? ==> task.identity in s.store
  }

  /** Files are exactly those of the versions they were read from. */
  ghost predicate Faithful(w: World<Doc>, files: map<Key, string>, asOf: Versions, but: seq<Key>) {
    && (forall k :: Seen(asOf, k) <= Seen(Current(w), k))
    && (forall k :: k in files <==> k !in but && TextAt(w, k, Seen(asOf, k)).Some?)
    && (forall k :: k in files ==> TextAt(w, k, Seen(asOf, k)) == Some(files[k]))
  }

  /** A printed entry of this release was resolved by its protocol. */
  ghost predicate EntryOk(w: World<Doc>, e: Entry) {
    && e.generation in w.floors
    && Covers(e.asOf, w.floors[e.generation])
    && e.schema.registry == e.registry
    && Faithful(w, e.schema.files, e.asOf, [])
  }

  ghost predicate BodyOk(w: World<Doc>, body: Body) {
    body.Printed? && body.entry.version == SCHEMA_CACHE_VERSION ==> EntryOk(w, body.entry)
  }

  ghost predicate IsBodyOf(s: State, identity: Identity, entry: Entry, json: Schema -> Schema) {
    identity in s.store && Parse(s.store[identity], json) == Some(entry)
  }

  ghost predicate CapturedOk(w: World<Doc>, read: MarkerRead, floor: Versions)
    requires w.marker in w.floors
  {
    && Covers(Landed(w), floor)
    && (read.Read? ==> read.token in w.floors && w.floors[read.token] == floor)
  }

  ghost predicate TaskOk(s: State, p: Process, task: Task, json: Schema -> Schema)
    requires s.world.marker in s.world.floors
  {
    match task
    case Parsed(identity, entry) => IsBodyOf(s, identity, entry, json)
    case Resolving(read, floor) => CapturedOk(s.world, read, floor)
    case Scanning(read, floor, rest, files, asOf) =>
      CapturedOk(s.world, read, floor) && Covers(asOf, floor) && Faithful(s.world, files, asOf, rest) && Distinct(rest)
    case Renaming(floor, schema, asOf, _) =>
      schema.registry == p.registry && Covers(asOf, floor) && Faithful(s.world, schema.files, asOf, [])
    case Answered(Fresh(schema, asOf, floor)) =>
      schema.registry == p.registry && Covers(asOf, floor) && Faithful(s.world, schema.files, asOf, [])
    case _ => true
  }

  ghost predicate ProcessOk(s: State, p: Process, json: Schema -> Schema)
    requires s.world.marker in s.world.floors
  {
    && (p.memo.Some? ==> IsBodyOf(s, p.memo.value.0, p.memo.value.1, json))
    && (forall t :: t in p.tasks ==> TaskOk(s, p, p.tasks[t], json))
  }

  ghost predicate Inv(s: State, json: Schema -> Schema) {
    && WorldOk(s.world)
    && StoreOk(s)
    && (forall id :: id in s.store ==> BodyOk(s.world, s.store[id]))
    && (forall p :: p in s.processes ==> ProcessOk(s, s.processes[p], json))
  }

  ghost predicate Init(s: State) {
    && WorldOk(s.world) && s.store == map[] && s.file.None? && s.processes == map[]
  }

  // --- Preservation ---------------------------------------------------------------------------------

  lemma FaithfulStays(v: World<Doc>, w: World<Doc>, files: map<Key, string>, asOf: Versions, but: seq<Key>)
    requires Grows(v, w) && Faithful(v, files, asOf, but)
    ensures Faithful(w, files, asOf, but)
  {
    forall k ensures TextAt(w, k, Seen(asOf, k)) == TextAt(v, k, Seen(asOf, k)) && Seen(asOf, k) <= Seen(Current(w), k) {
      DocStays(v, w, k, Seen(asOf, k));
    }
  }

  ghost predicate StoreGrows(s: State, t: State) {
    forall id :: id in s.store ==> id in t.store && t.store[id] == s.store[id]
  }

  lemma TaskStays(s: State, t: State, p: Process, task: Task, json: Schema -> Schema)
    requires s.world.marker in s.world.floors && TaskOk(s, p, task, json)
    requires Grows(s.world, t.world) && StoreGrows(s, t)
    ensures TaskOk(t, p, task, json)
  {
    match task
    case Resolving(_, floor) => CoversAll(Landed(t.world), Landed(s.world), floor);
    case Scanning(_, floor, rest, files, asOf) =>
      CoversAll(Landed(t.world), Landed(s.world), floor);
      FaithfulStays(s.world, t.world, files, asOf, rest);
    case Renaming(_, schema, asOf, _) => FaithfulStays(s.world, t.world, schema.files, asOf, []);
    case Answered(Fresh(schema, asOf, _)) => FaithfulStays(s.world, t.world, schema.files, asOf, []);
    case _ =>
  }

  lemma ProcessStays(s: State, t: State, p: Process, json: Schema -> Schema)
    requires s.world.marker in s.world.floors && ProcessOk(s, p, json)
    requires Grows(s.world, t.world) && StoreGrows(s, t)
    ensures ProcessOk(t, p, json)
  {
    forall i | i in p.tasks ensures TaskOk(t, p, p.tasks[i], json) {
      TaskStays(s, t, p, p.tasks[i], json);
    }
  }

  /** Documents change, tokens are written, files appear; no process moves. */
  lemma AroundKeeps(s: State, t: State, json: Schema -> Schema)
    requires Inv(s, json) && WorldOk(t.world) && Grows(s.world, t.world) && StoreGrows(s, t)
    requires t.processes == s.processes && (t.file.Some? ==> t.file.value in t.store)
    requires forall id :: id in t.store && id !in s.store ==> BodyOk(t.world, t.store[id])
    ensures Inv(t, json)
  {
    forall p | p in t.processes ensures ProcessOk(t, t.processes[p], json) {
      ProcessStays(s, t, s.processes[p], json);
    }
    forall id | id in t.store ensures BodyOk(t.world, t.store[id]) {
      if id in s.store && t.store[id].Printed? && t.store[id].entry.version == SCHEMA_CACHE_VERSION {
        assert BodyOk(s.world, s.store[id]);
        var e := t.store[id].entry;
        FaithfulStays(s.world, t.world, e.schema.files, e.asOf, []);
      }
    }
  }

  lemma AtKeeps(s: State, p: Id, t: Id, task: Task, json: Schema -> Schema)
    requires Inv(s, json) && p in s.processes && TaskOk(s, s.processes[p], task, json)
    requires task.Opened? || task.Parsed? || task.Renaming? ==> task.identity in s.store
    ensures Inv(At(s, p, t, task), json)
  {
    var u := At(s, p, t, task);
    Stays(s.world);
    forall q | q in u.processes ensures ProcessOk(u, u.processes[q], json) {
      if q == p {
        forall i | i in u.processes[p].tasks ensures TaskOk(u, u.processes[p], u.processes[p].tasks[i], json) {
          TaskStays(s, u, s.processes[p], u.processes[p].tasks[i], json);
        }
      } else {
        ProcessStays(s, u, s.processes[q], json);
      }
    }
  }

  lemma RememberKeeps(s: State, p: Id, identity: Identity, entry: Entry, json: Schema -> Schema)
    requires Inv(s, json) && p in s.processes && IsBodyOf(s, identity, entry, json)
    ensures Inv(Remember(s, p, identity, entry), json)
  {
    var u := Remember(s, p, identity, entry);
    Stays(s.world);
    forall q | q in u.processes ensures ProcessOk(u, u.processes[q], json) {
      if q == p {
        forall i | i in s.processes[p].tasks ensures TaskOk(u, u.processes[p], s.processes[p].tasks[i], json) {
          TaskStays(s, u, s.processes[p], s.processes[p].tasks[i], json);
        }
      } else {
        ProcessStays(s, u, s.processes[q], json);
      }
    }
  }

  lemma LoadKeeps(s: State, p: Id, t: Id, identity: Identity, json: Schema -> Schema)
    requires Inv(s, json) && p in s.processes && identity in s.store
    ensures Inv(Load(s, p, t, identity, json), json)
  {
    var memo, entry := s.processes[p].memo, Parse(s.store[identity], json);
    assert ProcessOk(s, s.processes[p], json);
    if memo.Some? && memo.value.0 == identity {
      AtKeeps(s, p, t, Parsed(identity, memo.value.1), json);
    } else if entry.None? {
      AtKeeps(s, p, t, Capturing, json);
    } else {
      RememberKeeps(s, p, identity, entry.value, json);
      AtKeeps(Remember(s, p, identity, entry.value), p, t, Parsed(identity, entry.value), json);
    }
  }

  lemma ScanNextOk(s: State, p: Process, task: Task, json: Schema -> Schema)
    requires WorldOk(s.world) && task.Scanning? && task.rest != [] && TaskOk(s, p, task, json)
    ensures TaskOk(s, p, ScanNext(s.world, task), json)
  {
    var w, next, k := s.world, ScanNext(s.world, task), task.rest[0];
    forall j ensures Seen(task.asOf, j) <= Seen(next.asOf, j) <= Seen(Current(w), j) {
    }
    CoversAll(next.asOf, task.asOf, task.floor);
    forall j ensures j in next.files <==> j !in next.rest && TextAt(w, j, Seen(next.asOf, j)).Some? {
      assert j in task.rest <==> j == k || j in task.rest[1..];
    }
    forall j | j in next.files ensures TextAt(w, j, Seen(next.asOf, j)) == Some(next.files[j]) {
    }
  }

  lemma ListingOk(s: State, p: Process, read: MarkerRead, floor: Versions, listing: seq<Key>, json: Schema -> Schema)
    requires WorldOk(s.world) && CapturedOk(s.world, read, floor) && Distinct(listing)
    requires forall k :: k in listing <==> TextAt(s.world, k, Seen(Current(s.world), k)).Some?
    ensures TaskOk(s, p, Scanning(read, floor, listing, map[], Current(s.world)), json)
  {
    assert Covers(Current(s.world), s.world.floors[s.world.marker]);
    CoversAll(Current(s.world), Landed(s.world), floor);
  }

  lemma FinishKeeps(s: State, p: Id, t: Id, task: Task, ch: Choice, json: Schema -> Schema)
    requires Inv(s, json) && p in s.processes && task.Scanning? && task.rest == []
    requires TaskOk(s, s.processes[p], task, json) && ch.identity !in s.store
    ensures Inv(Finish(s, p, t, task, ch), json)
  {
    var schema := Resolved(s.processes[p].registry, task.files);
    if ch.broken {
      AtKeeps(s, p, t, Answered(NoSchema), json);
    } else if task.read.Unreadable? {
      AtKeeps(s, p, t, Answered(Fresh(schema, task.asOf, task.floor)), json);
    } else {
      var u := s.(store := s.store[ch.identity := Printed(NewEntry(task.read, schema, task.asOf))]);
      Stays(s.world);
      AroundKeeps(s, u, json);
      AtKeeps(u, p, t, Renaming(task.floor, schema, task.asOf, ch.identity), json);
    }
  }

  lemma RenameKeeps(s: State, p: Id, t: Id, task: Task, ch: Choice, json: Schema -> Schema)
    requires Inv(s, json) && p in s.processes && t in s.processes[p].tasks && s.processes[p].tasks[t] == task
    requires task.Renaming? && task.identity in s.store
    ensures Inv(TaskStep(s, p, t, ch, json), json)
  {
    assert ProcessOk(s, s.processes[p], json) && TaskOk(s, s.processes[p], task, json);
    if ch.broken {
      AtKeeps(s, p, t, Answered(NoSchema), json);
    } else {
      var moved := s.(file := Some(task.identity));
      var entry := Parse(s.store[task.identity], json);
      Stays(s.world);
      AroundKeeps(s, moved, json);
      if entry.Some? {
        RememberKeeps(moved, p, task.identity, entry.value, json);
        AtKeeps(Remember(moved, p, task.identity, entry.value), p, t, Answered(Fresh(task.schema, task.asOf, task.floor)), json);
      } else {
        AtKeeps(moved, p, t, Answered(Fresh(task.schema, task.asOf, task.floor)), json);
      }
    }
  }

  lemma TaskKeeps(s: State, p: Id, t: Id, ch: Choice, json: Schema -> Schema)
    requires Inv(s, json) && Enabled(s, Step(p, t, ch))
    ensures Inv(TaskStep(s, p, t, ch, json), json)
  {
    var task := s.processes[p].tasks[t];
    assert ProcessOk(s, s.processes[p], json) && TaskOk(s, s.processes[p], task, json);
    match task
    case Opening => AtKeeps(s, p, t, if s.file.Some? && !ch.broken then Opened(s.file.value) else Capturing, json);
    case Opened(identity) => LoadKeeps(s, p, t, identity, json);
    case Parsed(identity, entry) =>
      AtKeeps(s, p, t, if Servable(s, p, entry, ch) then Answered(Served(entry, identity)) else Capturing, json);
    case Capturing => AtKeeps(s, p, t, Resolving(ch.read, Landed(s.world)), json);
    case Resolving(read, floor) =>
      ListingOk(s, s.processes[p], read, floor, ch.listing, json);
      AtKeeps(s, p, t, Scanning(read, floor, ch.listing, map[], Current(s.world)), json);
    case Scanning(_, _, rest, _, _) =>
      if rest != [] {
        ScanNextOk(s, s.processes[p], task, json);
        AtKeeps(s, p, t, ScanNext(s.world, task), json);
      } else {
        FinishKeeps(s, p, t, task, ch, json);
      }
    case Renaming(_, _, _, _) => RenameKeeps(s, p, t, task, ch, json);
    case Answered(_) =>
  }

  lemma StepKeeps(s: State, a: Action, json: Schema -> Schema)
    requires Inv(s, json) && Enabled(s, a)
    ensures Inv(Apply(s, a, json), json)
  {
    Stays(s.world);
    match a
    case Change(k, d) =>
      MutateGrows(s.world, k, d);
      AroundKeeps(s, Apply(s, a, json), json);
    case BumpElsewhere(t) =>
      BumpGrows(s.world, t);
      AroundKeeps(s, Apply(s, a, json), json);
    case Replace(_, _) => AroundKeeps(s, Apply(s, a, json), json);
    case RemoveFile => AroundKeeps(s, Apply(s, a, json), json);
    case Boot(_, _) => ProcessesKeep(s, a, json);
    case Evict(_) => ProcessesKeep(s, a, json);
    case Call(p, t) => AtKeeps(s, p, t, Opening, json);
    case ResolveAgain(p, t) => AtKeeps(s, p, t, Capturing, json);
    case Step(p, t, ch) => TaskKeeps(s, p, t, ch, json);
    case Crash(_) => ProcessesKeep(s, a, json);
  }

  lemma ProcessesKeep(s: State, a: Action, json: Schema -> Schema)
    requires Inv(s, json) && Enabled(s, a) && (a.Boot? || a.Evict? || a.Crash?)
    ensures Inv(Apply(s, a, json), json)
  {
    var t := Apply(s, a, json);
    Stays(s.world);
    forall q | q in t.processes ensures ProcessOk(t, t.processes[q], json) {
      if q in s.processes {
        ProcessStays(s, t, s.processes[q], json);
        forall i | i in t.processes[q].tasks ensures TaskOk(t, t.processes[q], t.processes[q].tasks[i], json) {
          TaskStays(s, t, s.processes[q], s.processes[q].tasks[i], json);
        }
      }
    }
  }

  // --- What a call answers ------------------------------------------------------------------------

  ghost predicate Follows(s: State, a: Action, t: State, json: Schema -> Schema) {
    s.world.marker in s.world.floors && StoreOk(s) && Enabled(s, a) && t == Apply(s, a, json)
  }

  ghost predicate IsRun(states: seq<State>, acts: seq<Action>, json: Schema -> Schema) {
    && |states| == |acts| + 1
    && Init(states[0])
    && forall k :: 0 <= k < |acts| ==> Follows(states[k], acts[k], states[k + 1], json)
  }

  lemma {:induction false} RunInv(states: seq<State>, acts: seq<Action>, json: Schema -> Schema, k: nat)
    requires IsRun(states, acts, json) && k < |states|
    ensures Inv(states[k], json)
  {
    if k > 0 {
      RunInv(states, acts, json, k - 1);
      assert Follows(states[k - 1], acts[k - 1], states[k], json);
      StepKeeps(states[k - 1], acts[k - 1], json);
    }
  }

  /** `schema` is of files at least as new as `floor`, and of the current text where nothing changed past it. */
  ghost predicate ResolvedSince(w: World<Doc>, schema: Schema, registry: Fingerprint, floor: Versions) {
    && schema.registry == registry
    && (forall k :: Seen(floor, k) == Seen(Current(w), k) ==>
          (k in schema.files <==> TextAt(w, k, Seen(Current(w), k)).Some?)
          && (k in schema.files ==> TextAt(w, k, Seen(Current(w), k)) == Some(schema.files[k])))
    && exists asOf :: Covers(asOf, floor) && Faithful(w, schema.files, asOf, [])
  }

  lemma FaithfulIsSince(w: World<Doc>, schema: Schema, registry: Fingerprint, asOf: Versions, floor: Versions)
    requires schema.registry == registry && Covers(asOf, floor) && Faithful(w, schema.files, asOf, [])
    ensures ResolvedSince(w, schema, registry, floor)
  {
    forall k | Seen(floor, k) == Seen(Current(w), k) ensures Seen(asOf, k) == Seen(Current(w), k) {
      assert Seen(floor, k) <= Seen(asOf, k);
    }
  }

  /**
   * A served snapshot was resolved against the registry this process runs, from files at least as
   * new as every change whose bump had landed when the marker was read, and differs from that
   * resolve only by being printed and parsed.
   */
  lemma ServedSnapshotIsFresh(states: seq<State>, acts: seq<Action>, json: Schema -> Schema, k: nat, p: Id, t: Id, ch: Choice)
    returns (schema: Schema)
    requires IsRun(states, acts, json) && k < |acts| && acts[k] == Step(p, t, ch)
    requires p in states[k].processes && t in states[k].processes[p].tasks && states[k].processes[p].tasks[t].Parsed?
    requires Servable(states[k], p, states[k].processes[p].tasks[t].entry, ch)
    ensures states[k].processes[p].tasks[t].entry.schema == json(schema)
    ensures states[k].world.marker in states[k].world.floors
    ensures ResolvedSince(states[k].world, schema, states[k].processes[p].registry, Landed(states[k].world))
  {
    RunInv(states, acts, json, k);
    var s := states[k];
    var task := s.processes[p].tasks[t];
    assert Follows(s, acts[k], states[k + 1], json);
    assert ProcessOk(s, s.processes[p], json) && TaskOk(s, s.processes[p], task, json);
    var e := s.store[task.identity].entry;
    assert BodyOk(s.world, s.store[task.identity]) && EntryOk(s.world, e);
    schema := e.schema;
    FaithfulIsSince(s.world, schema, s.processes[p].registry, e.asOf, Landed(s.world));
  }

  /** A resolve answers with files as new as what had landed when it read the marker, readable or not. */
  lemma FreshAnswerIsFresh(states: seq<State>, acts: seq<Action>, json: Schema -> Schema, k: nat, p: Id, t: Id)
    requires IsRun(states, acts, json) && k < |states| && p in states[k].processes && t in states[k].processes[p].tasks
    requires states[k].processes[p].tasks[t].Answered? && states[k].processes[p].tasks[t].outcome.Fresh?
    ensures var answer := states[k].processes[p].tasks[t].outcome;
            ResolvedSince(states[k].world, answer.schema, states[k].processes[p].registry, answer.floor)
  {
    RunInv(states, acts, json, k);
    var s, answer := states[k], states[k].processes[p].tasks[t].outcome;
    assert ProcessOk(s, s.processes[p], json) && TaskOk(s, s.processes[p], s.processes[p].tasks[t], json);
    FaithfulIsSince(s.world, answer.schema, s.processes[p].registry, answer.asOf, answer.floor);
  }

  /** With or without its memo, a process gets from an open file exactly what parsing that file gives. */
  lemma MemoIsTheParsedFile(states: seq<State>, acts: seq<Action>, json: Schema -> Schema, k: nat, p: Id, t: Id, identity: Identity)
    requires IsRun(states, acts, json) && k < |states| && p in states[k].processes && identity in states[k].store
    ensures var parsed := Parse(states[k].store[identity], json);
            var next := Load(states[k], p, t, identity, json);
            next.processes[p].tasks[t] == if parsed.Some? then Parsed(identity, parsed.value) else Capturing
  {
    RunInv(states, acts, json, k);
    assert ProcessOk(states[k], states[k].processes[p], json);
  }

  // --- Undisturbed ------------------------------------------------------------------------------------

  /** A fresh entry of this release and registry is served in three steps, memo or none, with nothing resolved. */
  lemma WarmCallServes(s: State, p: Id, t: Id, identity: Identity, entry: Entry, ch: Choice, json: Schema -> Schema)
    requires Inv(s, json) && p in s.processes && t in s.processes[p].tasks && s.processes[p].tasks[t].Opening?
    requires s.file == Some(identity) && Parse(s.store[identity], json) == Some(entry)
    requires entry.version == SCHEMA_CACHE_VERSION && entry.registry == s.processes[p].registry
    requires entry.generation == s.world.marker && ch.read == Read(s.world.marker) && !ch.stale && !ch.broken
    ensures var one := TaskStep(s, p, t, ch, json);
            && one == At(s, p, t, Opened(identity))
            && Load(s, p, t, identity, json).processes[p].tasks[t] == Parsed(identity, entry)
            && Servable(s, p, entry, ch)
  {
    assert ProcessOk(s, s.processes[p], json);
  }

  /** The end of a resolve nobody disturbs: the file is the new entry, under the token read before it, and so is the memo. */
  lemma ResolvePersists(s: State, p: Id, t: Id, ch: Choice, json: Schema -> Schema)
    requires Inv(s, json) && p in s.processes && t in s.processes[p].tasks && s.processes[p].tasks[t].Scanning?
    requires s.processes[p].tasks[t].rest == [] && s.processes[p].tasks[t].read.Read?
    requires !ch.broken && ch.identity !in s.store
    ensures var task := s.processes[p].tasks[t];
            var schema := Resolved(s.processes[p].registry, task.files);
            var entry := NewEntry(task.read, schema, task.asOf);
            var one := TaskStep(s, p, t, ch, json);
            && p in one.processes && t in one.processes[p].tasks && one.processes[p].tasks[t].Renaming?
            && one.world == s.world && one.file == s.file && one.store == s.store[ch.identity := Printed(entry)]
            && (var two := TaskStep(one, p, t, ch, json);
                && two.file == Some(ch.identity) && two.store == one.store
                && p in two.processes && t in two.processes[p].tasks
                && two.processes[p].memo == Some((ch.identity, entry.(schema := json(schema))))
                && two.processes[p].tasks[t] == Answered(Fresh(schema, task.asOf, task.floor)))
  {
  }
}
