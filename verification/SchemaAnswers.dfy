/** What a schema call answers and leaves when nobody disturbs it. */
module SchemaAnswers {
  import opened Options
  import opened GenerationMarker
  import opened SchemaCache

  /** Task `t` of `p` takes `k` steps, all with one choice, and no one else any. */
  ghost function Alone(s: State, p: Id, t: Id, ch: Choice, json: Schema -> Schema, k: nat): (u: State)
    requires p in s.processes && t in s.processes[p].tasks
    ensures p in u.processes && t in u.processes[p].tasks
  {
    if k == 0 then s else Onward(Alone(s, p, t, ch, json, k - 1), p, t, ch, json)
  }

  ghost function Onward(s: State, p: Id, t: Id, ch: Choice, json: Schema -> Schema): (u: State)
    requires p in s.processes && t in s.processes[p].tasks
    ensures p in u.processes && t in u.processes[p].tasks
  {
    if StoreOk(s) && s.world.marker in s.world.floors then TaskStep(s, p, t, ch, json) else s
  }

  /** A choice under which nothing fails: the marker as it is, the files there are, an unused identity. */
  ghost predicate Smooth(s: State, ch: Choice) {
    && ch.read == Read(s.world.marker) && !ch.stale && !ch.broken && ch.identity !in s.store && Distinct(ch.listing)
    && forall k :: k in ch.listing <==> TextAt(s.world, k, Seen(Current(s.world), k)).Some?
  }

  /** A task about to open the file, which holds what parses to `entry`. */
  ghost predicate Facing(s: State, p: Id, t: Id, json: Schema -> Schema, identity: Identity, entry: Entry) {
    && Inv(s, json) && p in s.processes && t in s.processes[p].tasks && s.processes[p].tasks[t] == Opening
    && s.file == Some(identity) && identity in s.store && Parse(s.store[identity], json) == Some(entry)
  }

  lemma {:induction false} AloneOn(s: State, p: Id, t: Id, ch: Choice, json: Schema -> Schema, i: nat, j: nat)
    requires p in s.processes && t in s.processes[p].tasks
    ensures Alone(s, p, t, ch, json, i + j) == Alone(Alone(s, p, t, ch, json, i), p, t, ch, json, j)
  {
    hide Onward;
    if j > 0 {
      AloneOn(s, p, t, ch, json, i, j - 1);
    }
  }

  lemma OneStep(s: State, p: Id, t: Id, ch: Choice, json: Schema -> Schema)
    requires Inv(s, json) && p in s.processes && t in s.processes[p].tasks
    ensures Alone(s, p, t, ch, json, 1) == TaskStep(s, p, t, ch, json)
  {
    assert Alone(s, p, t, ch, json, 0) == s;
  }

  lemma LoadedEntry(s: State, p: Id, t: Id, ch: Choice, json: Schema -> Schema, identity: Identity, entry: Entry)
    requires Facing(s, p, t, json, identity, entry) && Smooth(s, ch)
    ensures var u := Alone(s, p, t, ch, json, 2);
            && u.processes[p].tasks[t] == Parsed(identity, entry) && u.processes[p].registry == s.processes[p].registry
            && u.world == s.world && u.file == s.file && u.store == s.store && Inv(u, json)
  {
    assert Alone(s, p, t, ch, json, 0) == s;
    var one := Alone(s, p, t, ch, json, 1);
    TaskKeeps(s, p, t, ch, json);
    assert one == At(s, p, t, Opened(identity));
    TaskKeeps(one, p, t, ch, json);
    assert ProcessOk(s, s.processes[p], json);
  }

  /**
   * A call that finds an entry of this release and registry under the live token answers with it: with
   * exactly what parsing the file gives, and nothing is resolved or written.
   */
  lemma WarmCallAnswers(s: State, p: Id, t: Id, ch: Choice, json: Schema -> Schema, identity: Identity, entry: Entry)
    requires Facing(s, p, t, json, identity, entry) && Smooth(s, ch)
    requires entry.version == SCHEMA_CACHE_VERSION && entry.registry == s.processes[p].registry
    requires entry.generation == s.world.marker
    ensures var u := Alone(s, p, t, ch, json, 3);
            && u.processes[p].tasks[t] == Answered(Served(entry, identity))
            && u.world == s.world && u.file == s.file && u.store == s.store
  {
    LoadedEntry(s, p, t, ch, json, identity, entry);
    var two := Alone(s, p, t, ch, json, 2);
    assert Alone(s, p, t, ch, json, 3) == TaskStep(two, p, t, ch, json);
  }

  /** One of another release, another registry or another token is not answered with: the call resolves. */
  lemma StaleCallResolves(s: State, p: Id, t: Id, ch: Choice, json: Schema -> Schema, identity: Identity, entry: Entry)
    requires Facing(s, p, t, json, identity, entry) && Smooth(s, ch)
    requires entry.version != SCHEMA_CACHE_VERSION || entry.registry != s.processes[p].registry
             || entry.generation != s.world.marker
    ensures var u := Alone(s, p, t, ch, json, 3);
            && u.processes[p].tasks[t] == Capturing && u.processes[p].registry == s.processes[p].registry
            && u.world == s.world && u.file == s.file && u.store == s.store
  {
    LoadedEntry(s, p, t, ch, json, identity, entry);
    var two := Alone(s, p, t, ch, json, 2);
    assert Alone(s, p, t, ch, json, 3) == TaskStep(two, p, t, ch, json);
  }

  /** So does one that finds no file. */
  lemma ColdCallResolves(s: State, p: Id, t: Id, ch: Choice, json: Schema -> Schema)
    requires Inv(s, json) && p in s.processes && t in s.processes[p].tasks && s.processes[p].tasks[t] == Opening && s.file.None?
    ensures Alone(s, p, t, ch, json, 1) == At(s, p, t, Capturing)
  {
    OneStep(s, p, t, ch, json);
  }

  // --- A whole resolve --------------------------------------------------------------------------------

  /** Only task `t` has moved on since `s`: it is reading what it listed, and has what it read as that is now. */
  ghost predicate ReadingOn(s: State, u: State, p: Id, t: Id, json: Schema -> Schema, rest: seq<Key>) {
    && Inv(s, json) && p in s.processes && p in u.processes && t in u.processes[p].tasks
    && (var task := u.processes[p].tasks[t];
        && task.Scanning? && task.rest == rest && task.read == Read(s.world.marker) && task.floor == Landed(s.world)
        && Covers(task.asOf, Current(s.world)) && TaskOk(s, s.processes[p], task, json)
        && u == At(s, p, t, task))
  }

  lemma ReadingIsOk(s: State, u: State, p: Id, t: Id, json: Schema -> Schema, rest: seq<Key>)
    requires ReadingOn(s, u, p, t, json, rest)
    ensures Inv(u, json) && u.world == s.world && u.store == s.store && u.file == s.file
  {
    AtKeeps(s, p, t, u.processes[p].tasks[t], json);
  }

  lemma NextCovers(w: World<Doc>, task: Task)
    requires task.Scanning? && task.rest != [] && Covers(task.asOf, Current(w))
    ensures Covers(ScanNext(w, task).asOf, Current(w))
  {
    forall k ensures Seen(Current(w), k) <= Seen(ScanNext(w, task).asOf, k) {
      assert Seen(Current(w), k) <= Seen(task.asOf, k);
    }
  }

  lemma ReadOneMore(s: State, u: State, p: Id, t: Id, ch: Choice, json: Schema -> Schema, rest: seq<Key>)
    requires ReadingOn(s, u, p, t, json, rest) && rest != []
    ensures ReadingOn(s, Onward(u, p, t, ch, json), p, t, json, rest[1..])
  {
    ReadingIsOk(s, u, p, t, json, rest);
    var task := u.processes[p].tasks[t];
    NextCovers(s.world, task);
    ScanNextOk(s, s.processes[p], task, json);
    NextIs(s, u, p, t, ch, json);
  }

  lemma NextIs(s: State, u: State, p: Id, t: Id, ch: Choice, json: Schema -> Schema)
    requires p in s.processes && p in u.processes && t in u.processes[p].tasks && Inv(u, json)
    requires u == At(s, p, t, u.processes[p].tasks[t])
    requires u.processes[p].tasks[t].Scanning? && u.processes[p].tasks[t].rest != []
    ensures Onward(u, p, t, ch, json) == At(s, p, t, ScanNext(s.world, u.processes[p].tasks[t]))
  {
    var task := ScanNext(s.world, u.processes[p].tasks[t]);
    assert u.processes[p].tasks[t := task] == s.processes[p].tasks[t := task];
    assert u.processes[p := u.processes[p].(tasks := u.processes[p].tasks[t := task])]
           == s.processes[p := s.processes[p].(tasks := s.processes[p].tasks[t := task])];
  }

  lemma {:induction false} ReadsAll(s: State, u: State, p: Id, t: Id, ch: Choice, json: Schema -> Schema, rest: seq<Key>, k: nat)
    requires ReadingOn(s, u, p, t, json, rest) && k <= |rest|
    ensures ReadingOn(s, Alone(u, p, t, ch, json, k), p, t, json, rest[k..])
  {
    hide ReadingOn, Onward;
    assert p in u.processes && t in u.processes[p].tasks by { ReadingTask(s, u, p, t, json, rest); }
    if k == 0 {
      assert rest[0..] == rest;
    } else {
      ReadsAll(s, u, p, t, ch, json, rest, k - 1);
      var before := Alone(u, p, t, ch, json, k - 1);
      ReadOneMore(s, before, p, t, ch, json, rest[k - 1..]);
      assert rest[k - 1..][1..] == rest[k..];
    }
  }

  lemma ReadingTask(s: State, u: State, p: Id, t: Id, json: Schema -> Schema, rest: seq<Key>)
    requires ReadingOn(s, u, p, t, json, rest)
    ensures p in u.processes && t in u.processes[p].tasks
  {
  }

  /** A resolve starts by reading the marker, then lists the files. */
  lemma StartsReading(s: State, p: Id, t: Id, ch: Choice, json: Schema -> Schema)
    requires Inv(s, json) && p in s.processes && t in s.processes[p].tasks && s.processes[p].tasks[t] == Capturing && Smooth(s, ch)
    ensures ReadingOn(s, Alone(s, p, t, ch, json, 2), p, t, json, ch.listing)
  {
    var one := Alone(s, p, t, ch, json, 1);
    OneStep(s, p, t, ch, json);
    TaskKeeps(s, p, t, ch, json);
    assert one == At(s, p, t, Resolving(ch.read, Landed(s.world)));
    var task := Scanning(ch.read, Landed(s.world), ch.listing, map[], Current(s.world));
    assert CapturedOk(s.world, ch.read, Landed(s.world));
    ListingOk(s, s.processes[p], ch.read, Landed(s.world), ch.listing, json);
    TwoSteps(s, one, p, t, Resolving(ch.read, Landed(s.world)), task);
    assert Alone(s, p, t, ch, json, 2) == TaskStep(one, p, t, ch, json);
  }

  lemma TwoSteps(s: State, one: State, p: Id, t: Id, first: Task, second: Task)
    requires p in s.processes && one == At(s, p, t, first)
    ensures p in one.processes && At(one, p, t, second) == At(s, p, t, second)
  {
    assert one.processes[p].tasks[t := second] == s.processes[p].tasks[t := second];
    assert one.processes[p := one.processes[p].(tasks := one.processes[p].tasks[t := second])]
           == s.processes[p := s.processes[p].(tasks := s.processes[p].tasks[t := second])];
  }

  /** Exactly the collection files there are, as they are. */
  ghost predicate AreTheFiles(w: World<Doc>, files: map<Key, string>) {
    forall k ::
      && (k in files <==> TextAt(w, k, Seen(Current(w), k)).Some?)
      && (k in files ==> TextAt(w, k, Seen(Current(w), k)) == Some(files[k]))
  }

  lemma ReadUpIsExact(s: State, u: State, p: Id, t: Id, json: Schema -> Schema)
    requires ReadingOn(s, u, p, t, json, [])
    ensures AreTheFiles(s.world, u.processes[p].tasks[t].files)
  {
    var task := u.processes[p].tasks[t];
    forall k ensures Seen(task.asOf, k) == Seen(Current(s.world), k) {
    }
  }

  /** The end of a resolve that has read everything. */
  lemma EndsPersisted(s: State, u: State, p: Id, t: Id, ch: Choice, json: Schema -> Schema)
    requires ReadingOn(s, u, p, t, json, []) && Smooth(s, ch)
    ensures p in u.processes && t in u.processes[p].tasks
    ensures var task, done := u.processes[p].tasks[t], Alone(u, p, t, ch, json, 2);
            var schema := Resolved(s.processes[p].registry, task.files);
            var entry := Entry(SCHEMA_CACHE_VERSION, schema, s.world.marker, s.processes[p].registry, task.asOf);
            && done.processes[p].tasks[t] == Answered(Fresh(schema, task.asOf, Landed(s.world)))
            && done.file == Some(ch.identity) && done.store == s.store[ch.identity := Printed(entry)] && done.world == s.world
            && done.processes[p].memo == Some((ch.identity, entry.(schema := json(schema))))
  {
    ReadingIsOk(s, u, p, t, json, []);
    ResolvePersists(u, p, t, ch, json);
    var one := Alone(u, p, t, ch, json, 1);
    OneStep(u, p, t, ch, json);
    assert one.world == s.world && StoreOk(one) by { TaskKeeps(u, p, t, ch, json); }
    assert Alone(u, p, t, ch, json, 2) == TaskStep(one, p, t, ch, json);
  }

  /**
   * A resolve nobody disturbs answers with the schema of exactly the files there are, under the registry
   * of its process, and leaves that as the file, under the token read before it, and as the memo.
   */
  lemma WholeResolve(s: State, p: Id, t: Id, ch: Choice, json: Schema -> Schema) returns (schema: Schema, asOf: Versions)
    requires Inv(s, json) && p in s.processes && t in s.processes[p].tasks && s.processes[p].tasks[t] == Capturing && Smooth(s, ch)
    ensures schema.registry == s.processes[p].registry && AreTheFiles(s.world, schema.files)
    ensures var done := Alone(s, p, t, ch, json, |ch.listing| + 4);
            var entry := Entry(SCHEMA_CACHE_VERSION, schema, s.world.marker, s.processes[p].registry, asOf);
            && done.processes[p].tasks[t] == Answered(Fresh(schema, asOf, Landed(s.world)))
            && done.file == Some(ch.identity) && done.store == s.store[ch.identity := Printed(entry)] && done.world == s.world
            && done.processes[p].memo == Some((ch.identity, entry.(schema := json(schema))))
  {
    hide ReadingOn, Alone, Smooth, AreTheFiles;
    var n, two := |ch.listing|, Alone(s, p, t, ch, json, 2);
    StartsReading(s, p, t, ch, json);
    ReadsAll(s, two, p, t, ch, json, ch.listing, n);
    assert ch.listing[n..] == [];
    var read := Alone(two, p, t, ch, json, n);
    ReadingTask(s, read, p, t, json, []);
    ReadUpIsExact(s, read, p, t, json);
    EndsPersisted(s, read, p, t, ch, json);
    AloneOn(s, p, t, ch, json, 2, n);
    AloneOn(s, p, t, ch, json, 2 + n, 2);
    var task := read.processes[p].tasks[t];
    assert task.Scanning? by { ReadingScans(s, read, p, t, json, []); }
    schema, asOf := Resolved(s.processes[p].registry, task.files), task.asOf;
    assert 2 + n + 2 == n + 4;
  }

  lemma ReadingScans(s: State, u: State, p: Id, t: Id, json: Schema -> Schema, rest: seq<Key>)
    requires ReadingOn(s, u, p, t, json, rest)
    ensures p in u.processes && t in u.processes[p].tasks && u.processes[p].tasks[t].Scanning?
  {
  }

  /** A resolve that could not read the marker answers all the same, and leaves file, store and memo alone. */
  lemma UnreadablePersistsNothing(s: State, p: Id, t: Id, ch: Choice, json: Schema -> Schema)
    requires Inv(s, json) && p in s.processes && t in s.processes[p].tasks && s.processes[p].tasks[t].Scanning?
    requires s.processes[p].tasks[t].rest == [] && s.processes[p].tasks[t].read.Unreadable? && !ch.broken
    ensures var task := s.processes[p].tasks[t];
            Alone(s, p, t, ch, json, 1)
            == At(s, p, t, Answered(Fresh(Resolved(s.processes[p].registry, task.files), task.asOf, task.floor)))
  {
    OneStep(s, p, t, ch, json);
  }

  /** A file that cannot be opened, or does not parse, is resolved like none. */
  lemma UnusableFileResolves(s: State, p: Id, t: Id, ch: Choice, json: Schema -> Schema)
    requires Inv(s, json) && p in s.processes && t in s.processes[p].tasks
    requires var task := s.processes[p].tasks[t];
             (task == Opening && ch.broken) || (task.Opened? && task.identity in s.store && Parse(s.store[task.identity], json).None?)
    ensures Alone(s, p, t, ch, json, 1) == At(s, p, t, Capturing)
  {
    OneStep(s, p, t, ch, json);
  }

  /** A resolve that fails, in resolving or in storing, answers with an error and leaves the file in place. */
  lemma BrokenResolveFails(s: State, p: Id, t: Id, ch: Choice, json: Schema -> Schema)
    requires Inv(s, json) && p in s.processes && t in s.processes[p].tasks && ch.broken
    requires var task := s.processes[p].tasks[t]; task.Renaming? || (task.Scanning? && task.rest == [])
    ensures Alone(s, p, t, ch, json, 1) == At(s, p, t, Answered(NoSchema))
  {
    OneStep(s, p, t, ch, json);
  }
}
