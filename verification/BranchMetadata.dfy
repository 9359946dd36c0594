/**
 * branch.json under concurrent saves: each reads the file, computes an update from it
 * and writes only if the version is still the one it read, retrying when it is not.
 */
module BranchMetadata {
  import opened Options

  type Id = nat
  type User = string

  // An update leaves a field alone or sets it, to a value or to nothing.
  datatype Field<T> = Keep | Put(value: T)

  datatype Branch = Branch(
    createdBy: string,
    createdAt: string,
    baseBranch: Option<string>,
    editors: seq<User>,
    uncommittedEditors: seq<User>,
    // Name, status, access and the other fields, by key.
    others: map<string, string>,
    updatedAt: string
  )

  datatype File = File(version: nat, branch: Branch)

  datatype Update = Update(
    createdBy: Field<string>,
    baseBranch: Field<string>,
    editors: Field<seq<User>>,
    uncommittedEditors: Field<seq<User>>,
    others: map<string, string>
  )

  datatype Op =
    | RecordEditor(user: User)
    | MarkCommitted(users: set<User>)
    // Any other save: an update, applied if the file on disk is one it accepts.
    | Save(update: Update, onlyIf: Option<Branch> -> bool)

  const NOTHING := Update(Keep, Keep, Keep, Keep, map[])

  // --- One update -------------------------------------------------------------------------------------

  predicate IsRecorded(b: Branch, user: User) {
    user in b.editors && user in b.uncommittedEditors
  }

  function WithMember(list: seq<User>, user: User): (r: seq<User>)
    ensures forall u :: u in r <==> u in list || u == user
  {
    if user in list then list else list + [user]
  }

  function Without(list: seq<User>, users: set<User>): (r: seq<User>)
    ensures forall u :: u in r <==> u in list && u !in users
    ensures |r| <= |list|
  {
    if list == [] then [] else (if list[0] in users then [] else [list[0]]) + Without(list[1..], users)
  }

  /** What an operation asks for, given the file on disk; nothing, when it has nothing to write. */
  function Compute(op: Op, existing: Option<Branch>): Option<Update> {
    match op
    case RecordEditor(user) =>
      if existing.None? || IsRecorded(existing.value, user) then None
      else Some(NOTHING.(editors := Put(WithMember(existing.value.editors, user)),
                         uncommittedEditors := Put(WithMember(existing.value.uncommittedEditors, user))))
    case MarkCommitted(users) =>
      var pending := if existing.Some? then existing.value.uncommittedEditors else [];
      var remaining := Without(pending, users);
      if |remaining| == |pending| then None else Some(NOTHING.(uncommittedEditors := Put(remaining)))
    case Save(update, onlyIf) => if onlyIf(existing) then Some(update) else None
  }

  function Chosen<T>(field: Field<T>, before: T): T {
    if field.Put? then field.value else before
  }

  /** `mergeBranchMetadata`: what is fixed at creation is taken from the file where it has it. */
  function Merge(existing: Option<Branch>, u: Update, now: string): Branch {
    if existing.Some? then
      var b := existing.value;
      Branch(b.createdBy, b.createdAt,
             if b.baseBranch.Some? then b.baseBranch else if u.baseBranch.Put? then Some(u.baseBranch.value) else None,
             Chosen(u.editors, b.editors), Chosen(u.uncommittedEditors, b.uncommittedEditors), b.others + u.others, now)
    else
      Branch(Chosen(u.createdBy, "unknown"), now, if u.baseBranch.Put? then Some(u.baseBranch.value) else None,
             Chosen(u.editors, []), Chosen(u.uncommittedEditors, []),
             map["name" := "unknown", "status" := "editing"] + u.others, now)
  }

  /** The recording operations are bookkeeping and leave `updatedAt` as it was. */
  function Written(op: Op, existing: Option<Branch>, u: Update, now: string): Branch {
    var merged := Merge(existing, u, now);
    if !op.Save? && existing.Some? then merged.(updatedAt := existing.value.updatedAt) else merged
  }

  function BranchOf(file: Option<File>): Option<Branch> {
    if file.Some? then Some(file.value.branch) else None
  }

  function VersionOf(file: Option<File>): nat {
    if file.Some? then file.value.version else 0
  }

  /** One operation alone on the file. */
  function Apply(file: Option<File>, op: Op, now: string): Option<File> {
    var u := Compute(op, BranchOf(file));
    if u.None? then file else Some(File(VersionOf(file) + 1, Written(op, BranchOf(file), u.value, now)))
  }

  // --- Many at once -----------------------------------------------------------------------------------

  datatype Done = Skipped | Saved(file: File, place: nat) | Conflict

  datatype Call =
    | Reading(op: Op)
    | Loaded(op: Op, existing: Option<File>)
    | Ended(op: Op, done: Done)

  datatype Commit = Commit(op: Op, now: string)

  // `log` is the writes that have landed, in order.
  datatype State = State(file: Option<File>, calls: map<Id, Call>, log: seq<Commit>)

  datatype Action =
    | Start(call: Id, op: Op)
    // A lock-free look that finds a recorded editor has nothing to do.
    | Look(call: Id)
    | Load(call: Id)
    | Write(call: Id, now: string)
    | GiveUp(call: Id)

  predicate Enabled(s: State, a: Action) {
    match a
    case Start(c, _) => c !in s.calls
    case Look(c) => c in s.calls && s.calls[c].Reading? && s.calls[c].op.RecordEditor?
    case Load(c) => c in s.calls && s.calls[c].Reading?
    case Write(c, _) => c in s.calls && s.calls[c].Loaded?
    case GiveUp(c) => c in s.calls && !s.calls[c].Ended?
  }

  function Step(s: State, a: Action): State
    requires Enabled(s, a)
  {
    match a
    case Start(c, op) => s.(calls := s.calls[c := Reading(op)])
    case Look(c) =>
      if s.file.None? || IsRecorded(s.file.value.branch, s.calls[c].op.user)
      then s.(calls := s.calls[c := Ended(s.calls[c].op, Skipped)]) else s
    case Load(c) => s.(calls := s.calls[c := Loaded(s.calls[c].op, s.file)])
    case Write(c, now) => WriteStep(s, c, s.calls[c].op, s.calls[c].existing, now)
    case GiveUp(c) => s.(calls := s.calls[c := Ended(s.calls[c].op, Conflict)])
  }

  /** Compute from what was loaded; write if the version on disk is still that one, else read again. */
  function WriteStep(s: State, c: Id, op: Op, existing: Option<File>, now: string): State {
    var u := Compute(op, BranchOf(existing));
    if u.None? then s.(calls := s.calls[c := Ended(op, Skipped)])
    else if s.file.Some? != existing.Some? || VersionOf(s.file) != VersionOf(existing)
    then s.(calls := s.calls[c := Reading(op)])
    else
      var file := File(VersionOf(existing) + 1, Written(op, BranchOf(existing), u.value, now));
      State(Some(file), s.calls[c := Ended(op, Saved(file, |s.log|))], s.log + [Commit(op, now)])
  }

  /** The file after some writes, each applied alone to what the one before left. */
  function Replay(start: Option<File>, log: seq<Commit>): Option<File> {
    if log == [] then start
    else Apply(Replay(start, log[..|log| - 1]), log[|log| - 1].op, log[|log| - 1].now)
  }

  ghost predicate IsRun(states: seq<State>, acts: seq<Action>) {
    && |states| == |acts| + 1
    && states[0].calls == map[] && states[0].log == []
    && forall k :: 0 <= k < |acts| ==> Enabled(states[k], acts[k]) && states[k + 1] == Step(states[k], acts[k])
  }

  /** What a call loaded is the file after some of the writes, which its version tells. */
  ghost predicate LoadedOk(start: Option<File>, s: State, existing: Option<File>) {
    exists k :: 0 <= k <= |s.log| && existing == Replay(start, s.log[..k]) && VersionOf(existing) == VersionOf(start) + k
  }

  ghost predicate CallOk(start: Option<File>, s: State, call: Call) {
    match call
    case Loaded(_, existing) => LoadedOk(start, s, existing)
    case Ended(op, Saved(file, place)) =>
      && place < |s.log| && s.log[place].op == op
      && Replay(start, s.log[..place + 1]) == Some(file)
    case _ => true
  }

  ghost predicate Inv(start: Option<File>, s: State) {
    && s.file == Replay(start, s.log)
    && VersionOf(s.file) == VersionOf(start) + |s.log|
    && (forall c :: c in s.calls ==> CallOk(start, s, s.calls[c]))
  }

  lemma CallStays(start: Option<File>, s: State, t: State, call: Call)
    requires CallOk(start, s, call) && |s.log| <= |t.log| && t.log[..|s.log|] == s.log
    ensures CallOk(start, t, call)
  {
    match call
    case Loaded(_, existing) =>
      var k :| 0 <= k <= |s.log| && existing == Replay(start, s.log[..k]) && VersionOf(existing) == VersionOf(start) + k;
      assert t.log[..k] == s.log[..k];
    case Ended(_, Saved(_, place)) => assert t.log[..place + 1] == s.log[..place + 1];
    case _ =>
  }

  lemma Others(start: Option<File>, s: State, t: State, c: Id)
    requires Inv(start, s) && |s.log| <= |t.log| && t.log[..|s.log|] == s.log
    requires c in t.calls && t.calls == s.calls[c := t.calls[c]] && CallOk(start, t, t.calls[c])
    ensures forall d :: d in t.calls ==> CallOk(start, t, t.calls[d])
  {
    forall d | d in t.calls ensures CallOk(start, t, t.calls[d]) {
      if d != c {
        CallStays(start, s, t, s.calls[d]);
      }
    }
  }

  /** A version on disk that is the one loaded means the file is the one loaded. */
  lemma SameVersionSameFile(start: Option<File>, s: State, existing: Option<File>)
    requires s.file == Replay(start, s.log) && VersionOf(s.file) == VersionOf(start) + |s.log|
    requires LoadedOk(start, s, existing) && VersionOf(s.file) == VersionOf(existing)
    ensures existing == s.file
  {
    var k :| 0 <= k <= |s.log| && existing == Replay(start, s.log[..k]) && VersionOf(existing) == VersionOf(start) + k;
    assert s.log[..|s.log|] == s.log;
  }

  lemma LandKeeps(start: Option<File>, s: State, c: Id, op: Op, u: Update, now: string)
    requires Inv(start, s) && c in s.calls && Compute(op, BranchOf(s.file)) == Some(u)
    ensures var file := File(VersionOf(s.file) + 1, Written(op, BranchOf(s.file), u, now));
            Inv(start, State(Some(file), s.calls[c := Ended(op, Saved(file, |s.log|))], s.log + [Commit(op, now)]))
  {
    var file := File(VersionOf(s.file) + 1, Written(op, BranchOf(s.file), u, now));
    var t := State(Some(file), s.calls[c := Ended(op, Saved(file, |s.log|))], s.log + [Commit(op, now)]);
    assert t.log[..|s.log|] == s.log && t.log[..|s.log| + 1] == t.log;
    assert Replay(start, t.log) == Apply(s.file, op, now);
    Others(start, s, t, c);
  }

  /** A call that goes back to reading, or ends without a write. */
  lemma UnwrittenKeeps(start: Option<File>, s: State, c: Id, call: Call)
    requires Inv(start, s) && (call.Reading? || (call.Ended? && !call.done.Saved?))
    ensures Inv(start, s.(calls := s.calls[c := call]))
  {
    assert s.log[..|s.log|] == s.log;
    Others(start, s, s.(calls := s.calls[c := call]), c);
  }

  lemma WriteKeeps(start: Option<File>, s: State, c: Id, now: string)
    requires Inv(start, s) && Enabled(s, Write(c, now))
    ensures Inv(start, Step(s, Write(c, now)))
  {
    var op, existing := s.calls[c].op, s.calls[c].existing;
    var u := Compute(op, BranchOf(existing));
    assert CallOk(start, s, s.calls[c]);
    if u.Some? && s.file.Some? == existing.Some? && VersionOf(s.file) == VersionOf(existing) {
      SameVersionSameFile(start, s, existing);
      LandKeeps(start, s, c, op, u.value, now);
    } else {
      UnwrittenKeeps(start, s, c, if u.None? then Ended(op, Skipped) else Reading(op));
    }
  }

  lemma StepKeeps(start: Option<File>, s: State, a: Action)
    requires Inv(start, s) && Enabled(s, a)
    ensures Inv(start, Step(s, a))
  {
    assert s.log[..|s.log|] == s.log;
    match a
    case Write(c, now) => WriteKeeps(start, s, c, now);
    case Look(c) =>
      if Step(s, a) != s {
        Others(start, s, Step(s, a), c);
      }
    case _ => Others(start, s, Step(s, a), a.call);
  }

  lemma {:induction false} RunInv(states: seq<State>, acts: seq<Action>, k: nat)
    requires IsRun(states, acts) && k < |states|
    ensures Inv(states[0].file, states[k])
  {
    if k > 0 {
      RunInv(states, acts, k - 1);
      assert states[k] == Step(states[k - 1], acts[k - 1]);
      StepKeeps(states[0].file, states[k - 1], acts[k - 1]);
    }
  }

  /**
   * However saves overlap, the file is what applying the landed ones alone, one after another,
   * gives; and what a save reports as written is the file right after its own place in that order.
   */
  lemma SavesAreSequential(states: seq<State>, acts: seq<Action>, k: nat)
    requires IsRun(states, acts) && k < |states|
    ensures states[k].file == Replay(states[0].file, states[k].log)
    ensures forall c :: c in states[k].calls && states[k].calls[c].Ended? && states[k].calls[c].done.Saved? ==>
              var done := states[k].calls[c].done;
              && done.place < |states[k].log| && states[k].log[done.place].op == states[k].calls[c].op
              && Replay(states[0].file, states[k].log[..done.place + 1]) == Some(done.file)
  {
    RunInv(states, acts, k);
    forall c | c in states[k].calls && states[k].calls[c].Ended? && states[k].calls[c].done.Saved?
      ensures CallOk(states[0].file, states[k], states[k].calls[c])
    {
    }
  }

  // --- What a sequence of updates keeps -----------------------------------------------------------------

  /** Creation facts never change once there, and the fork point never moves once set. */
  ghost predicate Fixed(before: Option<File>, after: Option<File>) {
    before.Some? ==>
      && after.Some?
      && after.value.branch.createdBy == before.value.branch.createdBy
      && after.value.branch.createdAt == before.value.branch.createdAt
      && (before.value.branch.baseBranch.Some? ==> after.value.branch.baseBranch == before.value.branch.baseBranch)
  }

  lemma {:induction false} ReplayFixes(start: Option<File>, log: seq<Commit>, j: nat)
    requires j <= |log|
    ensures Fixed(Replay(start, log[..j]), Replay(start, log))
  {
    if j == |log| {
      assert log[..j] == log;
    } else {
      assert log[..|log| - 1][..j] == log[..j];
      ReplayFixes(start, log[..|log| - 1], j);
    }
  }

  /** From any state of a run to any later one. */
  lemma CreationFactsNeverChange(states: seq<State>, acts: seq<Action>, j: nat, k: nat)
    requires IsRun(states, acts) && j <= k < |states|
    ensures Fixed(states[j].file, states[k].file)
  {
    LogGrows(states, acts, j, k);
    RunInv(states, acts, j);
    RunInv(states, acts, k);
    ReplayFixes(states[0].file, states[k].log, |states[j].log|);
  }

  lemma {:induction false} LogGrows(states: seq<State>, acts: seq<Action>, j: nat, k: nat)
    requires IsRun(states, acts) && j <= k < |states|
    ensures |states[j].log| <= |states[k].log| && states[k].log[..|states[j].log|] == states[j].log
    decreases k - j
  {
    if j < k {
      LogGrows(states, acts, j, k - 1);
      assert states[k] == Step(states[k - 1], acts[k - 1]);
    }
  }

  /** A save that leaves the two editor lists to the recording operations. */
  predicate LeavesEditors(op: Op) {
    op.Save? ==> op.update.editors.Keep? && op.update.uncommittedEditors.Keep?
  }

  predicate WithinEditors(file: Option<File>) {
    file.Some? ==> forall u :: u in file.value.branch.uncommittedEditors ==> u in file.value.branch.editors
  }

  function Uncommitted(file: Option<File>): seq<User> {
    if file.Some? then file.value.branch.uncommittedEditors else []
  }

  /** One operation alone takes out of the uncommitted only what a commit names, and keeps them editors. */
  lemma OneKeepsEditors(file: Option<File>, op: Op, now: string)
    requires WithinEditors(file) && LeavesEditors(op)
    ensures WithinEditors(Apply(file, op, now))
    ensures forall u :: u in Uncommitted(file) && u !in Uncommitted(Apply(file, op, now)) ==>
              op.MarkCommitted? && u in op.users
  {
  }

  lemma {:induction false} EditorsStayWithin(start: Option<File>, log: seq<Commit>)
    requires WithinEditors(start) && forall i :: 0 <= i < |log| ==> LeavesEditors(log[i].op)
    ensures WithinEditors(Replay(start, log))
  {
    if log != [] {
      var front, last := log[..|log| - 1], log[|log| - 1];
      EditorsStayWithin(start, front);
      OneKeepsEditors(Replay(start, front), last.op, last.now);
    }
  }

  /** The uncommitted stay among the editors, and only a commit that names one takes one out. */
  lemma EditorsAreKept(states: seq<State>, acts: seq<Action>, k: nat, i: nat, user: User)
    requires IsRun(states, acts) && k < |states| && WithinEditors(states[0].file)
    requires forall j :: 0 <= j < |states[k].log| ==> LeavesEditors(states[k].log[j].op)
    ensures WithinEditors(states[k].file)
    ensures i < |states[k].log|
            && user in Uncommitted(Replay(states[0].file, states[k].log[..i]))
            && user !in Uncommitted(Replay(states[0].file, states[k].log[..i + 1]))
            ==> states[k].log[i].op.MarkCommitted? && user in states[k].log[i].op.users
  {
    RunInv(states, acts, k);
    var start, log := states[0].file, states[k].log;
    EditorsStayWithin(start, log);
    if i < |log| {
      assert log[..i + 1][..i] == log[..i];
      EditorsStayWithin(start, log[..i]);
      OneKeepsEditors(Replay(start, log[..i]), log[i].op, log[i].now);
    }
  }

  /** Recording an editor puts the id in both lists, if there is a file to record it in. */
  lemma RecordingRecords(file: Option<File>, user: User, now: string)
    ensures file.Some? ==>
              && Apply(file, RecordEditor(user), now).Some?
              && IsRecorded(Apply(file, RecordEditor(user), now).value.branch, user)
              && Apply(file, RecordEditor(user), now).value.branch.updatedAt == file.value.branch.updatedAt
    ensures file.None? ==> Apply(file, RecordEditor(user), now).None?
  {
  }

  /** A save no other overlaps does to the file what it does alone, whatever it is. */
  lemma SaveAlone(s: State, c: Id, op: Op, now: string)
    requires c in s.calls && s.calls[c] == Reading(op)
    ensures var loaded := Step(s, Load(c));
            && Enabled(loaded, Write(c, now))
            && Step(loaded, Write(c, now)).file == Apply(s.file, op, now)
            && Step(loaded, Write(c, now)).calls[c].Ended?
  {
  }

  /**
   * A write answers by the file it loaded and the file there is: with nothing to write it is skipped; if
   * the file has moved on it starts again; else its own application is the file, and what it reports.
   */
  lemma WriteAnswers(s: State, c: Id, op: Op, existing: Option<File>, now: string)
    requires c in s.calls && s.calls[c] == Loaded(op, existing)
    ensures var t, applied := Step(s, Write(c, now)), Apply(existing, op, now);
            if applied == existing then t == s.(calls := s.calls[c := Ended(op, Skipped)])
            else if s.file.Some? != existing.Some? || (s.file.Some? && s.file.value.version != existing.value.version)
            then t == s.(calls := s.calls[c := Reading(op)])
            else
              && applied.Some? && t.file == applied && t.log == s.log + [Commit(op, now)]
              && t.calls == s.calls[c := Ended(op, Saved(applied.value, |s.log|))]
  {
    var u := Compute(op, BranchOf(existing));
    assert u.None? <==> Apply(existing, op, now) == existing;
  }

  /** The look before a recording ends it exactly when there is no file, or the editor is in both its lists. */
  lemma LookAnswers(s: State, c: Id, user: User)
    requires c in s.calls && s.calls[c] == Reading(RecordEditor(user))
    ensures Step(s, Look(c))
            == if s.file.None? || (user in s.file.value.branch.editors && user in s.file.value.branch.uncommittedEditors)
               then s.(calls := s.calls[c := Ended(RecordEditor(user), Skipped)]) else s
  {
  }

  /**
   * Over any run: a conflict is reported only by giving up, and a skipped call had found a file on which
   * its operation does nothing.
   */
  lemma AnswersHaveReasons(states: seq<State>, acts: seq<Action>, k: nat, c: Id)
    requires IsRun(states, acts) && k < |acts|
    requires c in states[k].calls && !states[k].calls[c].Ended? && c in states[k + 1].calls && states[k + 1].calls[c].Ended?
    ensures states[k + 1].calls[c].op == states[k].calls[c].op
    ensures states[k + 1].calls[c].done == Conflict <==> acts[k] == GiveUp(c)
    ensures states[k + 1].calls[c].done == Skipped ==>
              var found := if states[k].calls[c].Loaded? then states[k].calls[c].existing else states[k].file;
              forall now :: Apply(found, states[k].calls[c].op, now) == found
  {
    assert states[k + 1] == Step(states[k], acts[k]);
  }

  // --- What each operation writes -----------------------------------------------------------------------

  /** A field as an update leaves it. */
  predicate Follows<T(==)>(after: T, field: Field<T>, before: T) {
    match field
    case Keep => after == before
    case Put(value) => after == value
  }

  /** The other fields: those the update names as it has them, the rest as they were. */
  ghost predicate OthersFollow(after: map<string, string>, update: map<string, string>, before: map<string, string>) {
    forall key ::
      && (key in after <==> key in update || key in before)
      && (key in update ==> key in after && after[key] == update[key])
      && (key in before && key !in update ==> key in after && after[key] == before[key])
  }

  /**
   * A save to a file there is: what was fixed at creation stays, every other field is as the update has it
   * or as it was, and the file is the next version. A save the file is not accepted for writes nothing.
   */
  lemma SaveWrites(file: File, update: Update, onlyIf: Option<Branch> -> bool, now: string)
    ensures var before, out := file.branch, Apply(Some(file), Save(update, onlyIf), now);
            if !onlyIf(Some(before)) then out == Some(file)
            else
              && out.Some? && out.value.version == file.version + 1
              && (var after := out.value.branch;
                  && after.createdBy == before.createdBy && after.createdAt == before.createdAt && after.updatedAt == now
                  && (if before.baseBranch.Some? then after.baseBranch == before.baseBranch
                      else if update.baseBranch.Put? then after.baseBranch == Some(update.baseBranch.value)
                      else after.baseBranch.None?)
                  && Follows(after.editors, update.editors, before.editors)
                  && Follows(after.uncommittedEditors, update.uncommittedEditors, before.uncommittedEditors)
                  && OthersFollow(after.others, update.others, before.others))
  {
  }

  /** A save that makes the file: created now, by whom the update says, with a name and a status in any case. */
  lemma SaveCreates(update: Update, onlyIf: Option<Branch> -> bool, now: string)
    ensures var out := Apply(None, Save(update, onlyIf), now);
            if !onlyIf(None) then out.None?
            else
              && out.Some? && out.value.version == 1
              && (var after := out.value.branch;
                  && Follows(after.createdBy, update.createdBy, "unknown") && after.createdAt == now && after.updatedAt == now
                  && after.baseBranch == (if update.baseBranch.Put? then Some(update.baseBranch.value) else None)
                  && Follows(after.editors, update.editors, []) && Follows(after.uncommittedEditors, update.uncommittedEditors, [])
                  && OthersFollow(after.others, update.others, map["name" := "unknown", "status" := "editing"]))
  {
  }

  /** Recording an editor who is in both lists writes nothing; else it adds to the lists without, at the end, and to nothing else. */
  lemma RecordingWrites(file: File, user: User, now: string)
    ensures var before, out := file.branch, Apply(Some(file), RecordEditor(user), now);
            if user in before.editors && user in before.uncommittedEditors then out == Some(file)
            else
              out == Some(File(file.version + 1, before.(
                editors := if user in before.editors then before.editors else before.editors + [user],
                uncommittedEditors :=
                  if user in before.uncommittedEditors then before.uncommittedEditors else before.uncommittedEditors + [user])))
  {
    assert file.branch.others + map[] == file.branch.others;
  }

  /** `list` without some users, in order. */
  predicate IsWithout(after: seq<User>, list: seq<User>, users: set<User>) {
    if list == [] then after == []
    else if list[0] in users then IsWithout(after, list[1..], users)
    else after != [] && after[0] == list[0] && IsWithout(after[1..], list[1..], users)
  }

  lemma {:induction false} WithoutIs(list: seq<User>, users: set<User>)
    ensures IsWithout(Without(list, users), list, users)
    ensures |Without(list, users)| == |list| <==> forall u :: u in list ==> u !in users
  {
    if list != [] {
      WithoutIs(list[1..], users);
      assert list == [list[0]] + list[1..];
      assert if list[0] in users then Without(list, users) == Without(list[1..], users)
             else Without(list, users)[1..] == Without(list[1..], users);
    }
  }

  /** Marking editors committed takes exactly them out of the uncommitted, and nothing else changes; without any there nothing is written. */
  lemma CommittingWrites(file: File, users: set<User>, now: string)
    ensures var before, out := file.branch, Apply(Some(file), MarkCommitted(users), now);
            if forall u :: u in before.uncommittedEditors ==> u !in users then out == Some(file)
            else
              && out.Some? && out.value.version == file.version + 1
              && out.value.branch == before.(uncommittedEditors := out.value.branch.uncommittedEditors)
              && IsWithout(out.value.branch.uncommittedEditors, before.uncommittedEditors, users)
  {
    WithoutIs(file.branch.uncommittedEditors, users);
    assert file.branch.others + map[] == file.branch.others;
  }
}
