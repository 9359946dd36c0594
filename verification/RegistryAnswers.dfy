/** What `list` and `invalidate` answer and leave, whole calls of them. */
module RegistryAnswers {
  import opened Options
  import opened GenerationMarker
  import opened RegistryCache

  // --- Undisturbed ------------------------------------------------------------------------------------

  /** The listing of the branches root: each name that exists, once. */
  ghost predicate IsListing(w: World<Doc>, listing: seq<Key>) {
    Distinct(listing) && forall k :: k in listing <==> Exists(w, k)
  }

  /** Exactly the branches there are, as they are. */
  ghost predicate AreTheBranches(w: World<Doc>, branches: Listing) {
    forall k, c :: (k, c) in branches <==> (!Hidden(k) && Latest(w, k) == Some(Meta(c)))
  }

  lemma {:induction false} ScanLeavesCalls(s: State, id: Id, read: MarkerRead, listing: seq<Key>, k: nat)
    requires id in s.scans && s.world.marker in s.world.floors
    ensures ScanAlone(s, id, read, listing, k).calls == s.calls
  {
    if k > 0 {
      ScanLeavesCalls(s, id, read, listing, k - 1);
      StepLeavesCalls(ScanAlone(s, id, read, listing, k - 1), id, read, listing);
    }
  }

  lemma StepLeavesCalls(s: State, id: Id, read: MarkerRead, listing: seq<Key>)
    requires id in s.scans && s.world.marker in s.world.floors
    ensures ScanStep(s, id, read, listing, false).calls == s.calls
  {
  }

  /** A rebuild from its start to its end, the marker readable: the state after it, and its own result. */
  lemma WholeRebuild(s: State, id: Id, listing: seq<Key>) returns (t: State)
    requires Inv(s) && id in s.scans && s.scans[id].stage.Started? && IsListing(s.world, listing)
    ensures t == ScanAlone(s, id, Read(s.world.marker), listing, |listing| + 4)
    ensures id in t.scans && t.scans[id].stage.Finished? && t.calls == s.calls && t.world == s.world
    ensures t.file == Stored(Snapshot(t.scans[id].stage.branches, s.world.marker, t.scans[id].stage.asOf))
    ensures AreTheBranches(s.world, t.scans[id].stage.branches)
  {
    hide ScanAlone, ScanStep;
    t := RebuildAlone(s, id, listing);
    ScanLeavesCalls(s, id, Read(s.world.marker), listing, |listing| + 4);
  }

  /** A list without a current snapshot: the rebuild it starts, and its answer once that is done. */
  lemma ColdListAnswers(s: State, c: Id, unused: Id, other: Id, token: Token, r: Id, listing: seq<Key>) returns (t: State)
    requires Inv(s) && c in s.calls && unused !in s.scans && r !in s.inFlight && IsListing(s.world, listing)
    requires Some(token) !in s.world.floors
    requires || (s.calls[c] == ListRead(r) && !s.file.Stored?)
             || (s.calls[c].ListMark? && s.calls[c].registry == r && !IsCurrent(s.calls[c].snap.generation, Read(s.world.marker)))
    ensures var read := Read(s.world.marker);
            var asked := CallStep(s, c, unused, token, read);
            && unused in asked.scans && asked.world == s.world
            && (var built := ScanAlone(asked, unused, read, listing, |listing| + 4);
                c in built.calls && !Waits(built, built.calls[c])
                && t == CallStep(built, c, other, token, read))
    ensures c in t.calls && t.calls[c].Listed? && t.calls[c].registry == r && t.world == s.world
    ensures AreTheBranches(s.world, t.calls[c].branches)
    ensures t.file == Stored(Snapshot(t.calls[c].branches, s.world.marker, t.calls[c].asOf))
  {
    hide ScanAlone, ScanStep;
    var read := Read(s.world.marker);
    var asked := CallStep(s, c, unused, token, read);
    CallKeeps(s, c, unused, token, read);
    ColdListRebuilds(s, c, unused, token, r, read);
    var built := WholeRebuild(asked, unused, listing);
    Awaited(built, c, r, unused, other, token, read);
    t := CallStep(built, c, other, token, read);
  }

  /** A list whose rebuild has finished answers with what it found. */
  lemma Awaited(s: State, c: Id, r: Id, id: Id, other: Id, token: Token, read: MarkerRead)
    requires c in s.calls && s.calls[c] == ListAwait(r, id) && s.world.marker in s.world.floors
    requires id in s.scans && s.scans[id].stage.Finished?
    ensures !Waits(s, s.calls[c])
    ensures CallStep(s, c, other, token, read)
            == s.(calls := s.calls[c := Listed(r, s.scans[id].stage.branches, s.scans[id].stage.asOf)])
  {
  }

  /** A stored snapshot is read before the marker is, and a stale one leads to a rebuild. */
  lemma StoredIsRead(s: State, c: Id, unused: Id, token: Token, r: Id, read: MarkerRead)
    requires c in s.calls && s.calls[c] == ListRead(r) && s.file.Stored? && s.world.marker in s.world.floors
    ensures CallStep(s, c, unused, token, read) == s.(calls := s.calls[c := ListMark(r, s.file.snap)])
  {
  }

  /** An invalidate nobody disturbs: its token is written, and the snapshot under it is exactly the branches there are. */
  lemma InvalidateAnswers(s: State, c: Id, unused: Id, other: Id, token: Token, later: Token, r: Id, listing: seq<Key>)
    returns (t: State)
    requires Inv(s) && c in s.calls && s.calls[c] == InvBump(r) && r !in s.inFlight && unused !in s.scans
    requires Some(token) !in s.world.floors && Some(later) !in s.world.floors && later != token && IsListing(s.world, listing)
    ensures var bumped := CallStep(s, c, unused, token, Unreadable);
            && c in bumped.calls && bumped.world.marker == Some(token) && bumped.world.marker in bumped.world.floors
            && (var asked := CallStep(bumped, c, unused, later, Read(Some(token)));
                && unused in asked.scans && asked.world.marker in asked.world.floors
                && (var built := ScanAlone(asked, unused, Read(Some(token)), listing, |listing| + 4);
                    c in built.calls && !Waits(built, built.calls[c])
                    && t == CallStep(built, c, other, later, Read(Some(token)))))
    ensures c in t.calls && t.calls[c] == Invalidated(r)
    ensures t.file.Stored? && t.file.snap.generation == Some(token) && AreTheBranches(s.world, t.file.snap.branches)
    ensures t.world.marker == Some(token) && t.world.hist == s.world.hist
  {
    hide ScanAlone, ScanStep, Inv;
    var bumped := Bumped(s, c, unused, token, r);
    var asked := Rebuilding(bumped, c, unused, later, r, listing);
    SameListing(s.world, asked.world, listing);
    var built := WholeRebuild(asked, unused, listing);
    SameBranches(s.world, asked.world, built.scans[unused].stage.branches);
    t := CallStep(built, c, other, later, Read(Some(token)));
  }

  lemma Bumped(s: State, c: Id, unused: Id, token: Token, r: Id) returns (t: State)
    requires Inv(s) && c in s.calls && s.calls[c] == InvBump(r) && unused !in s.scans && Some(token) !in s.world.floors
    ensures t == CallStep(s, c, unused, token, Unreadable) && Inv(t)
    ensures c in t.calls && t.calls[c] == InvCheck(r, Current(s.world))
    ensures t.inFlight == s.inFlight && t.scans == s.scans && t.world == Bump(s.world, token)
  {
    t := CallStep(s, c, unused, token, Unreadable);
    CallKeeps(s, c, unused, token, Unreadable);
  }

  lemma Rebuilding(s: State, c: Id, unused: Id, later: Token, r: Id, listing: seq<Key>) returns (t: State)
    requires Inv(s) && c in s.calls && s.calls[c].InvCheck? && s.calls[c].registry == r && r !in s.inFlight
    requires unused !in s.scans && Some(later) !in s.world.floors && s.world.marker in s.world.floors
    ensures t == CallStep(s, c, unused, later, Read(s.world.marker)) && Inv(t) && t.world == s.world
    ensures unused in t.scans && t.scans[unused].stage.Started?
    ensures c in t.calls && t.calls[c].InvAwait? && t.calls[c].registry == r && t.calls[c].scan == unused
  {
    t := CallStep(s, c, unused, later, Read(s.world.marker));
    CallKeeps(s, c, unused, later, Read(s.world.marker));
  }

  lemma SameListing(v: World<Doc>, w: World<Doc>, listing: seq<Key>)
    requires v.hist == w.hist && IsListing(v, listing)
    ensures IsListing(w, listing)
  {
    forall k ensures Exists(v, k) <==> Exists(w, k) {
      assert Latest(v, k) == Latest(w, k);
    }
  }

  lemma SameBranches(v: World<Doc>, w: World<Doc>, branches: Listing)
    requires v.hist == w.hist && AreTheBranches(w, branches)
    ensures AreTheBranches(v, branches)
  {
    forall k ensures Latest(v, k) == Latest(w, k) {
    }
  }

  // --- Over runs --------------------------------------------------------------------------------------

  /** A rebuild is over without a result: it failed, or its process died. */
  predicate WithoutResult(s: State, id: Id) {
    id !in s.scans || s.scans[id].stage.Failed?
  }

  /**
   * A waiting list answers once its rebuild is over: with what that found, as new as what had landed when
   * it read the marker, or by throwing, exactly when the rebuild failed or died.
   */
  lemma WaitingListAnswers(states: seq<State>, acts: seq<Action>, k: nat, c: Id, r: Id, id: Id)
    requires IsRun(states, acts) && k < |acts| && acts[k].StepCall? && acts[k].call == c
    requires c in states[k].calls && states[k].calls[c] == ListAwait(r, id)
    ensures c in states[k + 1].calls
    ensures var got := states[k + 1].calls[c];
            && (got == Threw(r) <==> WithoutResult(states[k], id))
            && (got != Threw(r) ==>
                  && id in states[k].scans && states[k].scans[id].stage.Finished?
                  && got == Listed(r, states[k].scans[id].stage.branches, states[k].scans[id].stage.asOf)
                  && FreshFrom(states[k].world, got.branches, got.asOf, states[k].scans[id].floor))
  {
    var s := states[k];
    assert states[k + 1] == Apply(s, acts[k]);
    if id in s.scans && s.scans[id].stage.Finished? {
      RebuildIsFresh(states, acts, k, id);
    }
  }

  /**
   * `invalidate` returns only once a rebuild is over, and if that has a result it is as new as everything
   * there was when this call's own bump landed, at `j`.
   */
  lemma InvalidatedMeansRebuilt(states: seq<State>, acts: seq<Action>, k: nat, c: Id) returns (j: nat)
    requires IsRun(states, acts) && k < |acts| && acts[k].StepCall? && acts[k].call == c
    requires c in states[k].calls && !states[k].calls[c].Invalidated?
    requires c in states[k + 1].calls && states[k + 1].calls[c].Invalidated?
    ensures states[k].calls[c].InvAwait? && states[k].calls[c].registry == states[k + 1].calls[c].registry
    ensures var id := states[k].calls[c].scan;
            || WithoutResult(states[k], id)
            || (&& id in states[k].scans && states[k].scans[id].stage.Finished?
                && j < k && Bumps(states[j], acts[j], states[j + 1], c, states[k].calls[c].registry)
                && FreshFrom(states[k].world, states[k].scans[id].stage.branches, states[k].scans[id].stage.asOf,
                             Current(states[j].world)))
  {
    hide FreshFrom, Bumps;
    assert states[k + 1] == Apply(states[k], acts[k]);
    InvalidatedFrom(states[k], c, acts[k].scan, acts[k].token, acts[k].read);
    j := 0;
    var id := states[k].calls[c].scan;
    if id in states[k].scans && states[k].scans[id].stage.Finished? {
      j := InvalidateRebuildsAfterItsBump(states, acts, k, c);
    }
  }

  lemma InvalidatedFrom(s: State, c: Id, unused: Id, token: Token, read: MarkerRead)
    requires c in s.calls && s.world.marker in s.world.floors && !s.calls[c].Invalidated?
    requires CallStep(s, c, unused, token, read).calls[c].Invalidated?
    ensures s.calls[c].InvAwait? && s.calls[c].registry == CallStep(s, c, unused, token, read).calls[c].registry
  {
  }

  /**
   * Of one listed name: a hidden one, and one that was no directory when it was listed, are passed over;
   * any other adds its branch if it has a branch.json by now.
   */
  lemma OneNameIsRead(w: World<Doc>, rest: seq<Key>, branches: Listing, asOf: Versions)
    requires rest != []
    ensures var k, next := rest[0], ReadNext(w, rest, branches, asOf);
            && next.Reading? && next.rest == rest[1..]
            && (if (k != "" && k[0] == '.') || DocAt(w, k, Seen(asOf, k)) == Some(Plain)
                then next.branches == branches && next.asOf == asOf
                else
                  && next.asOf == asOf[k := Seen(Current(w), k)]
                  && (forall c :: Latest(w, k) == Some(Meta(c)) ==> next.branches == branches + [(k, c)])
                  && ((forall c :: Latest(w, k) != Some(Meta(c))) ==> next.branches == branches))
  {
  }

  /** A rebuild that cannot list the directories, or cannot store what it read, fails and stores nothing. */
  lemma BrokenRebuildFails(s: State, id: Id, read: MarkerRead, listing: seq<Key>)
    requires Inv(s) && id in s.scans
    requires s.scans[id].stage.Captured? || (s.scans[id].stage.Persisting? && s.scans[id].read.Read?)
    ensures var t := ScanStep(s, id, read, listing, true);
            && id in t.scans && t.scans[id] == s.scans[id].(stage := Failed) && t.scans - {id} == s.scans - {id}
            && s.scans[id].registry !in t.inFlight && t.file == s.file && t.world == s.world && t.calls == s.calls
  {
    assert (ScanStep(s, id, read, listing, true).scans - {id}).Keys == (s.scans - {id}).Keys;
  }

  /** One that could not read the marker has what it read as its result, and stores nothing either. */
  lemma UnreadableRebuildServes(s: State, id: Id, read: MarkerRead, listing: seq<Key>, broken: bool)
    requires Inv(s) && id in s.scans && s.scans[id].stage.Persisting? && s.scans[id].read.Unreadable?
    ensures var t, stage := ScanStep(s, id, read, listing, broken), s.scans[id].stage;
            && id in t.scans && t.scans[id].stage == Finished(stage.branches, stage.asOf)
            && s.scans[id].registry !in t.inFlight && t.file == s.file && t.world == s.world && t.calls == s.calls
  {
  }
}
