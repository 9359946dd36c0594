/** Resolving `entry:ID` links in text: unwrapping withheld links, replacing tokens, extracting ids. */
module EntryLinks {
  import opened Options
  import opened TextPatterns
  import opened CodeRegions
  import IndexSpec

  // --- The bracket search ---------------------------------------------------------------------------

  predicate Escaped(text: string, i: int, floor: int)
    requires 0 <= i < |text|
  {
    i > floor && i >= 1 && text[i - 1] == '\\'
  }

  /** Search back from `i` to `floor` for the `[` that closes `depth` open brackets. */
  function Opening(text: string, i: int, floor: nat, depth: nat): (open: Option<nat>)
    requires i < |text| && depth >= 1
    ensures open.Some? ==> floor <= open.value <= i && text[open.value] == '['
    decreases i - floor + 1
  {
    if i < floor then None
    else if Escaped(text, i, floor) then Opening(text, i - 1, floor, depth)
    else if text[i] == ']' then Opening(text, i - 1, floor, depth + 1)
    else if text[i] == '[' then if depth == 1 then Some(i) else Opening(text, i - 1, floor, depth - 1)
    else Opening(text, i - 1, floor, depth)
  }

  /** `findOpeningBracket`; `visited` counts the characters it looks at. */
  method FindOpeningBracket(text: string, close: nat, floor: nat) returns (open: Option<nat>, visited: nat)
    requires floor <= close < |text|
    ensures open == Opening(text, close - 1, floor, 1)
    ensures visited <= close - floor
  {
    var depth, i: int := 1, close - 1;
    visited := 0;
    while i >= floor
      invariant floor - 1 <= i < close && depth >= 1
      invariant Opening(text, close - 1, floor, 1) == Opening(text, i, floor, depth)
      invariant visited == close - 1 - i
      decreases i - floor + 1
    {
      visited := visited + 1;
      if !Escaped(text, i, floor) {
        if text[i] == ']' {
          depth := depth + 1;
        } else if text[i] == '[' {
          if depth == 1 {
            return Some(i), visited;
          }
          depth := depth - 1;
        }
      }
      i := i - 1;
    }
    return None, visited;
  }

  /** A search that finds nothing finds nothing with more brackets to close. */
  lemma {:induction false} DeeperFindsNoMore(text: string, i: int, floor: nat, depth: nat, deeper: nat)
    requires i < |text| && 1 <= depth <= deeper && Opening(text, i, floor, depth).None?
    ensures Opening(text, i, floor, deeper).None?
    decreases i - floor + 1
  {
    if i >= floor {
      if Escaped(text, i, floor) {
        DeeperFindsNoMore(text, i - 1, floor, depth, deeper);
      } else if text[i] == ']' {
        DeeperFindsNoMore(text, i - 1, floor, depth + 1, deeper + 1);
      } else if text[i] == '[' {
        DeeperFindsNoMore(text, i - 1, floor, depth - 1, deeper - 1);
      } else {
        DeeperFindsNoMore(text, i - 1, floor, depth, deeper);
      }
    }
  }

  /** Below the position of a failed search nothing can be found, at any depth. */
  ghost predicate Barren(text: string, scanFloor: nat, cursor: nat) {
    && scanFloor < |text| && text[scanFloor] == ']'
    && Opening(text, scanFloor - 1, cursor, 1).None?
  }

  /** So a later search may stop there: it finds what searching back to the cursor would. */
  lemma {:induction false} StoppingEarlyFindsTheSame(text: string, i: int, scanFloor: nat, cursor: nat, depth: nat)
    requires i < |text| && depth >= 1 && cursor <= scanFloor <= i + 1 && Barren(text, scanFloor, cursor)
    ensures Opening(text, i, scanFloor, depth) == Opening(text, i, cursor, depth)
    decreases i - scanFloor + 1
  {
    if i < scanFloor {
      DeeperFindsNoMore(text, i, cursor, 1, depth);
    } else if i == scanFloor {
      assert Opening(text, i, scanFloor, depth) == Opening(text, i - 1, scanFloor, depth + 1) == None;
      DeeperFindsNoMore(text, i - 1, cursor, 1, depth);
      DeeperFindsNoMore(text, i - 1, cursor, 1, depth + 1);
    } else {
      var next := if Escaped(text, i, scanFloor) then depth else if text[i] == ']' then depth + 1
                  else if text[i] == '[' then depth - 1 else depth;
      if next >= 1 {
        StoppingEarlyFindsTheSame(text, i - 1, scanFloor, cursor, next);
      }
    }
  }

  // --- Unwrapping ------------------------------------------------------------------------------------

  /** Where a link starts: at its `[`, or at the `!` of an image. */
  function LinkStart(text: string, open: nat, cursor: nat): (start: nat)
    requires cursor <= open < |text|
    ensures cursor <= start <= open
  {
    if open > cursor && text[open - 1] == '!' && !(open >= 2 && text[open - 2] == '\\') then open - 1 else open
  }

  /** The text up to a link, and what its brackets hold. */
  function Piece(text: string, cursor: nat, open: nat, close: nat): string
    requires cursor <= open < close <= |text|
  {
    text[cursor..LinkStart(text, open, cursor)] + text[open + 1..close]
  }

  /** Unwrapping with every bracket search going all the way back to the end of the last link. */
  function Unwrapped(text: string, targets: seq<Target>, cursor: nat, unwrap: string -> bool): string
    requires cursor <= |text| && Ahead(text, targets, 0)
    decreases |targets|
  {
    if targets == [] then text[cursor..]
    else
      var m := targets[0];
      AheadBelow(text, targets[1..], m.end, 0);
      if m.at < cursor || !unwrap(m.id) then Unwrapped(text, targets[1..], cursor, unwrap)
      else
        var open := Opening(text, m.at - 1, cursor, 1);
        if open.None? then Unwrapped(text, targets[1..], cursor, unwrap)
        else
          Piece(text, cursor, open.value, m.at) + Unwrapped(text, targets[1..], m.end, unwrap)
  }

  function Larger(a: nat, b: nat): nat {
    if a > b then a else b
  }

  lemma SameBracket(text: string, close: nat, scanFloor: nat, cursor: nat)
    requires cursor <= close < |text| && scanFloor <= close
    requires scanFloor > cursor ==> Barren(text, scanFloor, cursor)
    ensures Opening(text, close - 1, Larger(cursor, scanFloor), 1) == Opening(text, close - 1, cursor, 1)
  {
    if scanFloor > cursor {
      StoppingEarlyFindsTheSame(text, close - 1, scanFloor, cursor, 1);
    }
  }

  method SearchBack(text: string, close: nat, cursor: nat, scanFloor: nat) returns (open: Option<nat>, looked: nat)
    requires cursor <= close < |text| && scanFloor <= close
    requires scanFloor > cursor ==> Barren(text, scanFloor, cursor)
    ensures open == Opening(text, close - 1, cursor, 1)
    ensures looked <= close - Larger(cursor, scanFloor)
  {
    SameBracket(text, close, scanFloor, cursor);
    open, looked := FindOpeningBracket(text, close, Larger(cursor, scanFloor));
  }

  /** A link that is not unwrapped, or has no opening bracket, is left for later. */
  lemma UnwrappedSkip(text: string, rest: seq<Target>, cursor: nat, unwrap: string -> bool)
    requires rest != [] && Ahead(text, rest, 0) && Ahead(text, rest[1..], 0) && cursor <= |text|
    requires rest[0].at < cursor || !unwrap(rest[0].id) || Opening(text, rest[0].at - 1, cursor, 1).None?
    ensures Unwrapped(text, rest, cursor, unwrap) == Unwrapped(text, rest[1..], cursor, unwrap)
  {
  }

  /** A link that is unwrapped gives its piece. */
  lemma UnwrappedPiece(text: string, rest: seq<Target>, cursor: nat, unwrap: string -> bool, open: nat)
    requires rest != [] && Ahead(text, rest, 0) && Ahead(text, rest[1..], 0)
    requires cursor <= |text| && cursor <= rest[0].at && unwrap(rest[0].id)
    requires Opening(text, rest[0].at - 1, cursor, 1) == Some(open)
    ensures Unwrapped(text, rest, cursor, unwrap)
            == Piece(text, cursor, open, rest[0].at) + Unwrapped(text, rest[1..], rest[0].end, unwrap)
  {
  }

  /** One match: what it adds to the output, and where the next search starts and stops. */
  method Advance(text: string, rest: seq<Target>, cursor: nat, scanFloor: nat, unwrap: string -> bool)
    returns (piece: string, cursor': nat, scanFloor': nat, looked: nat)
    requires rest != [] && Ahead(text, rest, Larger(cursor, scanFloor)) && Ahead(text, rest, 0) && Ahead(text, rest[1..], 0)
    requires cursor <= |text| && (scanFloor > cursor ==> Barren(text, scanFloor, cursor))
    ensures cursor' <= |text| && (scanFloor' > cursor' ==> Barren(text, scanFloor', cursor'))
    ensures Larger(cursor, scanFloor) + looked <= Larger(cursor', scanFloor') <= rest[0].end
    ensures Unwrapped(text, rest, cursor, unwrap) == piece + Unwrapped(text, rest[1..], cursor', unwrap)
  {
    var m := rest[0];
    piece, cursor', scanFloor', looked := "", cursor, scanFloor, 0;
    if m.at < cursor || !unwrap(m.id) {
      UnwrappedSkip(text, rest, cursor, unwrap);
      return;
    }
    var open;
    open, looked := SearchBack(text, m.at, cursor, scanFloor);
    if open.None? {
      UnwrappedSkip(text, rest, cursor, unwrap);
      scanFloor' := m.at;
    } else {
      UnwrappedPiece(text, rest, cursor, unwrap, open.value);
      piece := Piece(text, cursor, open.value, m.at);
      cursor' := m.end;
    }
  }

  /**
   * `unwrapInlineLinks`: searches stop at the last position one failed from, yet the text comes out
   * as if each went back to the last link, and together they look at no more than the text's length.
   */
  method UnwrapInlineLinks(text: string, unwrap: string -> bool) returns (out: string, visited: nat)
    ensures out == Unwrapped(text, Targets(text, 0), 0, unwrap)
    ensures visited <= |text|
  {
    var rest := Targets(text, 0);
    var cursor: nat, scanFloor: nat := 0, 0;
    out, visited := "", 0;
    ghost var all := Unwrapped(text, rest, 0, unwrap);
    while rest != []
      invariant cursor <= |text| && Larger(cursor, scanFloor) <= |text| && Ahead(text, rest, Larger(cursor, scanFloor))
      invariant Ahead(text, rest, 0) && out + Unwrapped(text, rest, cursor, unwrap) == all
      invariant scanFloor > cursor ==> Barren(text, scanFloor, cursor)
      invariant visited <= Larger(cursor, scanFloor)
      decreases |rest|
    {
      AheadBelow(text, rest[1..], rest[0].end, 0);
      var piece, looked;
      ghost var before := out;
      ghost var onward := Unwrapped(text, rest, cursor, unwrap);
      piece, cursor, scanFloor, looked := Advance(text, rest, cursor, scanFloor, unwrap);
      AheadBelow(text, rest[1..], rest[0].end, Larger(cursor, scanFloor));
      visited := visited + looked;
      out := out + piece;
      rest := rest[1..];
      assert before + onward == out + Unwrapped(text, rest, cursor, unwrap);
    }
    out := out + text[cursor..];
  }

  // --- Resolving --------------------------------------------------------------------------------------

  datatype Entry = Entry(collection: string, slug: string)

  /** `findEntry`: an id's location, when it is an entry with a collection and a slug. */
  function FindEntry(index: map<string, IndexSpec.Location>, id: string): Option<Entry> {
    if id !in index then None
    else
      var l := index[id];
      if l.kind.EntryKind? && l.collection.Some? && l.collection.value != "" && l.slug.Some? && l.slug.value != ""
      then Some(Entry(l.collection.value, l.slug.value)) else None
  }

  // Who resolves: the url of an entry, and which ids may be shown, if that is limited.
  datatype Resolver = Resolver(url: (string, string, string) -> string, linkable: Option<string -> bool>)

  predicate Withheld(r: Resolver, id: string) {
    r.linkable.Some? && !r.linkable.value(id)
  }

  // What replacing tokens gives, and the ids it looked up on the way, in order.
  datatype Output = Output(text: string, asked: seq<string>)

  function Then(a: Output, b: Output): Output {
    Output(a.text + b.text, a.asked + b.asked)
  }

  /** What a token becomes, for one lookup of its id. */
  function Shown(index: map<string, IndexSpec.Location>, r: Resolver, link: Link): Output {
    var entry := FindEntry(index, link.id);
    Output(if entry.None? then if r.linkable.Some? || link.anchor.None? then "#" else link.anchor.value
           else if Withheld(r, link.id) then "#"
           else r.url(entry.value.collection, entry.value.slug, link.id)
                + if link.anchor.Some? then link.anchor.value else "",
           [link.id])
  }

  /** Every token from `i` replaced; the rest as it is. */
  function Replaced(index: map<string, IndexSpec.Location>, r: Resolver, text: string, i: nat): Output
    decreases |text| - i
  {
    if i >= |text| then Output("", [])
    else
      var m := LinkAt(text, i);
      if m.Some? then Then(Shown(index, r, m.value), Replaced(index, r, text, m.value.end))
      else Then(Output([text[i]], []), Replaced(index, r, text, i + 1))
  }

  /** Links to a withheld or a missing target are unwrapped, where what may be shown is limited. */
  function Prepared(index: map<string, IndexSpec.Location>, r: Resolver, text: string): string {
    if r.linkable.None? then text
    else Unwrapped(text, Targets(text, 0), 0, id => Withheld(r, id) || FindEntry(index, id).None?)
  }

  function ResolvePart(index: map<string, IndexSpec.Location>, r: Resolver, part: Part): Output {
    if part.isCode then Output(part.text, []) else Replaced(index, r, Prepared(index, r, part.text), 0)
  }

  function ResolveParts(index: map<string, IndexSpec.Location>, r: Resolver, parts: seq<Part>): Output {
    if parts == [] then Output("", []) else Then(ResolvePart(index, r, parts[0]), ResolveParts(index, r, parts[1..]))
  }

  /** `resolveEntryLinksInText`; without `isLinkable`, `asked` is every lookup it makes. */
  function Resolve(index: map<string, IndexSpec.Location>, r: Resolver, text: string): Output {
    ResolveParts(index, r, Parts(text, 0, 0))
  }

  lemma ThenAgain(a: Output, b: Output, c: Output)
    ensures Then(Then(a, b), c) == Then(a, Then(b, c))
  {
    assert (a.text + b.text) + c.text == a.text + (b.text + c.text);
    assert (a.asked + b.asked) + c.asked == a.asked + (b.asked + c.asked);
  }

  lemma {:induction false} ResolvePartsOn(index: map<string, IndexSpec.Location>, r: Resolver, a: seq<Part>, b: seq<Part>)
    ensures ResolveParts(index, r, a + b) == Then(ResolveParts(index, r, a), ResolveParts(index, r, b))
  {
    if a == [] {
      assert a + b == b;
      var out := ResolveParts(index, r, b);
      assert "" + out.text == out.text && [] + out.asked == out.asked;
    } else {
      assert (a + b)[1..] == a[1..] + b;
      ResolvePartsOn(index, r, a[1..], b);
      ThenAgain(ResolvePart(index, r, a[0]), ResolveParts(index, r, a[1..]), ResolveParts(index, r, b));
    }
  }

  lemma CodePart(index: map<string, IndexSpec.Location>, r: Resolver, parts: seq<Part>, k: nat)
    requires k < |parts| && parts[k].isCode
    ensures Joined(parts) == Joined(parts[..k]) + parts[k].text + Joined(parts[k + 1..])
    ensures ResolveParts(index, r, parts).text
            == ResolveParts(index, r, parts[..k]).text + parts[k].text + ResolveParts(index, r, parts[k + 1..]).text
  {
    assert parts == parts[..k] + parts[k..];
    JoinedOn(parts[..k], parts[k..]);
    ResolvePartsOn(index, r, parts[..k], parts[k..]);
    CodeHead(index, r, parts[k..], parts[k], parts[k + 1..]);
    AndThen(Joined(parts[..k]), parts[k].text, Joined(parts[k + 1..]));
    AndThen(ResolveParts(index, r, parts[..k]).text, parts[k].text, ResolveParts(index, r, parts[k + 1..]).text);
  }

  lemma CodeHead(index: map<string, IndexSpec.Location>, r: Resolver, parts: seq<Part>, head: Part, rest: seq<Part>)
    requires parts != [] && parts[0] == head && parts[1..] == rest && head.isCode
    ensures Joined(parts) == head.text + Joined(rest)
    ensures ResolveParts(index, r, parts).text == head.text + ResolveParts(index, r, rest).text
  {
  }

  lemma AndThen(a: string, b: string, c: string)
    ensures a + (b + c) == a + b + c
  {
  }

  /** Each code part is in the output as it was in the text, between what its neighbours became. */
  lemma CodeIsVerbatim(index: map<string, IndexSpec.Location>, r: Resolver, text: string, k: nat)
    requires k < |Parts(text, 0, 0)| && Parts(text, 0, 0)[k].isCode
    ensures var parts := Parts(text, 0, 0);
            && text == Joined(parts[..k]) + parts[k].text + Joined(parts[k + 1..])
            && Resolve(index, r, text).text
               == ResolveParts(index, r, parts[..k]).text + parts[k].text + ResolveParts(index, r, parts[k + 1..]).text
  {
    PartsConcatenate(text);
    CodePart(index, r, Parts(text, 0, 0), k);
  }

  // --- What a withheld entry gives away ---------------------------------------------------------------

  /** Two indexes show the same entries to whoever may see them. */
  ghost predicate AgreeOnLinkable(a: map<string, IndexSpec.Location>, b: map<string, IndexSpec.Location>, r: Resolver) {
    forall id :: !Withheld(r, id) ==> FindEntry(a, id) == FindEntry(b, id)
  }

  lemma {:induction false} UnwrapsAlike(text: string, targets: seq<Target>, cursor: nat, f: string -> bool, g: string -> bool)
    requires cursor <= |text| && Ahead(text, targets, 0) && forall id :: f(id) == g(id)
    ensures Unwrapped(text, targets, cursor, f) == Unwrapped(text, targets, cursor, g)
    decreases |targets|
  {
    if targets != [] {
      var m := targets[0];
      AheadBelow(text, targets[1..], m.end, 0);
      UnwrapsAlike(text, targets[1..], cursor, f, g);
      UnwrapsAlike(text, targets[1..], m.end, f, g);
    }
  }

  lemma {:induction false} ReplacesAlike(a: map<string, IndexSpec.Location>, b: map<string, IndexSpec.Location>, r: Resolver,
                                         text: string, i: nat)
    requires r.linkable.Some? && AgreeOnLinkable(a, b, r)
    ensures Replaced(a, r, text, i) == Replaced(b, r, text, i)
    decreases |text| - i
  {
    if i < |text| {
      var m := LinkAt(text, i);
      if m.Some? {
        assert Withheld(r, m.value.id) || FindEntry(a, m.value.id) == FindEntry(b, m.value.id);
        ReplacesAlike(a, b, r, text, m.value.end);
      } else {
        ReplacesAlike(a, b, r, text, i + 1);
      }
    }
  }

  lemma PartsAlike(a: map<string, IndexSpec.Location>, b: map<string, IndexSpec.Location>, r: Resolver, part: Part)
    requires r.linkable.Some? && AgreeOnLinkable(a, b, r)
    ensures ResolvePart(a, r, part) == ResolvePart(b, r, part)
  {
    if !part.isCode {
      var f: string -> bool := id => Withheld(r, id) || FindEntry(a, id).None?;
      var g: string -> bool := id => Withheld(r, id) || FindEntry(b, id).None?;
      UnwrapsAlike(part.text, Targets(part.text, 0), 0, f, g);
      assert Prepared(a, r, part.text) == Prepared(b, r, part.text);
      ReplacesAlike(a, b, r, Prepared(a, r, part.text), 0);
    }
  }

  lemma {:induction false} AllPartsAlike(a: map<string, IndexSpec.Location>, b: map<string, IndexSpec.Location>, r: Resolver,
                                         parts: seq<Part>)
    requires r.linkable.Some? && AgreeOnLinkable(a, b, r)
    ensures ResolveParts(a, r, parts) == ResolveParts(b, r, parts)
  {
    if parts != [] {
      PartsAlike(a, b, r, parts[0]);
      AllPartsAlike(a, b, r, parts[1..]);
    }
  }

  /**
   * With `isLinkable` set, the output says nothing of an entry it refuses: not its collection, not
   * its slug, not even whether it exists.
   */
  lemma WithheldEntriesDoNotShow(a: map<string, IndexSpec.Location>, b: map<string, IndexSpec.Location>, r: Resolver, text: string)
    requires r.linkable.Some? && AgreeOnLinkable(a, b, r)
    ensures Resolve(a, r, text) == Resolve(b, r, text)
  {
    AllPartsAlike(a, b, r, Parts(text, 0, 0));
  }

  // --- Extracting -------------------------------------------------------------------------------------

  function IdsOf(links: seq<Link>): (ids: seq<string>)
    ensures |ids| == |links| && forall k :: 0 <= k < |ids| ==> ids[k] == links[k].id
  {
    seq(|links|, k requires 0 <= k < |links| => links[k].id)
  }

  function LinksOfParts(parts: seq<Part>): seq<Link> {
    if parts == [] then [] else (if parts[0].isCode then [] else Links(parts[0].text, 0)) + LinksOfParts(parts[1..])
  }

  lemma {:induction false} LinksOfPartsOn(a: seq<Part>, b: seq<Part>)
    ensures LinksOfParts(a + b) == LinksOfParts(a) + LinksOfParts(b)
  {
    if a == [] {
      assert a + b == b;
    } else {
      assert (a + b)[1..] == a[1..] + b;
      LinksOfPartsOn(a[1..], b);
    }
  }

  /** `extractEntryLinkIds`. */
  method ExtractEntryLinkIds(text: string) returns (results: seq<Link>)
    ensures results == LinksOfParts(Parts(text, 0, 0))
  {
    var parts := SplitByCodeRegions(text);
    results := [];
    var k := 0;
    while k < |parts|
      invariant 0 <= k <= |parts| && results == LinksOfParts(parts[..k])
    {
      assert parts[..k + 1] == parts[..k] + [parts[k]];
      LinksOfPartsOn(parts[..k], [parts[k]]);
      if !parts[k].isCode {
        var found := FindLinks(parts[k].text);
        results := results + found;
      }
      k := k + 1;
    }
    assert parts[..k] == parts;
  }

  /** The `exec` loop: one match after another, from the end of the last. */
  method FindLinks(text: string) returns (found: seq<Link>)
    ensures found == Links(text, 0)
  {
    found := [];
    var i := 0;
    while i < |text|
      invariant 0 <= i <= |text| && found + Links(text, i) == Links(text, 0)
      decreases |text| - i
    {
      var m := LinkAt(text, i);
      if m.Some? {
        found := found + [m.value];
        i := m.value.end;
      } else {
        i := i + 1;
      }
    }
  }

  lemma {:induction false} LooksUpLinks(index: map<string, IndexSpec.Location>, r: Resolver, text: string, i: nat)
    ensures Replaced(index, r, text, i).asked == IdsOf(Links(text, i))
    decreases |text| - i
  {
    if i < |text| {
      var m := LinkAt(text, i);
      if m.Some? {
        LooksUpLinks(index, r, text, m.value.end);
        IdsOfOn([m.value], Links(text, m.value.end));
        assert IdsOf([m.value]) == [m.value.id];
      } else {
        LooksUpLinks(index, r, text, i + 1);
      }
    }
  }

  lemma IdsOfOn(a: seq<Link>, b: seq<Link>)
    ensures IdsOf(a + b) == IdsOf(a) + IdsOf(b)
  {
  }

  lemma {:induction false} LooksUpPartLinks(index: map<string, IndexSpec.Location>, r: Resolver, parts: seq<Part>)
    requires r.linkable.None?
    ensures ResolveParts(index, r, parts).asked == IdsOf(LinksOfParts(parts))
  {
    if parts != [] {
      LooksUpPartLinks(index, r, parts[1..]);
      LooksUpLinks(index, r, parts[0].text, 0);
      IdsOfOn(if parts[0].isCode then [] else Links(parts[0].text, 0), LinksOfParts(parts[1..]));
    }
  }

  /** What extraction lists is, in order, what resolving without `isLinkable` looks up. */
  lemma ExtractedIdsAreTheOnesLookedUp(index: map<string, IndexSpec.Location>, r: Resolver, text: string)
    requires r.linkable.None?
    ensures Resolve(index, r, text).asked == IdsOf(LinksOfParts(Parts(text, 0, 0)))
  {
    LooksUpPartLinks(index, r, Parts(text, 0, 0));
  }

  // --- What the output depends on ---------------------------------------------------------------------

  /** Two indexes have the same entries for some ids. */
  ghost predicate AgreeOn(a: map<string, IndexSpec.Location>, b: map<string, IndexSpec.Location>, ids: seq<string>) {
    forall id :: id in ids ==> FindEntry(a, id) == FindEntry(b, id)
  }

  lemma {:induction false} LinksDecide(a: map<string, IndexSpec.Location>, b: map<string, IndexSpec.Location>, r: Resolver,
                                       text: string, i: nat)
    requires AgreeOn(a, b, IdsOf(Links(text, i)))
    ensures Replaced(a, r, text, i) == Replaced(b, r, text, i)
    decreases |text| - i
  {
    if i < |text| {
      var m := LinkAt(text, i);
      if m.Some? {
        IdsOfOn([m.value], Links(text, m.value.end));
        assert IdsOf([m.value]) == [m.value.id];
        LinksDecide(a, b, r, text, m.value.end);
      } else {
        LinksDecide(a, b, r, text, i + 1);
      }
    }
  }

  lemma {:induction false} PartLinksDecide(a: map<string, IndexSpec.Location>, b: map<string, IndexSpec.Location>, r: Resolver,
                                           parts: seq<Part>)
    requires r.linkable.None? && AgreeOn(a, b, IdsOf(LinksOfParts(parts)))
    ensures ResolveParts(a, r, parts) == ResolveParts(b, r, parts)
  {
    if parts != [] {
      IdsOfOn(if parts[0].isCode then [] else Links(parts[0].text, 0), LinksOfParts(parts[1..]));
      if !parts[0].isCode {
        LinksDecide(a, b, r, parts[0].text, 0);
      }
      PartLinksDecide(a, b, r, parts[1..]);
    }
  }

  /** Two indexes that agree on every extracted id resolve the text alike. */
  lemma OnlyExtractedMatters(a: map<string, IndexSpec.Location>, b: map<string, IndexSpec.Location>, r: Resolver, text: string)
    requires r.linkable.None? && AgreeOn(a, b, IdsOf(LinksOfParts(Parts(text, 0, 0))))
    ensures Resolve(a, r, text) == Resolve(b, r, text)
  {
    PartLinksDecide(a, b, r, Parts(text, 0, 0));
  }

  /** `b` has an entry for `id`; `a` has none, and is otherwise the same. */
  ghost predicate Adds(a: map<string, IndexSpec.Location>, b: map<string, IndexSpec.Location>, r: Resolver, id: string) {
    && r.linkable.None?
    && FindEntry(a, id).None? && FindEntry(b, id).Some?
    && forall other :: other != id ==> FindEntry(a, other) == FindEntry(b, other)
  }

  function UrlOf(index: map<string, IndexSpec.Location>, r: Resolver, id: string): string
    requires FindEntry(index, id).Some?
  {
    r.url(FindEntry(index, id).value.collection, FindEntry(index, id).value.slug, id)
  }

  /** A link to `id` that looks other than a dead one once it has this url. */
  predicate Tells(link: Link, id: string, url: string) {
    link.id == id && url != (if link.anchor.None? then "#" else "")
  }

  predicate AnyTells(links: seq<Link>, id: string, url: string) {
    exists k :: 0 <= k < |links| && Tells(links[k], id, url)
  }

  lemma AnyTellsOn(x: seq<Link>, y: seq<Link>, id: string, url: string)
    ensures AnyTells(x + y, id, url) <==> AnyTells(x, id, url) || AnyTells(y, id, url)
  {
    if AnyTells(x, id, url) {
      var k :| 0 <= k < |x| && Tells(x[k], id, url);
      assert (x + y)[k] == x[k];
    }
    if AnyTells(y, id, url) {
      var k :| 0 <= k < |y| && Tells(y[k], id, url);
      assert (x + y)[|x| + k] == y[k];
    }
    if AnyTells(x + y, id, url) {
      var k :| 0 <= k < |x + y| && Tells((x + y)[k], id, url);
      assert k < |x| ==> Tells(x[k], id, url);
      assert k >= |x| ==> Tells(y[k - |x|], id, url);
    }
  }

  /** No url at all is the one that can make a text shorter. */
  predicate Grows(before: string, after: string, url: string) {
    if url == "" then |after| <= |before| else |before| <= |after|
  }

  /** Pieces that all grow, or all shrink, differ together when any of them does. */
  lemma PiecesDiffer(x: string, y: string, v: string, w: string, url: string)
    requires Grows(x, y, url) && Grows(v, w, url)
    ensures Grows(x + v, y + w, url)
    ensures x + v != y + w <==> x != y || v != w
  {
    if x + v == y + w {
      assert |x + v| == |x| + |v| && |y + w| == |y| + |w|;
      assert x == (x + v)[..|x|] && y == (y + w)[..|y|];
      assert v == (x + v)[|x|..] && w == (y + w)[|y|..];
    }
  }

  lemma TokenTells(a: map<string, IndexSpec.Location>, b: map<string, IndexSpec.Location>, r: Resolver, id: string, link: Link)
    requires Adds(a, b, r, id)
    ensures Grows(Shown(a, r, link).text, Shown(b, r, link).text, UrlOf(b, r, id))
    ensures Shown(a, r, link).text != Shown(b, r, link).text <==> Tells(link, id, UrlOf(b, r, id))
  {
    if link.id == id && link.anchor.Some? {
      assert |UrlOf(b, r, id) + link.anchor.value| == |UrlOf(b, r, id)| + |link.anchor.value|;
      assert UrlOf(b, r, id) == "" ==> UrlOf(b, r, id) + link.anchor.value == link.anchor.value;
    } else if link.id == id {
      assert UrlOf(b, r, id) + "" == UrlOf(b, r, id);
    }
  }

  lemma {:induction false} ReplacedTells(a: map<string, IndexSpec.Location>, b: map<string, IndexSpec.Location>, r: Resolver,
                                         id: string, text: string, i: nat)
    requires Adds(a, b, r, id)
    ensures var x, y, url := Replaced(a, r, text, i).text, Replaced(b, r, text, i).text, UrlOf(b, r, id);
            Grows(x, y, url) && (x != y <==> AnyTells(Links(text, i), id, url))
    decreases |text| - i
  {
    var url := UrlOf(b, r, id);
    if i < |text| {
      var m := LinkAt(text, i);
      if m.Some? {
        var next := m.value.end;
        TokenTells(a, b, r, id, m.value);
        ReplacedTells(a, b, r, id, text, next);
        PiecesDiffer(Shown(a, r, m.value).text, Shown(b, r, m.value).text,
                     Replaced(a, r, text, next).text, Replaced(b, r, text, next).text, url);
        AnyTellsOn([m.value], Links(text, next), id, url);
        assert AnyTells([m.value], id, url) <==> Tells([m.value][0], id, url);
      } else {
        ReplacedTells(a, b, r, id, text, i + 1);
        PiecesDiffer([text[i]], [text[i]], Replaced(a, r, text, i + 1).text, Replaced(b, r, text, i + 1).text, url);
      }
    }
  }

  lemma PartTells(a: map<string, IndexSpec.Location>, b: map<string, IndexSpec.Location>, r: Resolver, id: string, part: Part)
    requires Adds(a, b, r, id)
    ensures var x, y, url := ResolvePart(a, r, part).text, ResolvePart(b, r, part).text, UrlOf(b, r, id);
            Grows(x, y, url) && (x != y <==> AnyTells(if part.isCode then [] else Links(part.text, 0), id, url))
  {
    if !part.isCode {
      ReplacedTells(a, b, r, id, part.text, 0);
    }
  }

  lemma {:induction false} PartsTell(a: map<string, IndexSpec.Location>, b: map<string, IndexSpec.Location>, r: Resolver,
                                     id: string, parts: seq<Part>)
    requires Adds(a, b, r, id)
    ensures var x, y, url := ResolveParts(a, r, parts).text, ResolveParts(b, r, parts).text, UrlOf(b, r, id);
            Grows(x, y, url) && (x != y <==> AnyTells(LinksOfParts(parts), id, url))
  {
    if parts != [] {
      var url := UrlOf(b, r, id);
      PartTells(a, b, r, id, parts[0]);
      PartsTell(a, b, r, id, parts[1..]);
      PiecesDiffer(ResolvePart(a, r, parts[0]).text, ResolvePart(b, r, parts[0]).text,
                   ResolveParts(a, r, parts[1..]).text, ResolveParts(b, r, parts[1..]).text, url);
      AnyTellsOn(if parts[0].isCode then [] else Links(parts[0].text, 0), LinksOfParts(parts[1..]), id, url);
    }
  }

  /**
   * An entry coming or going changes the output exactly when its id is extracted: at a link without
   * an anchor unless its url is `#`, which a dead link is too, at one with an anchor unless it has none.
   */
  lemma EveryExtractedMatters(a: map<string, IndexSpec.Location>, b: map<string, IndexSpec.Location>, r: Resolver,
                              id: string, text: string)
    requires Adds(a, b, r, id)
    ensures Resolve(a, r, text).text != Resolve(b, r, text).text
            <==> AnyTells(LinksOfParts(Parts(text, 0, 0)), id, UrlOf(b, r, id))
    ensures UrlOf(b, r, id) != "" && UrlOf(b, r, id) != "#" ==>
              (Resolve(a, r, text).text != Resolve(b, r, text).text <==> id in IdsOf(LinksOfParts(Parts(text, 0, 0))))
  {
    PartsTell(a, b, r, id, Parts(text, 0, 0));
    if UrlOf(b, r, id) != "" && UrlOf(b, r, id) != "#" {
      TellsIsExtracted(LinksOfParts(Parts(text, 0, 0)), id, UrlOf(b, r, id));
    }
  }

  lemma TellsIsExtracted(links: seq<Link>, id: string, url: string)
    requires url != "" && url != "#"
    ensures AnyTells(links, id, url) <==> id in IdsOf(links)
  {
    if id in IdsOf(links) {
      var k :| 0 <= k < |links| && IdsOf(links)[k] == id;
      assert Tells(links[k], id, url);
    }
    if AnyTells(links, id, url) {
      var k :| 0 <= k < |links| && Tells(links[k], id, url);
      assert IdsOf(links)[k] == id;
    }
  }
}
