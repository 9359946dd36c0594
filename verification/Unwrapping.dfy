/** What unwrapping leaves of a text: all of it but the brackets and the targets of the links it unwraps. */
module Unwrapping {
  import opened Options
  import opened TextPatterns
  import opened LinkGrammar
  import opened EntryLinks
  import CodeSpans

  // --- Matching brackets ------------------------------------------------------------------------------

  /** Closing brackets less opening ones from `i` to `close`, escaped ones not counted. */
  function Net(text: string, floor: nat, i: nat, close: nat): int
    requires floor <= i && close <= |text|
    decreases close - i
  {
    if i >= close then 0
    else
      Net(text, floor, i + 1, close)
      + if i > floor && text[i - 1] == '\\' then 0 else if text[i] == ']' then 1 else if text[i] == '[' then -1 else 0
  }

  /** The bracket at `open` is the one that a `]` at `close` closes, looking no further back than `floor`. */
  predicate Opens(text: string, floor: nat, open: nat, close: nat) {
    && floor <= open < close <= |text| && text[open] == '[' && !(open > floor && text[open - 1] == '\\')
    && Net(text, floor, open + 1, close) == 0
    && forall k :: open < k < close ==> Net(text, floor, k, close) >= 0
  }

  /** `Opens`, of what is found from `i` back, once what is after it has been looked at. */
  predicate OpensFrom(text: string, floor: nat, open: nat, i: int, close: nat)
    requires close <= |text|
  {
    && floor <= open <= i < close && text[open] == '[' && !(open > floor && text[open - 1] == '\\')
    && Net(text, floor, open + 1, close) == 0
    && forall k :: open < k <= i ==> Net(text, floor, k, close) >= 0
  }

  lemma {:induction false} SearchFinds(text: string, i: int, floor: nat, depth: nat, close: nat, open: nat)
    requires floor - 1 <= i < close <= |text| && depth >= 1 && depth == 1 + Net(text, floor, i + 1, close)
    ensures Opening(text, i, floor, depth) == Some(open) <==> OpensFrom(text, floor, open, i, close)
    decreases i - floor + 1
  {
    if i >= floor {
      if Escaped(text, i, floor) {
        SearchFinds(text, i - 1, floor, depth, close, open);
      } else if text[i] == ']' {
        SearchFinds(text, i - 1, floor, depth + 1, close, open);
      } else if text[i] == '[' {
        if depth > 1 {
          SearchFinds(text, i - 1, floor, depth - 1, close, open);
        } else {
          assert Net(text, floor, i, close) == -1;
        }
      } else {
        SearchFinds(text, i - 1, floor, depth, close, open);
      }
    }
  }

  /** The backward search finds the bracket that opens what is closed, when there is one. */
  lemma SearchFindsTheBracket(text: string, floor: nat, close: nat, open: nat)
    requires floor <= close < |text|
    ensures Opening(text, close - 1, floor, 1) == Some(open) <==> Opens(text, floor, open, close)
  {
    SearchFinds(text, close - 1, floor, 1, close, open);
  }

  /** Every bracket in `inner` is closed in it. */
  predicate Balanced(inner: string) {
    && Net(inner, 0, 0, |inner|) == 0
    && forall k :: 0 <= k < |inner| ==> Net(inner, 0, k, |inner|) >= 0
  }

  lemma {:induction false} NetLater(text: string, d: nat, inner: string, k: nat)
    requires 1 <= d <= d + |inner| <= |text| && text[d..d + |inner|] == inner && text[d - 1] != '\\' && k <= |inner|
    ensures Net(text, 0, d + k, d + |inner|) == Net(inner, 0, k, |inner|)
    decreases |inner| - k
  {
    if k < |inner| {
      NetLater(text, d, inner, k + 1);
      assert text[d + k] == text[d..d + |inner|][k];
      if k > 0 {
        assert text[d + (k - 1)] == text[d..d + |inner|][k - 1];
      }
    }
  }

  lemma LabelOpens(text: string, open: nat, inner: string)
    requires open + 1 + |inner| < |text| && text[open] == '[' && text[open + 1..open + 1 + |inner|] == inner
    requires Balanced(inner) && (open > 0 ==> text[open - 1] != '\\')
    ensures Opens(text, 0, open, open + 1 + |inner|)
  {
    var close := open + 1 + |inner|;
    NetLater(text, open + 1, inner, 0);
    forall k | open < k < close ensures Net(text, 0, k, close) >= 0 {
      NetLater(text, open + 1, inner, k - open - 1);
      assert open + 1 + (k - open - 1) == k;
    }
  }

  // --- A text that starts later -----------------------------------------------------------------------

  function Moved(m: Target, d: nat): Target {
    Target(d + m.at, m.id, d + m.end)
  }

  function AllMoved(targets: seq<Target>, d: nat): (moved: seq<Target>)
    ensures |moved| == |targets|
  {
    if targets == [] then [] else [Moved(targets[0], d)] + AllMoved(targets[1..], d)
  }

  /** The pattern looks at nothing before where it starts. */
  lemma TargetLater(text: string, d: nat, rest: string, i: nat)
    requires CodeSpans.Tail(text, d, rest) && i <= |rest|
    ensures TargetAt(rest, i).Some? ==> TargetAt(text, d + i) == Some(Moved(TargetAt(rest, i).value, d))
    ensures TargetAt(rest, i).None? ==> TargetAt(text, d + i).None?
  {
    hide TargetAt, IsTarget, TargetText;
    CodeSpans.TailLength(text, d, rest);
    if TargetAt(rest, i).Some? {
      var end := TargetAt(rest, i).value.end;
      var anchor, blank, quoted := TargetMatched(rest, i);
      CodeSpans.TailSlice(text, d, rest, i, end);
      TargetThere(text, d + i, TargetAt(rest, i).value.id, anchor, blank, quoted);
    }
    if TargetAt(text, d + i).Some? {
      var end := TargetAt(text, d + i).value.end;
      var anchor, blank, quoted := TargetMatched(text, d + i);
      CodeSpans.TailSlice(text, d, rest, i, end - d);
      TargetThere(rest, i, TargetAt(text, d + i).value.id, anchor, blank, quoted);
    }
  }

  lemma {:induction false} TargetsLater(text: string, d: nat, rest: string, i: nat)
    requires CodeSpans.Tail(text, d, rest) && i <= |rest|
    ensures Targets(text, d + i) == AllMoved(Targets(rest, i), d)
    decreases |rest| - i
  {
    hide TargetAt;
    CodeSpans.TailLength(text, d, rest);
    if i < |rest| {
      TargetLater(text, d, rest, i);
      var m := TargetAt(rest, i);
      TargetsLater(text, d, rest, if m.Some? then m.value.end else i + 1);
    }
  }

  lemma CharLater(text: string, d: nat, rest: string, k: nat)
    requires CodeSpans.Tail(text, d, rest) && k < |rest|
    ensures d + k < |text| && text[d + k] == rest[k]
  {
    CodeSpans.TailAt(text, d, rest);
  }

  lemma {:induction false} OpeningLater(text: string, d: nat, rest: string, i: int, floor: nat, depth: nat)
    requires CodeSpans.Tail(text, d, rest) && floor - 1 <= i < |rest| && depth >= 1
    ensures d + |rest| == |text|
    ensures Opening(text, d + i, d + floor, depth) == CodeSpans.Later(Opening(rest, i, floor, depth), d)
    decreases i - floor + 1
  {
    hide CodeSpans.Tail;
    CodeSpans.TailLength(text, d, rest);
    if i >= floor {
      CharLater(text, d, rest, i);
      if i >= 1 {
        CharLater(text, d, rest, i - 1);
      }
      if Escaped(rest, i, floor) {
        OpeningLater(text, d, rest, i - 1, floor, depth);
      } else if rest[i] == ']' {
        OpeningLater(text, d, rest, i - 1, floor, depth + 1);
      } else if rest[i] == '[' {
        if depth > 1 {
          OpeningLater(text, d, rest, i - 1, floor, depth - 1);
        }
      } else {
        OpeningLater(text, d, rest, i - 1, floor, depth);
      }
    }
  }

  lemma PieceLater(text: string, d: nat, rest: string, cursor: nat, open: nat, close: nat)
    requires CodeSpans.Tail(text, d, rest) && (d > 0 ==> text[d - 1] != '\\') && cursor <= open < close <= |rest|
    ensures d + close <= |text| && Piece(text, d + cursor, d + open, d + close) == Piece(rest, cursor, open, close)
  {
    CodeSpans.TailAt(text, d, rest);
    if open >= 1 {
      assert text[d + (open - 1)] == rest[open - 1];
    }
    if open >= 2 {
      assert text[d + (open - 2)] == rest[open - 2];
    }
    assert LinkStart(text, d + open, d + cursor) == d + LinkStart(rest, open, cursor);
    CodeSpans.TailSlice(text, d, rest, cursor, LinkStart(rest, open, cursor));
    CodeSpans.TailSlice(text, d, rest, open + 1, close);
  }

  lemma {:induction false} UnwrappedLater(text: string, d: nat, rest: string, targets: seq<Target>, cursor: nat, unwrap: string -> bool)
    requires CodeSpans.Tail(text, d, rest) && (d > 0 ==> text[d - 1] != '\\') && cursor <= |rest|
    requires Ahead(rest, targets, 0) && Ahead(text, AllMoved(targets, d), 0)
    ensures d + cursor <= |text|
    ensures Unwrapped(text, AllMoved(targets, d), d + cursor, unwrap) == Unwrapped(rest, targets, cursor, unwrap)
    decreases |targets|
  {
    CodeSpans.TailLength(text, d, rest);
    CodeSpans.TailSlice(text, d, rest, cursor, |rest|);
    if targets == [] {
      assert text[d + cursor..] == text[d + cursor..d + |rest|] && rest[cursor..] == rest[cursor..|rest|];
    } else {
      NextLater(text, d, rest, targets, cursor, unwrap);
    }
  }

  lemma NextLater(text: string, d: nat, rest: string, targets: seq<Target>, cursor: nat, unwrap: string -> bool)
    requires CodeSpans.Tail(text, d, rest) && (d > 0 ==> text[d - 1] != '\\') && cursor <= |rest| && d + cursor <= |text|
    requires targets != [] && Ahead(rest, targets, 0) && Ahead(text, AllMoved(targets, d), 0)
    ensures Unwrapped(text, AllMoved(targets, d), d + cursor, unwrap) == Unwrapped(rest, targets, cursor, unwrap)
    decreases |targets|, 0
  {
    hide Piece, Opening, CodeSpans.Tail, Unwrapped;
    CodeSpans.TailLength(text, d, rest);
    var m, moved := targets[0], AllMoved(targets, d);
    assert moved[0] == Moved(m, d) && moved[1..] == AllMoved(targets[1..], d);
    AheadBelow(rest, targets[1..], m.end, 0);
    AheadBelow(text, moved[1..], d + m.end, 0);
    UnwrappedLater(text, d, rest, targets[1..], cursor, unwrap);
    UnwrappedLater(text, d, rest, targets[1..], m.end, unwrap);
    if m.at >= cursor && unwrap(m.id) {
      OpeningLater(text, d, rest, m.at - 1, cursor, 1);
      assert d + (m.at - 1) == moved[0].at - 1;
      var open := Opening(rest, m.at - 1, cursor, 1);
      if open.Some? {
        PieceLater(text, d, rest, cursor, open.value, m.at);
      }
    }
    StepLater(text, d, rest, targets, cursor, unwrap);
  }

  lemma StepLater(text: string, d: nat, rest: string, targets: seq<Target>, cursor: nat, unwrap: string -> bool)
    requires targets != [] && Ahead(rest, targets, 0) && Ahead(rest, targets[1..], 0) && cursor <= |rest|
    requires AllMoved(targets, d)[0] == Moved(targets[0], d) && AllMoved(targets, d)[1..] == AllMoved(targets[1..], d)
    requires Ahead(text, AllMoved(targets, d), 0) && Ahead(text, AllMoved(targets[1..], d), 0) && d + |rest| == |text|
    requires Unwrapped(text, AllMoved(targets[1..], d), d + cursor, unwrap) == Unwrapped(rest, targets[1..], cursor, unwrap)
    requires Unwrapped(text, AllMoved(targets[1..], d), d + targets[0].end, unwrap)
             == Unwrapped(rest, targets[1..], targets[0].end, unwrap)
    requires targets[0].at >= cursor && unwrap(targets[0].id) ==>
               var open := Opening(rest, targets[0].at - 1, cursor, 1);
               && Opening(text, d + targets[0].at - 1, d + cursor, 1) == CodeSpans.Later(open, d)
               && (open.Some? ==> Piece(text, d + cursor, d + open.value, d + targets[0].at)
                                  == Piece(rest, cursor, open.value, targets[0].at))
    ensures Unwrapped(text, AllMoved(targets, d), d + cursor, unwrap) == Unwrapped(rest, targets, cursor, unwrap)
  {
    hide Piece, Opening, Unwrapped, AllMoved;
    var m, moved := targets[0], AllMoved(targets, d);
    if m.at < cursor || !unwrap(m.id) || Opening(rest, m.at - 1, cursor, 1).None? {
      UnwrappedSkip(rest, targets, cursor, unwrap);
      UnwrappedSkip(text, moved, d + cursor, unwrap);
    } else {
      var open := Opening(rest, m.at - 1, cursor, 1).value;
      UnwrappedPiece(rest, targets, cursor, unwrap, open);
      UnwrappedPiece(text, moved, d + cursor, unwrap, d + open);
    }
  }

  /** What `unwrapInlineLinks` makes of a text. */
  function Output(text: string, unwrap: string -> bool): string {
    Unwrapped(text, Targets(text, 0), 0, unwrap)
  }

  lemma RestUnwraps(text: string, d: nat, rest: string, unwrap: string -> bool)
    requires CodeSpans.Tail(text, d, rest) && (d > 0 ==> text[d - 1] != '\\')
    ensures Ahead(text, Targets(text, d), 0) && d <= |text|
    ensures Unwrapped(text, Targets(text, d), d, unwrap) == Output(rest, unwrap)
  {
    hide Unwrapped;
    TargetsLater(text, d, rest, 0);
    AheadBelow(text, Targets(text, d), d, 0);
    UnwrappedLater(text, d, rest, Targets(rest, 0), 0, unwrap);
  }

  // --- One link ---------------------------------------------------------------------------------------

  /** The pattern starts nowhere before `at`. */
  ghost predicate NoTargetBefore(text: string, at: nat) {
    forall k :: 0 <= k < at ==> !StartsAt(text, k, "](entry:")
  }

  lemma {:induction false} FirstTarget(text: string, i: nat, at: nat)
    requires i <= at < |text| && NoTargetBefore(text, at) && TargetAt(text, at).Some?
    ensures Targets(text, i) == [TargetAt(text, at).value] + Targets(text, TargetAt(text, at).value.end)
    decreases at - i
  {
    if i < at {
      assert !StartsAt(text, i, "](entry:");
      FirstTarget(text, i + 1, at);
    }
  }

  /** A text that starts with a link, what is before its `[` included. */
  datatype Inline = Inline(before: string, inner: string, id: string, anchor: string, blank: string, quoted: string)

  function InlineText(l: Inline): string {
    l.before + "[" + l.inner + TargetText(l.id, l.anchor, l.blank, l.quoted)
  }

  /** A link with a whole target, its brackets balanced and its own not escaped, and no target before its own. */
  ghost predicate IsInline(l: Inline) {
    && IsTarget(l.id, l.anchor, l.blank, l.quoted) && Balanced(l.inner)
    && (l.before != "" ==> l.before[|l.before| - 1] != '\\')
    && NoTargetBefore(InlineText(l), |l.before| + 1 + |l.inner|)
  }

  lemma InlinePlaces(text: string, l: Inline, rest: string)
    requires text == InlineText(l) + rest
    ensures var open := |l.before|;
            var at := open + 1 + |l.inner|;
            && at + |TargetText(l.id, l.anchor, l.blank, l.quoted)| == |InlineText(l)| <= |text|
            && text[..open] == l.before && text[open] == '[' && text[open + 1..at] == l.inner
            && StartsAt(text, at, TargetText(l.id, l.anchor, l.blank, l.quoted))
            && text[|InlineText(l)|..] == rest && text[|InlineText(l)| - 1] == ')'
            && forall k :: 0 <= k < |InlineText(l)| ==> text[k] == InlineText(l)[k]
  {
    hide TargetText;
    var target := TargetText(l.id, l.anchor, l.blank, l.quoted);
    var open := |l.before|;
    var at := open + 1 + |l.inner|;
    assert InlineText(l) == l.before + ("[" + (l.inner + target));
    assert text[at..at + |target|] == target;
    TargetTextEnds(l.id, l.anchor, l.blank, l.quoted);
  }

  lemma TargetTextEnds(id: string, anchor: string, blank: string, quoted: string)
    ensures var target := TargetText(id, anchor, blank, quoted); |target| > 0 && target[|target| - 1] == ')'
  {
  }

  lemma NoneBeforeThere(text: string, l: Inline, rest: string)
    requires text == InlineText(l) + rest && IsInline(l)
    ensures NoTargetBefore(text, |l.before| + 1 + |l.inner|)
  {
    var at := |l.before| + 1 + |l.inner|;
    InlinePlaces(text, l, rest);
    forall k | 0 <= k < at ensures !StartsAt(text, k, "](entry:") {
      assert !StartsAt(InlineText(l), k, "](entry:");
      // What starts before the target ends within it.
      assert k + 8 <= |InlineText(l)|;
      assert text[k..k + 8] == InlineText(l)[k..k + 8];
    }
  }

  lemma InlineOpens(text: string, l: Inline, rest: string)
    requires text == InlineText(l) + rest && IsInline(l)
    ensures var at := |l.before| + 1 + |l.inner|;
            && at < |text| && Opening(text, at - 1, 0, 1) == Some(|l.before|)
            && TargetAt(text, at) == Some(Target(at, l.id, |InlineText(l)|))
  {
    hide TargetAt, TargetText, IsTarget, Balanced;
    var at := |l.before| + 1 + |l.inner|;
    InlinePlaces(text, l, rest);
    TargetThere(text, at, l.id, l.anchor, l.blank, l.quoted);
    if l.before != "" {
      assert text[|l.before| - 1] == l.before[|l.before| - 1];
    }
    LabelOpens(text, |l.before|, l.inner);
    SearchFindsTheBracket(text, 0, at, |l.before|);
  }

  lemma InlineGives(text: string, l: Inline, rest: string, unwrap: string -> bool)
    requires text == InlineText(l) + rest && IsInline(l) && unwrap(l.id)
    ensures |l.before| < |l.before| + 1 + |l.inner| <= |text|
    ensures Output(text, unwrap)
            == Piece(text, 0, |l.before|, |l.before| + 1 + |l.inner|) + Output(rest, unwrap)
  {
    hide Opening, TargetAt, Piece, IsInline, InlineText, Unwrapped;
    var at := |l.before| + 1 + |l.inner|;
    InlinePlaces(text, l, rest);
    InlineOpens(text, l, rest);
    NoneBeforeThere(text, l, rest);
    FirstTarget(text, 0, at);
    var targets := Targets(text, 0);
    var end := TargetAt(text, at).value.end;
    assert targets[0] == Target(at, l.id, end) && targets[1..] == Targets(text, end);
    RestUnwraps(text, end, rest, unwrap);
    UnwrappedPiece(text, targets, 0, unwrap, |l.before|);
  }

  /** Ends in a `!` that is not escaped. */
  predicate EndsInBang(before: string) {
    before != "" && before[|before| - 1] == '!' && !(|before| >= 2 && before[|before| - 2] == '\\')
  }

  /**
   * A link whose id is unwrapped leaves what was before it and what its brackets held, and the rest is
   * unwrapped on its own. The `!` of an image goes too, unless it is escaped and so none.
   */
  lemma InlineLinkLeavesItsText(l: Inline, rest: string, unwrap: string -> bool)
    requires IsInline(l) && unwrap(l.id)
    ensures Output(InlineText(l) + rest, unwrap)
            == (if EndsInBang(l.before) then l.before[..|l.before| - 1] else l.before) + l.inner + Output(rest, unwrap)
  {
    var text, open := InlineText(l) + rest, |l.before|;
    InlineGives(text, l, rest, unwrap);
    InlinePlaces(text, l, rest);
    assert open >= 1 ==> text[open - 1] == l.before[open - 1];
    assert open >= 2 ==> text[open - 2] == l.before[open - 2];
    assert text[0..open] == l.before;
    assert open >= 1 ==> text[0..open - 1] == l.before[..open - 1];
  }

  /** Text with no target in it is left as it is. */
  lemma {:induction false} NoTargets(text: string, i: nat)
    requires NoTargetBefore(text, |text|)
    ensures Targets(text, i) == []
    decreases |text| - i
  {
    if i < |text| {
      assert !StartsAt(text, i, "](entry:");
      NoTargets(text, i + 1);
    }
  }

  lemma PlainIsLeft(text: string, unwrap: string -> bool)
    requires NoTargetBefore(text, |text|)
    ensures Output(text, unwrap) == text
  {
    NoTargets(text, 0);
  }

  // --- The whole text ---------------------------------------------------------------------------------

  // An unwrapped link: its `[`, its `]`, and where its target ends.
  datatype Cut = Cut(open: nat, at: nat, end: nat)

  /** The `!` before a bracket makes it an image's. */
  predicate ImageAt(text: string, open: nat) {
    1 <= open <= |text| && text[open - 1] == '!' && !(open >= 2 && text[open - 2] == '\\')
  }

  /** What goes of a link: its bracket, with the `!` of an image, and everything from its `]` to the end of its target. */
  predicate Goes(text: string, c: Cut, k: nat) {
    k == c.open || (k + 1 == c.open && ImageAt(text, c.open)) || c.at <= k < c.end
  }

  predicate Gone(text: string, cuts: seq<Cut>, k: nat) {
    exists j :: 0 <= j < |cuts| && Goes(text, cuts[j], k)
  }

  /** The characters from `i` that do not go, in order. */
  function Left(text: string, cuts: seq<Cut>, i: nat): string
    decreases |text| - i
  {
    if i >= |text| then "" else (if Gone(text, cuts, i) then "" else [text[i]]) + Left(text, cuts, i + 1)
  }

  /** Links one after another from `from` on, each with a target to unwrap and the bracket that its own closes. */
  ghost predicate AreLinks(text: string, cuts: seq<Cut>, from: nat, unwrap: string -> bool) {
    cuts == [] ||
    (var c := cuts[0];
     && from <= c.open < c.at < c.end <= |text| && Opens(text, from, c.open, c.at)
     && TargetAt(text, c.at).Some? && TargetAt(text, c.at).value.end == c.end && unwrap(TargetAt(text, c.at).value.id)
     && AreLinks(text, cuts[1..], c.end, unwrap))
  }

  /** Where the last of the links before `at` ends. */
  function LastEnd(cuts: seq<Cut>, from: nat, at: nat): nat {
    if cuts == [] || cuts[0].at >= at then from else LastEnd(cuts[1..], cuts[0].end, at)
  }

  /** Of these targets, each that is to be unwrapped is one of the links', or has no bracket to be unwrapped with. */
  ghost predicate NoneMissed(text: string, cuts: seq<Cut>, from: nat, targets: seq<Target>, unwrap: string -> bool) {
    forall k :: 0 <= k < |targets| && unwrap(targets[k].id) ==>
      || (exists j :: 0 <= j < |cuts| && cuts[j].at == targets[k].at)
      || forall open :: !Opens(text, LastEnd(cuts, from, targets[k].at), open, targets[k].at)
  }

  lemma {:induction false} LeftSkips(text: string, cuts: seq<Cut>, i: nat, j: nat)
    requires i <= j <= |text| && forall k :: i <= k < j ==> Gone(text, cuts, k)
    ensures Left(text, cuts, i) == Left(text, cuts, j)
    decreases j - i
  {
    if i < j {
      LeftSkips(text, cuts, i + 1, j);
    }
  }

  lemma {:induction false} LeftKeeps(text: string, cuts: seq<Cut>, i: nat, j: nat)
    requires i <= j <= |text| && forall k :: i <= k < j ==> !Gone(text, cuts, k)
    ensures Left(text, cuts, i) == text[i..j] + Left(text, cuts, j)
    decreases j - i
  {
    hide Gone;
    if i < j {
      LeftKeeps(text, cuts, i + 1, j);
      assert text[i..j] == [text[i]] + text[i + 1..j];
      AndThen([text[i]], text[i + 1..j], Left(text, cuts, j));
    }
  }

  lemma {:induction false} LeftAlike(text: string, cuts: seq<Cut>, other: seq<Cut>, i: nat)
    requires forall k :: i <= k < |text| ==> (Gone(text, cuts, k) <==> Gone(text, other, k))
    ensures Left(text, cuts, i) == Left(text, other, i)
    decreases |text| - i
  {
    if i < |text| {
      LeftAlike(text, cuts, other, i + 1);
    }
  }

  lemma LeftWithout(text: string, from: nat)
    requires from <= |text|
    ensures Left(text, [], from) == text[from..]
  {
    LeftKeeps(text, [], from, |text|);
    assert text[from..|text|] == text[from..];
  }

  lemma GoneWith(text: string, c: Cut, cuts: seq<Cut>, k: nat)
    ensures Gone(text, [c] + cuts, k) <==> Goes(text, c, k) || Gone(text, cuts, k)
  {
    var all := [c] + cuts;
    if Goes(text, c, k) {
      assert all[0] == c;
    }
    if Gone(text, cuts, k) {
      var j :| 0 <= j < |cuts| && Goes(text, cuts[j], k);
      assert all[j + 1] == cuts[j];
    }
    if Gone(text, all, k) && !Goes(text, c, k) {
      var j :| 0 <= j < |all| && Goes(text, all[j], k);
      assert cuts[j - 1] == all[j];
    }
  }

  /** Nothing before where links may start goes with them, if what is just before is no `!`. */
  lemma {:induction false} NoneGoneBefore(text: string, cuts: seq<Cut>, from: nat, unwrap: string -> bool, k: nat)
    requires AreLinks(text, cuts, from, unwrap) && k < from <= |text| && text[from - 1] != '!'
    ensures !Gone(text, cuts, k)
  {
    if cuts != [] {
      var c := cuts[0];
      assert cuts == [c] + cuts[1..];
      GoneWith(text, c, cuts[1..], k);
      TargetEnds(text, c.at);
      NoneGoneBefore(text, cuts[1..], c.end, unwrap, k);
    }
  }

  lemma TargetEnds(text: string, at: nat)
    requires TargetAt(text, at).Some?
    ensures var end := TargetAt(text, at).value.end; at < end <= |text| && text[end - 1] == ')'
  {
  }

  function StartOf(text: string, c: Cut): int {
    if ImageAt(text, c.open) then c.open - 1 else c.open
  }

  /** What goes in and before a link is what goes of it. */
  lemma GoneOfOne(text: string, c: Cut, cuts: seq<Cut>, from: nat, unwrap: string -> bool)
    requires from <= c.open && AreLinks(text, [c] + cuts, from, unwrap) && (from > 0 ==> text[from - 1] != '!')
    ensures from <= StartOf(text, c) <= c.open < c.at < c.end <= |text|
    ensures forall k :: from <= k < StartOf(text, c) || c.open < k < c.at ==> !Gone(text, [c] + cuts, k)
    ensures forall k :: StartOf(text, c) <= k <= c.open || c.at <= k < c.end ==> Gone(text, [c] + cuts, k)
    ensures forall k :: c.end <= k ==> (Gone(text, [c] + cuts, k) <==> Gone(text, cuts, k))
  {
    hide Gone;
    var all := [c] + cuts;
    assert all[0] == c && all[1..] == cuts;
    TargetEnds(text, c.at);
    forall k: nat ensures Gone(text, all, k) <==> Goes(text, c, k) || Gone(text, cuts, k) {
      GoneWith(text, c, cuts, k);
    }
    forall k: nat | k < c.end ensures !Gone(text, cuts, k) {
      NoneGoneBefore(text, cuts, c.end, unwrap, k);
    }
  }

  /** One more link in front: its own piece, and then what the others leave. */
  lemma LeftOfOne(text: string, c: Cut, cuts: seq<Cut>, from: nat, unwrap: string -> bool)
    requires from <= c.open && AreLinks(text, [c] + cuts, from, unwrap) && (from > 0 ==> text[from - 1] != '!')
    ensures from <= StartOf(text, c) <= c.open < c.at < c.end <= |text|
    ensures Left(text, [c] + cuts, from)
            == text[from..StartOf(text, c)] + text[c.open + 1..c.at] + Left(text, cuts, c.end)
  {
    hide Gone, Left, AreLinks, StartOf;
    var all := [c] + cuts;
    GoneOfOne(text, c, cuts, from, unwrap);
    LeftKeeps(text, all, from, StartOf(text, c));
    LeftSkips(text, all, StartOf(text, c), c.open + 1);
    LeftKeeps(text, all, c.open + 1, c.at);
    LeftSkips(text, all, c.at, c.end);
    LeftAlike(text, all, cuts, c.end);
    AndThen(text[from..StartOf(text, c)], text[c.open + 1..c.at], Left(text, cuts, c.end));
  }

  lemma StartIsImages(text: string, open: nat, cursor: nat)
    requires cursor <= open < |text| && (cursor > 0 ==> text[cursor - 1] != '!')
    ensures LinkStart(text, open, cursor) == if ImageAt(text, open) then open - 1 else open
  {
  }

  lemma MissedLater(text: string, c: Cut, cuts: seq<Cut>, from: nat, targets: seq<Target>, unwrap: string -> bool)
    requires targets != [] && c.at == targets[0].at && Ahead(text, targets, 0)
    requires NoneMissed(text, cuts, c.end, targets[1..], unwrap)
    ensures NoneMissed(text, [c] + cuts, from, targets, unwrap)
  {
    var all := [c] + cuts;
    assert all[0] == c && all[1..] == cuts;
    forall k | 0 <= k < |targets| && unwrap(targets[k].id)
      ensures || (exists j :: 0 <= j < |all| && all[j].at == targets[k].at)
              || forall open :: !Opens(text, LastEnd(all, from, targets[k].at), open, targets[k].at)
    {
      if k > 0 {
        AheadAscends(text, targets, 0, k);
        assert targets[1..][k - 1] == targets[k];
        if exists j :: 0 <= j < |cuts| && cuts[j].at == targets[k].at {
          var j :| 0 <= j < |cuts| && cuts[j].at == targets[k].at;
          assert all[j + 1] == cuts[j];
        }
      }
    }
  }

  lemma {:induction false} AheadAscends(text: string, targets: seq<Target>, from: nat, k: nat)
    requires Ahead(text, targets, from) && 0 < k < |targets|
    ensures targets[0].at < targets[k].at
    decreases k
  {
    if k > 1 {
      AheadAscends(text, targets[1..], targets[0].end, k - 1);
    }
  }

  lemma MissedSkip(text: string, cuts: seq<Cut>, from: nat, targets: seq<Target>, unwrap: string -> bool)
    requires targets != [] && NoneMissed(text, cuts, from, targets[1..], unwrap)
    requires unwrap(targets[0].id) ==> forall open :: !Opens(text, LastEnd(cuts, from, targets[0].at), open, targets[0].at)
    ensures NoneMissed(text, cuts, from, targets, unwrap)
  {
    forall k | 0 <= k < |targets| && unwrap(targets[k].id)
      ensures || (exists j :: 0 <= j < |cuts| && cuts[j].at == targets[k].at)
              || forall open :: !Opens(text, LastEnd(cuts, from, targets[k].at), open, targets[k].at)
    {
      if k > 0 {
        assert targets[1..][k - 1] == targets[k];
      }
    }
  }

  ghost predicate AllMatched(text: string, targets: seq<Target>) {
    forall k :: 0 <= k < |targets| ==> TargetAt(text, targets[k].at) == Some(targets[k])
  }

  lemma {:induction false} TargetsMatch(text: string, i: nat)
    ensures AllMatched(text, Targets(text, i))
    decreases |text| - i
  {
    hide TargetAt;
    if i < |text| {
      var m := TargetAt(text, i);
      TargetsMatch(text, if m.Some? then m.value.end else i + 1);
    }
  }

  predicate AtOneOf(targets: seq<Target>, from: nat, at: nat) {
    exists k :: from <= k < |targets| && targets[k].at == at
  }

  ghost predicate FromTargets(cuts: seq<Cut>, targets: seq<Target>, from: nat) {
    forall j :: 0 <= j < |cuts| ==> AtOneOf(targets, from, cuts[j].at)
  }

  lemma LinksStart(text: string, cuts: seq<Cut>, from: nat, targets: seq<Target>)
    requires FromTargets(cuts, targets, 1) && targets != [] && Ahead(text, targets, 0)
    ensures LastEnd(cuts, from, targets[0].at) == from
  {
    if cuts != [] {
      assert AtOneOf(targets, 1, cuts[0].at);
      var k :| 1 <= k < |targets| && targets[k].at == cuts[0].at;
      AheadAscends(text, targets, 0, k);
    }
  }

  lemma FromMore(cuts: seq<Cut>, targets: seq<Target>)
    requires targets != [] && FromTargets(cuts, targets[1..], 0)
    ensures FromTargets(cuts, targets, 1) && FromTargets(cuts, targets, 0)
  {
    forall j | 0 <= j < |cuts| ensures AtOneOf(targets, 1, cuts[j].at) && AtOneOf(targets, 0, cuts[j].at) {
      assert AtOneOf(targets[1..], 0, cuts[j].at);
      var k :| 0 <= k < |targets[1..]| && targets[1..][k].at == cuts[j].at;
      assert targets[k + 1].at == cuts[j].at;
    }
  }

  /** From a cursor on: the links it unwraps, and what is left. */
  lemma {:induction false} CutsFrom(text: string, targets: seq<Target>, cursor: nat, unwrap: string -> bool) returns (cuts: seq<Cut>)
    requires cursor <= |text| && Ahead(text, targets, 0) && AllMatched(text, targets)
    requires (cursor > 0 ==> text[cursor - 1] != '!') && (targets != [] ==> cursor <= targets[0].at)
    ensures AreLinks(text, cuts, cursor, unwrap) && FromTargets(cuts, targets, 0)
    ensures NoneMissed(text, cuts, cursor, targets, unwrap)
    ensures Unwrapped(text, targets, cursor, unwrap) == Left(text, cuts, cursor)
    decreases |targets|
  {
    if targets == [] {
      cuts := [];
      LeftWithout(text, cursor);
    } else {
      cuts := CutNext(text, targets, cursor, unwrap);
    }
  }

  lemma LaterMatched(text: string, targets: seq<Target>)
    requires targets != [] && AllMatched(text, targets) && Ahead(text, targets, 0)
    ensures AllMatched(text, targets[1..]) && Ahead(text, targets[1..], 0)
    ensures |targets| > 1 ==> targets[0].end <= targets[1].at
    ensures TargetAt(text, targets[0].at) == Some(targets[0]) && targets[0].at < targets[0].end <= |text|
  {
    AheadBelow(text, targets[1..], targets[0].end, 0);
    forall k | 0 <= k < |targets| - 1 ensures TargetAt(text, targets[1..][k].at) == Some(targets[1..][k]) {
      assert targets[1..][k] == targets[k + 1];
    }
  }

  lemma CutNext(text: string, targets: seq<Target>, cursor: nat, unwrap: string -> bool) returns (cuts: seq<Cut>)
    requires targets != [] && cursor <= targets[0].at && cursor <= |text| && Ahead(text, targets, 0) && AllMatched(text, targets)
    requires cursor > 0 ==> text[cursor - 1] != '!'
    ensures AreLinks(text, cuts, cursor, unwrap) && FromTargets(cuts, targets, 0)
    ensures NoneMissed(text, cuts, cursor, targets, unwrap)
    ensures Unwrapped(text, targets, cursor, unwrap) == Left(text, cuts, cursor)
    decreases |targets|, 0
  {
    hide TargetAt, Unwrapped, Left, NoneMissed, FromTargets, Opens, Opening, AllMatched;
    var m := targets[0];
    LaterMatched(text, targets);
    if !unwrap(m.id) || Opening(text, m.at - 1, cursor, 1).None? {
      cuts := CutsFrom(text, targets[1..], cursor, unwrap);
      FromMore(cuts, targets);
      LinksStart(text, cuts, cursor, targets);
      forall open ensures unwrap(m.id) ==> !Opens(text, cursor, open, m.at) {
        SearchFindsTheBracket(text, cursor, m.at, open);
      }
      MissedSkip(text, cuts, cursor, targets, unwrap);
      UnwrappedSkip(text, targets, cursor, unwrap);
    } else {
      var open := Opening(text, m.at - 1, cursor, 1).value;
      SearchFindsTheBracket(text, cursor, m.at, open);
      TargetEnds(text, m.at);
      var rest := CutsFrom(text, targets[1..], m.end, unwrap);
      cuts := TakeOne(text, targets, cursor, unwrap, open, rest);
    }
  }

  lemma TakeOne(text: string, targets: seq<Target>, cursor: nat, unwrap: string -> bool, open: nat, rest: seq<Cut>)
    returns (cuts: seq<Cut>)
    requires targets != [] && cursor <= open < targets[0].at < targets[0].end <= |text|
    requires Ahead(text, targets, 0) && Ahead(text, targets[1..], 0) && unwrap(targets[0].id)
    requires TargetAt(text, targets[0].at) == Some(targets[0]) && (cursor > 0 ==> text[cursor - 1] != '!')
    requires Opens(text, cursor, open, targets[0].at) && Opening(text, targets[0].at - 1, cursor, 1) == Some(open)
    requires AreLinks(text, rest, targets[0].end, unwrap) && FromTargets(rest, targets[1..], 0)
    requires NoneMissed(text, rest, targets[0].end, targets[1..], unwrap)
    requires Unwrapped(text, targets[1..], targets[0].end, unwrap) == Left(text, rest, targets[0].end)
    ensures AreLinks(text, cuts, cursor, unwrap) && FromTargets(cuts, targets, 0)
    ensures NoneMissed(text, cuts, cursor, targets, unwrap)
    ensures Unwrapped(text, targets, cursor, unwrap) == Left(text, cuts, cursor)
  {
    hide TargetAt, Unwrapped, Left, NoneMissed, Opens, Opening;
    var m := targets[0];
    var c := Cut(open, m.at, m.end);
    cuts := [c] + rest;
    assert cuts[0] == c && cuts[1..] == rest;
    FromMore(rest, targets);
    assert FromTargets(cuts, targets, 0) by {
      assert targets[0].at == c.at;
      forall j | 0 <= j < |cuts| ensures AtOneOf(targets, 0, cuts[j].at) {
        assert j > 0 ==> cuts[j] == rest[j - 1];
      }
    }
    MissedLater(text, c, rest, cursor, targets, unwrap);
    LeftOfOne(text, c, rest, cursor, unwrap);
    StartIsImages(text, open, cursor);
    UnwrappedPiece(text, targets, cursor, unwrap, open);
  }

  /**
   * What unwrapping gives is the text with the brackets and targets of some links left out, and every
   * other character kept in order. The links follow one another, each with a target to unwrap and the
   * bracket that its own `]` closes, and no target to unwrap is passed over that has such a bracket.
   */
  lemma OnlyBracketsAndTargetsGo(text: string, unwrap: string -> bool) returns (cuts: seq<Cut>)
    ensures AreLinks(text, cuts, 0, unwrap) && NoneMissed(text, cuts, 0, Targets(text, 0), unwrap)
    ensures Output(text, unwrap) == Left(text, cuts, 0)
  {
    TargetsMatch(text, 0);
    cuts := CutsFrom(text, Targets(text, 0), 0, unwrap);
  }

  /** The targets are the leftmost matches: the pattern matches at no other place outside them. */
  lemma {:induction false} TargetsAreLeftmost(text: string, i: nat, at: nat)
    requires i <= at && TargetAt(text, at).Some?
    ensures exists k :: 0 <= k < |Targets(text, i)| && Targets(text, i)[k].at <= at < Targets(text, i)[k].end
    decreases |text| - i
  {
    hide TargetAt;
    if i < |text| {
      var m := TargetAt(text, i);
      if m.Some? {
        if at < m.value.end {
          assert Targets(text, i)[0] == m.value;
        } else {
          TargetsAreLeftmost(text, m.value.end, at);
          var later := Targets(text, m.value.end);
          var k :| 0 <= k < |later| && later[k].at <= at < later[k].end;
          assert Targets(text, i)[k + 1] == later[k];
        }
      } else {
        TargetsAreLeftmost(text, i + 1, at);
      }
    }
  }
}
