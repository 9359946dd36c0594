/** The two patterns of entry links, each a deterministic match at a position, and their leftmost matches. */
module TextPatterns {
  import opened Options
  import Filenames

  /** What JavaScript's `\s` and `trim` take for white space. */
  predicate IsSpace(c: char) {
    || '\t' <= c <= '\r'
    || c == ' ' || c == '\U{00a0}' || c == '\U{1680}'
    || '\U{2000}' <= c <= '\U{200a}'
    || c == '\U{2028}' || c == '\U{2029}' || c == '\U{202f}' || c == '\U{205f}' || c == '\U{3000}' || c == '\U{feff}'
  }

  predicate StartsAt(text: string, i: nat, what: string) {
    i + |what| <= |text| && text[i..i + |what|] == what
  }

  /** `indexOf`. */
  function IndexOf(text: string, what: string, from: nat): (at: Option<nat>)
    ensures at.Some? ==> from <= at.value <= at.value + |what| <= |text|
    decreases |text| - from
  {
    if from + |what| > |text| then None
    else if StartsAt(text, from, what) then Some(from)
    else IndexOf(text, what, from + 1)
  }

  predicate IdAt(text: string, i: nat) {
    i + 12 <= |text| && Filenames.IsValidId(text[i..i + 12])
  }

  predicate AnchorChar(c: char) {
    !IsSpace(c) && c != ')' && c != '>' && c != '"' && c != '\''
  }

  /** How far anchor characters reach; an inline target's anchor also stops at `]`. */
  function AnchorEnd(text: string, i: nat, inTarget: bool): (end: nat)
    requires i <= |text|
    ensures i <= end <= |text|
    decreases |text| - i
  {
    if i < |text| && AnchorChar(text[i]) && !(inTarget && text[i] == ']') then AnchorEnd(text, i + 1, inTarget) else i
  }

  function AnchorFrom(text: string, i: nat, inTarget: bool): (end: nat)
    requires i <= |text|
    ensures i <= end <= |text|
  {
    if i < |text| && text[i] == '#' then AnchorEnd(text, i + 1, inTarget) else i
  }

  datatype Link = Link(at: nat, id: string, anchor: Option<string>, end: nat)

  /** `entry:ID` with an optional anchor, at a position. */
  function LinkAt(text: string, i: nat): (m: Option<Link>)
    ensures m.Some? ==> m.value.at == i && i < m.value.end <= |text| && Filenames.IsValidId(m.value.id)
  {
    if StartsAt(text, i, "entry:") && IdAt(text, i + 6) then
      var end := AnchorFrom(text, i + 18, false);
      Some(Link(i, text[i + 6..i + 18], if end == i + 18 then None else Some(text[i + 18..end]), end))
    else None
  }

  function BlanksEnd(text: string, i: nat): (end: nat)
    requires i <= |text|
    ensures i <= end <= |text|
    decreases |text| - i
  {
    if i < |text| && (text[i] == ' ' || text[i] == '\t') then BlanksEnd(text, i + 1) else i
  }

  function TitleEnd(text: string, i: nat): (end: nat)
    requires i <= |text|
    ensures i <= end <= |text|
    decreases |text| - i
  {
    if i < |text| && text[i] != '"' && text[i] != '\n' then TitleEnd(text, i + 1) else i
  }

  /** Past a quoted title after blanks, or where it would have started. */
  function TitleFrom(text: string, i: nat): (end: nat)
    requires i <= |text|
    ensures i <= end <= |text|
  {
    var quote := BlanksEnd(text, i);
    if quote == i || quote == |text| || text[quote] != '"' then i
    else
      var close := TitleEnd(text, quote + 1);
      if close < |text| && text[close] == '"' then close + 1 else i
  }

  datatype Target = Target(at: nat, id: string, end: nat)

  /** `](entry:ID#anchor "title")`, at a position. */
  function TargetAt(text: string, i: nat): (m: Option<Target>)
    ensures m.Some? ==> m.value.at == i && i < m.value.end <= |text| && text[i] == ']'
  {
    if StartsAt(text, i, "](entry:") && IdAt(text, i + 8) then
      assert text[i] == text[i..i + 8][0];
      var end := TitleFrom(text, AnchorFrom(text, i + 20, true));
      if end < |text| && text[end] == ')' then Some(Target(i, text[i + 8..i + 20], end + 1)) else None
    else None
  }

  /** Matches from a position on, in order and not overlapping. */
  predicate Ahead(text: string, targets: seq<Target>, from: nat) {
    targets == [] ||
    (&& from <= targets[0].at < targets[0].end <= |text|
     && text[targets[0].at] == ']'
     && Ahead(text, targets[1..], targets[0].end))
  }

  lemma AheadBelow(text: string, targets: seq<Target>, from: nat, lower: nat)
    requires Ahead(text, targets, from) && (targets != [] ==> lower <= targets[0].at)
    ensures Ahead(text, targets, lower)
  {
  }

  /** `matchAll`: the leftmost match from `i`, then on from its end. */
  function Targets(text: string, i: nat): (targets: seq<Target>)
    ensures Ahead(text, targets, i)
    decreases |text| - i
  {
    if i >= |text| then []
    else
      var m := TargetAt(text, i);
      if m.Some? then
        assert ([m.value] + Targets(text, m.value.end))[1..] == Targets(text, m.value.end);
        [m.value] + Targets(text, m.value.end)
      else Targets(text, i + 1)
  }

  function Links(text: string, i: nat): seq<Link>
    decreases |text| - i
  {
    if i >= |text| then []
    else
      var m := LinkAt(text, i);
      if m.Some? then [m.value] + Links(text, m.value.end) else Links(text, i + 1)
  }
}
