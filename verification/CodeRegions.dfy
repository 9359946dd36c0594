/** Splitting text into code and the rest: fenced blocks and inline spans. */
module CodeRegions {
  import opened Options
  import opened TextPatterns

  datatype Part = Part(text: string, isCode: bool)

  predicate FenceAt(text: string, i: nat) {
    i + 2 < |text| && (text[i] == '`' || text[i] == '~') && text[i + 1] == text[i] && text[i + 2] == text[i]
  }

  function Run(text: string, i: nat, c: char): (n: nat)
    ensures i + n <= |text| || n == 0
    ensures forall k :: i <= k < i + n ==> text[k] == c
    ensures i + n < |text| ==> text[i + n] != c
    decreases |text| - i
  {
    if i < |text| && text[i] == c then 1 + Run(text, i + 1, c) else 0
  }

  function Repeat(c: char, n: nat): (s: string)
    ensures |s| == n
  {
    if n == 0 then "" else [c] + Repeat(c, n - 1)
  }

  /** Past the white space from `i`. */
  function Blanks(s: string, i: nat): (end: nat)
    decreases |s| - i
  {
    if i < |s| && IsSpace(s[i]) then Blanks(s, i + 1) else i
  }

  /** `indexOf` of a newline. */
  function Newline(text: string, from: nat): (at: Option<nat>)
    ensures at.Some? ==> from <= at.value < |text|
    decreases |text| - from
  {
    if from >= |text| then None else if text[from] == '\n' then Some(from) else Newline(text, from + 1)
  }

  /** The end of the line from `i`, newline included. */
  function LineEnd(text: string, i: nat): (end: nat)
    requires i < |text|
    ensures i < end <= |text|
  {
    var newline := Newline(text, i);
    if newline.None? then |text| else newline.value + 1
  }

  /** The line from `i`, newline left off. */
  function Line(text: string, i: nat): string
    requires i < |text|
  {
    var newline := Newline(text, i);
    if newline.None? then text[i..] else text[i..newline.value]
  }

  /** `trim` then `startsWith`; what is trimmed off the end is no part of a run of fence characters. */
  predicate Closes(line: string, closing: string) {
    StartsAt(line, Blanks(line, 0), closing)
  }

  /** The end of the first line from `i` that closes a fence. */
  function ClosedBy(text: string, i: nat, closing: string): (end: Option<nat>)
    ensures end.Some? ==> i < end.value <= |text|
    decreases |text| - i
  {
    if i >= |text| then None
    else if Closes(Line(text, i), closing) then Some(LineEnd(text, i))
    else ClosedBy(text, LineEnd(text, i), closing)
  }

  /** `ClosedBy`, from the line after a newline. */
  function ClosedAfter(text: string, newline: Option<nat>, closing: string): (end: Option<nat>)
    ensures end.Some? ==> newline.Some? && newline.value < end.value <= |text|
  {
    if newline.None? then None else ClosedBy(text, newline.value + 1, closing)
  }

  /** The end of the line that closes the fence at `i`, if one does. */
  function FenceClose(text: string, i: nat): (end: Option<nat>)
    requires FenceAt(text, i)
    ensures end.Some? ==> i < end.value <= |text|
  {
    var n := Run(text, i, text[i]);
    ClosedAfter(text, Newline(text, i + n), Repeat(text[i], n))
  }

  /** Where the code that starts with a fence at `i` ends: after its closing line, or with the text. */
  function FencedEnd(text: string, i: nat): (end: nat)
    requires FenceAt(text, i)
    ensures i < end <= |text|
  {
    if FenceClose(text, i).None? then |text| else FenceClose(text, i).value
  }

  /** Where the span that starts with backticks at `i` ends, if it is closed. */
  function SpanEnd(text: string, i: nat): (end: Option<nat>)
    requires i < |text| && text[i] == '`'
    ensures end.Some? ==> i < end.value <= |text|
  {
    var n := Run(text, i, '`');
    var close := IndexOf(text, Repeat('`', n), i + n);
    if close.None? then None else Some(close.value + n)
  }

  function Plain(text: string, a: nat, i: nat): seq<Part>
    requires a <= i <= |text|
  {
    if a < i then [Part(text[a..i], false)] else []
  }

  // What starts at a position: code up to an end, or text that is not code.
  datatype Region = Code(end: nat) | Prose(end: nat)

  function RegionAt(text: string, i: nat): (r: Region)
    requires i < |text|
    ensures i < r.end <= |text|
  {
    if FenceAt(text, i) then Code(FencedEnd(text, i))
    else if text[i] == '`' then
      var end := SpanEnd(text, i);
      if end.Some? then Code(end.value) else Prose(i + Run(text, i, '`'))
    else Prose(i + 1)
  }

  /** The parts of `text` from `a`, when nothing from there up to `i` is code. */
  function Parts(text: string, a: nat, i: nat): seq<Part>
    requires a <= i <= |text|
    decreases |text| - i
  {
    if i == |text| then Plain(text, a, i)
    else
      match RegionAt(text, i)
      case Code(end) => Plain(text, a, i) + [Part(text[i..end], true)] + Parts(text, end, end)
      case Prose(end) => Parts(text, a, end)
  }

  // --- The loops ------------------------------------------------------------------------------------

  method CountRun(text: string, i: nat, c: char) returns (n: nat)
    requires i < |text|
    ensures n == Run(text, i, c)
  {
    n := 0;
    while i + n < |text| && text[i + n] == c
      invariant i + n <= |text| && Run(text, i, c) == n + Run(text, i + n, c)
    {
      n := n + 1;
    }
  }

  method FindClose(text: string, start: nat, closing: string) returns (end: Option<nat>)
    ensures end == ClosedBy(text, start, closing)
  {
    var closeStart := start;
    while closeStart < |text|
      invariant ClosedBy(text, start, closing) == ClosedBy(text, closeStart, closing)
      decreases |text| - closeStart
    {
      if Closes(Line(text, closeStart), closing) {
        return Some(LineEnd(text, closeStart));
      }
      closeStart := LineEnd(text, closeStart);
    }
    return None;
  }

  method FindFenceClose(text: string, i: nat) returns (end: Option<nat>)
    requires FenceAt(text, i)
    ensures end == FenceClose(text, i)
  {
    hide Run, Newline, ClosedBy, Repeat;
    var fenceLen := CountRun(text, i, text[i]);
    var newline := Newline(text, i + fenceLen);
    if newline.None? {
      return None;
    }
    var closing := Repeat(text[i], fenceLen);
    assert FenceClose(text, i) == ClosedBy(text, newline.value + 1, closing);
    end := FindClose(text, newline.value + 1, closing);
  }

  /** What starts at `i`: a fence with its closing line, a span with its closing ticks, or neither. */
  method NextRegion(text: string, i: nat) returns (region: Region)
    requires i < |text|
    ensures region == RegionAt(text, i)
  {
    if FenceAt(text, i) {
      var end := FindFenceClose(text, i);
      return Code(if end.None? then |text| else end.value);
    }
    if text[i] == '`' {
      var ticks := CountRun(text, i, '`');
      var close := IndexOf(text, Repeat('`', ticks), i + ticks);
      return if close.Some? then Code(close.value + ticks) else Prose(i + ticks);
    }
    return Prose(i + 1);
  }

  function Flushed(parts: seq<Part>, current: string): seq<Part> {
    if current != "" then parts + [Part(current, false)] else parts
  }

  lemma Associate<T>(a: seq<T>, b: seq<T>, c: seq<T>, d: seq<T>)
    ensures a + (b + c + d) == a + b + c + d
  {
  }

  lemma CodeNext(text: string, parts: seq<Part>, a: nat, i: nat)
    requires a <= i < |text| && RegionAt(text, i).Code?
    ensures var end := RegionAt(text, i).end;
            Flushed(parts, text[a..i]) + [Part(text[i..end], true)] + Parts(text, end, end) == parts + Parts(text, a, i)
  {
    var end := RegionAt(text, i).end;
    assert Flushed(parts, text[a..i]) == parts + Plain(text, a, i);
    Associate(parts, Plain(text, a, i), [Part(text[i..end], true)], Parts(text, end, end));
  }

  lemma ProseNext(text: string, a: nat, i: nat)
    requires a <= i < |text| && RegionAt(text, i).Prose?
    ensures var end := RegionAt(text, i).end;
            text[a..i] + text[i..end] == text[a..end] && Parts(text, a, i) == Parts(text, a, end)
  {
  }

  /** `splitByCodeRegions`. */
  method SplitByCodeRegions(text: string) returns (parts: seq<Part>)
    ensures parts == Parts(text, 0, 0)
  {
    parts := [];
    var current, i := "", 0;
    ghost var a: nat, all := 0, Parts(text, 0, 0);
    while i < |text|
      invariant a <= i <= |text| && current == text[a..i]
      invariant parts + Parts(text, a, i) == all
      decreases |text| - i
    {
      var region := NextRegion(text, i);
      if region.Code? {
        CodeNext(text, parts, a, i);
        parts := Flushed(parts, current) + [Part(text[i..region.end], true)];
        current, a := "", region.end;
      } else {
        ProseNext(text, a, i);
        current := current + text[i..region.end];
      }
      i := region.end;
    }
    parts := Flushed(parts, current);
    assert Parts(text, a, i) == Plain(text, a, i);
  }

  // --- What the parts are ---------------------------------------------------------------------------

  function Joined(parts: seq<Part>): string {
    if parts == [] then "" else parts[0].text + Joined(parts[1..])
  }

  lemma {:induction false} JoinedOn(a: seq<Part>, b: seq<Part>)
    ensures Joined(a + b) == Joined(a) + Joined(b)
  {
    if a == [] {
      assert a + b == b;
    } else {
      assert (a + b)[1..] == a[1..] + b;
      JoinedOn(a[1..], b);
    }
  }

  lemma {:induction false} PartsJoin(text: string, a: nat, i: nat)
    requires a <= i <= |text|
    ensures Joined(Parts(text, a, i)) == text[a..]
    decreases |text| - i
  {
    if i < |text| {
      match RegionAt(text, i)
      case Code(end) =>
        PartsJoin(text, end, end);
        CodeJoins(text, a, i, end, Parts(text, end, end));
      case Prose(end) => PartsJoin(text, a, end);
    }
  }

  lemma Thirds(text: string, a: nat, i: nat, end: nat)
    requires a <= i <= end <= |text|
    ensures text[a..] == text[a..i] + text[i..end] + text[end..]
  {
  }

  lemma JoinedPlain(text: string, a: nat, i: nat)
    requires a <= i <= |text|
    ensures Joined(Plain(text, a, i)) == text[a..i]
  {
  }

  lemma CodeJoins(text: string, a: nat, i: nat, end: nat, rest: seq<Part>)
    requires a <= i <= end <= |text| && Joined(rest) == text[end..]
    ensures Joined(Plain(text, a, i) + [Part(text[i..end], true)] + rest) == text[a..]
  {
    var code := [Part(text[i..end], true)];
    JoinedOn(Plain(text, a, i) + code, rest);
    JoinedOn(Plain(text, a, i), code);
    JoinedPlain(text, a, i);
    assert Joined(code) == text[i..end];
    Thirds(text, a, i, end);
  }

  /** The parts of a text concatenate to it. */
  lemma PartsConcatenate(text: string)
    ensures Joined(Parts(text, 0, 0)) == text
  {
    PartsJoin(text, 0, 0);
  }

  predicate NoFence(s: string) {
    forall k :: 0 <= k < |s| ==> !FenceAt(s, k)
  }

  /** Outside code there is no fence, and two parts side by side are not both outside code. */
  predicate WellSplit(parts: seq<Part>) {
    && (forall k :: 0 <= k < |parts| && !parts[k].isCode ==> parts[k].text != "" && NoFence(parts[k].text))
    && (forall k :: 0 <= k < |parts| - 1 ==> parts[k].isCode || parts[k + 1].isCode)
  }

  lemma {:induction false} PartsAreWellSplit(text: string, a: nat, i: nat)
    requires a <= i <= |text| && forall k :: a <= k < i ==> !FenceAt(text, k)
    ensures WellSplit(Parts(text, a, i))
    decreases |text| - i
  {
    PlainHasNoFence(text, a, i);
    if i < |text| {
      match RegionAt(text, i)
      case Code(end) =>
        PartsAreWellSplit(text, end, end);
        CodeThen(Plain(text, a, i), text[i..end], Parts(text, end, end));
      case Prose(end) =>
        ProseIsNoFence(text, i);
        PartsAreWellSplit(text, a, end);
    }
  }

  /** Unclosed backticks are one or two, so no fence starts among them. */
  lemma ProseIsNoFence(text: string, i: nat)
    requires i < |text| && RegionAt(text, i).Prose?
    ensures forall k :: i <= k < RegionAt(text, i).end ==> !FenceAt(text, k)
  {
    if text[i] == '`' {
      assert Run(text, i, '`') <= 2;
    }
  }

  lemma PlainHasNoFence(text: string, a: nat, i: nat)
    requires a <= i <= |text| && forall k :: a <= k < i ==> !FenceAt(text, k)
    ensures WellSplit(Plain(text, a, i))
  {
    forall k | 0 <= k < i - a ensures !FenceAt(text[a..i], k) {
      assert !FenceAt(text, a + k);
    }
  }

  lemma CodeThen(before: seq<Part>, code: string, after: seq<Part>)
    requires WellSplit(before) && WellSplit(after)
    ensures WellSplit(before + [Part(code, true)] + after)
  {
  }

  /** No text that opens a fence is ever treated as prose. */
  lemma ProseHasNoFence(text: string)
    ensures WellSplit(Parts(text, 0, 0))
  {
    PartsAreWellSplit(text, 0, 0);
  }
}
