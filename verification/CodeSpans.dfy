/** What is code: a closed span of backticks and a fenced block are, and nothing else is. */
module CodeSpans {
  import opened Options
  import opened TextPatterns
  import opened CodeRegions

  // --- A text that starts later -----------------------------------------------------------------------

  function Later(at: Option<nat>, shift: nat): Option<nat> {
    if at.Some? then Some(shift + at.value) else None
  }

  /** `rest` is what is in `text` from `d` on. */
  predicate Tail(text: string, d: nat, rest: string) {
    d <= |text| && text[d..] == rest
  }

  lemma TailOf(p: string, rest: string)
    ensures Tail(p + rest, |p|, rest)
  {
  }

  lemma TailAt(text: string, d: nat, rest: string)
    requires Tail(text, d, rest)
    ensures |text| == d + |rest| && forall k :: 0 <= k < |rest| ==> text[d + k] == rest[k]
  {
    forall k | 0 <= k < |rest| ensures text[d + k] == rest[k] {
      assert text[d..][k] == rest[k];
    }
  }

  lemma TailSlice(text: string, d: nat, rest: string, i: nat, end: nat)
    requires Tail(text, d, rest) && i <= end <= |rest|
    ensures d + end <= |text| && text[d + i..d + end] == rest[i..end]
  {
    TailAt(text, d, rest);
  }

  lemma FenceLater(text: string, d: nat, rest: string, i: nat)
    requires Tail(text, d, rest)
    ensures FenceAt(text, d + i) <==> FenceAt(rest, i)
  {
    TailAt(text, d, rest);
    if i + 2 < |rest| {
      assert text[d + i] == rest[i] && text[d + (i + 1)] == rest[i + 1] && text[d + (i + 2)] == rest[i + 2];
    }
  }

  lemma {:induction false} RunLater(text: string, d: nat, rest: string, i: nat, c: char)
    requires Tail(text, d, rest)
    ensures Run(text, d + i, c) == Run(rest, i, c)
    decreases |rest| - i
  {
    TailAt(text, d, rest);
    if i < |rest| {
      assert text[d + i] == rest[i];
      RunLater(text, d, rest, i + 1, c);
    }
  }

  lemma StartsLater(text: string, d: nat, rest: string, i: nat, what: string)
    requires Tail(text, d, rest)
    ensures StartsAt(text, d + i, what) <==> StartsAt(rest, i, what)
  {
    TailAt(text, d, rest);
    if i + |what| <= |rest| {
      TailSlice(text, d, rest, i, i + |what|);
    }
  }

  lemma {:induction false} IndexLater(text: string, d: nat, rest: string, what: string, i: nat)
    requires Tail(text, d, rest)
    ensures IndexOf(text, what, d + i) == Later(IndexOf(rest, what, i), d)
    decreases |rest| - i
  {
    TailAt(text, d, rest);
    StartsLater(text, d, rest, i, what);
    if i + |what| <= |rest| && !StartsAt(rest, i, what) {
      IndexLater(text, d, rest, what, i + 1);
    }
  }

  lemma {:induction false} NewlineLater(text: string, d: nat, rest: string, i: nat)
    requires Tail(text, d, rest)
    ensures Newline(text, d + i) == Later(Newline(rest, i), d)
    decreases |rest| - i
  {
    TailAt(text, d, rest);
    if i < |rest| {
      assert text[d + i] == rest[i];
      NewlineLater(text, d, rest, i + 1);
    }
  }

  lemma LineLater(text: string, d: nat, rest: string, i: nat)
    requires Tail(text, d, rest) && i < |rest|
    ensures d + i < |text| && Line(text, d + i) == Line(rest, i) && LineEnd(text, d + i) == d + LineEnd(rest, i)
  {
    TailAt(text, d, rest);
    NewlineLater(text, d, rest, i);
    var end := if Newline(rest, i).None? then |rest| else Newline(rest, i).value;
    TailSlice(text, d, rest, i, end);
  }

  lemma {:induction false} ClosedLater(text: string, d: nat, rest: string, i: nat, closing: string)
    requires Tail(text, d, rest)
    ensures ClosedBy(text, d + i, closing) == Later(ClosedBy(rest, i, closing), d)
    decreases |rest| - i
  {
    hide Line, LineEnd, Closes;
    TailLength(text, d, rest);
    if i < |rest| {
      LineLater(text, d, rest, i);
      if !Closes(Line(rest, i), closing) {
        ClosedLater(text, d, rest, LineEnd(rest, i), closing);
      }
    }
  }

  function Moved(r: Region, shift: nat): Region {
    match r
    case Code(end) => Code(shift + end)
    case Prose(end) => Prose(shift + end)
  }

  lemma FencedLater(text: string, d: nat, rest: string, i: nat)
    requires Tail(text, d, rest) && FenceAt(rest, i)
    ensures FenceAt(text, d + i) && FencedEnd(text, d + i) == d + FencedEnd(rest, i)
  {
    FenceLater(text, d, rest, i);
    TailAt(text, d, rest);
    assert text[d + i] == rest[i];
    RunLater(text, d, rest, i, rest[i]);
    ClosedFenceLater(text, d, rest, i, Run(rest, i, rest[i]));
  }

  lemma ClosedFenceLater(text: string, d: nat, rest: string, i: nat, n: nat)
    requires Tail(text, d, rest) && FenceAt(rest, i) && FenceAt(text, d + i) && text[d + i] == rest[i]
    requires n == Run(rest, i, rest[i]) == Run(text, d + i, rest[i])
    ensures FenceClose(text, d + i) == Later(FenceClose(rest, i), d)
  {
    hide ClosedAfter, ClosedBy, Newline, Run, Repeat;
    NewlineLater(text, d, rest, i + n);
    ClosedAfterLater(text, d, rest, Newline(rest, i + n), Repeat(rest[i], n));
    assert d + (i + n) == (d + i) + n;
  }

  lemma ClosedAfterLater(text: string, d: nat, rest: string, newline: Option<nat>, closing: string)
    requires Tail(text, d, rest)
    ensures ClosedAfter(text, Later(newline, d), closing) == Later(ClosedAfter(rest, newline, closing), d)
  {
    if newline.Some? {
      ClosedLater(text, d, rest, newline.value + 1, closing);
      assert d + (newline.value + 1) == (d + newline.value) + 1;
    }
  }

  lemma TicksLater(text: string, d: nat, rest: string, i: nat)
    requires Tail(text, d, rest) && i < |rest| && rest[i] == '`'
    ensures d + i < |text| && text[d + i] == '`' && Run(text, d + i, '`') == Run(rest, i, '`')
    ensures SpanEnd(text, d + i) == Later(SpanEnd(rest, i), d)
  {
    hide Run, IndexOf, Repeat;
    TailAt(text, d, rest);
    assert text[d + i] == rest[i];
    RunLater(text, d, rest, i, '`');
    var n := Run(rest, i, '`');
    IndexLater(text, d, rest, Repeat('`', n), i + n);
    assert d + (i + n) == (d + i) + n;
  }

  lemma RegionLater(text: string, d: nat, rest: string, i: nat)
    requires Tail(text, d, rest) && i < |rest|
    ensures d + i < |text| && RegionAt(text, d + i) == Moved(RegionAt(rest, i), d)
  {
    TailAt(text, d, rest);
    assert text[d + i] == rest[i];
    FenceLater(text, d, rest, i);
    if FenceAt(rest, i) {
      FencedLater(text, d, rest, i);
    } else if rest[i] == '`' {
      TicksLater(text, d, rest, i);
    }
  }

  lemma PlainLater(text: string, d: nat, rest: string, a: nat, i: nat)
    requires Tail(text, d, rest) && a <= i <= |rest|
    ensures d + i <= |text| && Plain(text, d + a, d + i) == Plain(rest, a, i)
  {
    TailSlice(text, d, rest, a, i);
  }

  lemma CodeLater(text: string, d: nat, rest: string, a: nat, i: nat, end: nat)
    requires a <= i < end <= |rest| && d + end <= |text|
    requires RegionAt(rest, i) == Code(end) && RegionAt(text, d + i) == Code(d + end)
    requires Plain(text, d + a, d + i) == Plain(rest, a, i) && text[d + i..d + end] == rest[i..end]
    requires Parts(text, d + end, d + end) == Parts(rest, end, end)
    ensures Parts(text, d + a, d + i) == Parts(rest, a, i)
  {
    hide *;
    CodeStep(text, d + a, d + i, d + end);
    CodeStep(rest, a, i, end);
  }

  lemma ProseLater(text: string, d: nat, rest: string, a: nat, i: nat, end: nat)
    requires a <= i < end <= |rest| && d + end <= |text|
    requires RegionAt(rest, i) == Prose(end) && RegionAt(text, d + i) == Prose(d + end)
    requires Parts(text, d + a, d + end) == Parts(rest, a, end)
    ensures Parts(text, d + a, d + i) == Parts(rest, a, i)
  {
  }

  /** What a text splits into from some point on is what the rest of it splits into. */
  lemma {:induction false} PartsLater(text: string, d: nat, rest: string, a: nat, i: nat)
    requires Tail(text, d, rest) && a <= i <= |rest|
    ensures d + i <= |text| && Parts(text, d + a, d + i) == Parts(rest, a, i)
    decreases |rest| - i
  {
    hide RegionAt, Parts, Tail;
    if i < |rest| {
      var r := RegionAt(rest, i);
      RegionLater(text, d, rest, i);
      if r.Code? {
        PlainLater(text, d, rest, a, i);
        TailSlice(text, d, rest, i, r.end);
        PartsLater(text, d, rest, r.end, r.end);
        CodeLater(text, d, rest, a, i, r.end);
      } else {
        PartsLater(text, d, rest, a, r.end);
        ProseLater(text, d, rest, a, i, r.end);
      }
    } else {
      EndLater(text, d, rest, a);
    }
  }

  lemma EndLater(text: string, d: nat, rest: string, a: nat)
    requires Tail(text, d, rest) && a <= |rest|
    ensures |text| == d + |rest| && Parts(text, d + a, d + |rest|) == Parts(rest, a, |rest|)
  {
    PlainLater(text, d, rest, a, |rest|);
    TailLength(text, d, rest);
  }

  lemma TailLength(text: string, d: nat, rest: string)
    requires Tail(text, d, rest)
    ensures |text| == d + |rest|
  {
  }

  lemma CodeStep(text: string, a: nat, i: nat, end: nat)
    requires a <= i < |text| && RegionAt(text, i) == Code(end)
    ensures Parts(text, a, i) == Plain(text, a, i) + [Part(text[i..end], true)] + Parts(text, end, end)
  {
  }

  // --- Prose before code ------------------------------------------------------------------------------

  /** No backtick and no fence in `a`, or starting in it. */
  predicate Quiet(a: string, next: string) {
    && (forall k :: 0 <= k < |a| ==> a[k] != '`')
    && (forall k :: 0 <= k < |a| ==> !FenceAt(a + next, k))
  }

  function ProsePart(a: string): seq<Part> {
    if a == "" then [] else [Part(a, false)]
  }

  lemma {:induction false} QuietIsPassed(a: string, next: string, i: nat)
    requires Quiet(a, next) && i <= |a|
    ensures Parts(a + next, 0, i) == Parts(a + next, 0, |a|)
    decreases |a| - i
  {
    if i < |a| {
      assert (a + next)[i] == a[i];
      QuietIsPassed(a, next, i + 1);
    }
  }

  /** Text without backticks or fences is one part, and no code. */
  lemma QuietIsProse(a: string)
    requires Quiet(a, "")
    ensures Parts(a, 0, 0) == ProsePart(a)
  {
    QuietIsPassed(a, "", 0);
    assert a + "" == a && a[0..|a|] == a;
  }

  lemma CodeAfter(a: string, code: string, rest: string)
    requires Quiet(a, code + rest) && code != ""
    requires RegionAt(code + rest, 0) == Code(|code|)
    ensures Parts(a + (code + rest), 0, 0) == ProsePart(a) + [Part(code, true)] + Parts(rest, 0, 0)
  {
    var text := a + (code + rest);
    QuietIsPassed(a, code + rest, 0);
    CodeFrom(text, a, code, rest);
  }

  lemma CodeFrom(text: string, a: string, code: string, rest: string)
    requires text == a + (code + rest) && code != "" && RegionAt(code + rest, 0) == Code(|code|)
    ensures Parts(text, 0, |a|) == ProsePart(a) + [Part(code, true)] + Parts(rest, 0, 0)
  {
    Slices(text, a, code, rest);
    CodeRegion(text, a, code, rest);
    RestSplits(text, a + code, rest);
    CodeStep(text, 0, |a|, |a| + |code|);
  }

  lemma CodeRegion(text: string, a: string, code: string, rest: string)
    requires text == a + (code + rest) && code != "" && RegionAt(code + rest, 0) == Code(|code|)
    ensures RegionAt(text, |a|) == Code(|a| + |code|)
  {
    TailOf(a, code + rest);
    RegionLater(text, |a|, code + rest, 0);
  }

  lemma RestSplits(text: string, before: string, rest: string)
    requires text == before + rest
    ensures Parts(text, |before|, |before|) == Parts(rest, 0, 0)
  {
    TailOf(before, rest);
    PartsLater(text, |before|, rest, 0, 0);
  }

  lemma Slices(text: string, a: string, code: string, rest: string)
    requires text == a + (code + rest)
    ensures text == (a + code) + rest && text[0..|a|] == a && text[|a|..|a| + |code|] == code
  {
  }

  // --- Spans ------------------------------------------------------------------------------------------

  lemma {:induction false} RunOfRepeat(c: char, n: nat, rest: string)
    requires rest == "" || rest[0] != c
    ensures Run(Repeat(c, n) + rest, 0, c) == n
  {
    if n > 0 {
      var text, shorter := Repeat(c, n) + rest, Repeat(c, n - 1) + rest;
      assert text == [c] + shorter;
      RunOfRepeat(c, n - 1, rest);
      TailOf([c], shorter);
      RunLater(text, 1, shorter, 0, c);
    }
  }

  lemma {:induction false} RepeatIs(c: char, n: nat)
    ensures forall k :: 0 <= k < n ==> Repeat(c, n)[k] == c
  {
    if n > 0 {
      RepeatIs(c, n - 1);
    }
  }

  lemma {:induction false} FoundThere(text: string, what: string, from: nat, at: nat)
    requires from <= at && StartsAt(text, at, what) && forall k :: from <= k < at ==> !StartsAt(text, k, what)
    ensures IndexOf(text, what, from) == Some(at)
    decreases at - from
  {
    if from < at {
      FoundThere(text, what, from + 1, at);
    }
  }

  /** `s` between two runs of `n` backticks, of which neither is longer on the inside, nor any run before the end. */
  predicate IsSpan(n: nat, s: string) {
    && 1 <= n <= 2 && s != "" && s[0] != '`'
    && forall k :: 0 <= k < |s| ==> !StartsAt(s + Repeat('`', n), k, Repeat('`', n))
  }

  lemma SpanCloses(text: string, n: nat, s: string, rest: string)
    requires IsSpan(n, s) && text == Repeat('`', n) + (s + Repeat('`', n) + rest)
    ensures IndexOf(text, Repeat('`', n), n) == Some(n + |s|)
  {
    hide IndexOf, Repeat;
    var ticks := Repeat('`', n);
    assert text[n + |s|..n + |s| + n] == ticks;
    var inside := s + ticks;
    assert text[n..n + |inside|] == inside;
    forall k: nat | n <= k < n + |s| ensures !StartsAt(text, k, ticks) {
      NotInText(text, n, inside, k - n, ticks);
    }
    FoundThere(text, ticks, n, n + |s|);
  }

  lemma NotInText(text: string, from: nat, inside: string, k: nat, what: string)
    requires from + |inside| <= |text| && text[from..from + |inside|] == inside
    requires k + |what| <= |inside| && !StartsAt(inside, k, what)
    ensures !StartsAt(text, from + k, what)
  {
    var inner, outer := inside[k..k + |what|], text[from + k..from + k + |what|];
    forall j | 0 <= j < |what| ensures inner[j] == outer[j] {
      assert inside[k + j] == text[from..from + |inside|][k + j];
    }
    assert inner == outer;
  }

  lemma SpanRegion(n: nat, s: string, rest: string)
    requires IsSpan(n, s)
    ensures var ticks := Repeat('`', n);
            RegionAt(ticks + s + ticks + rest, 0) == Code(|ticks + s + ticks|)
  {
    hide Run, IndexOf, Repeat, StartsAt;
    var ticks := Repeat('`', n);
    var text := ticks + s + ticks + rest;
    RepeatIs('`', n);
    assert text == ticks + (s + ticks + rest);
    RunOfRepeat('`', n, s + ticks + rest);
    SpanCloses(text, n, s, rest);
    assert text[0] == '`' && text[n] == s[0];
    assert SpanEnd(text, 0) == Some(n + |s| + n);
  }

  /** A closed span is one code part, whatever comes after it, and what is before it stays prose. */
  lemma SpanIsCode(a: string, n: nat, s: string, rest: string)
    requires IsSpan(n, s)
    requires var ticks := Repeat('`', n); Quiet(a, ticks + s + ticks + rest)
    ensures var ticks := Repeat('`', n);
            Parts(a + (ticks + s + ticks + rest), 0, 0)
            == ProsePart(a) + [Part(ticks + s + ticks, true)] + Parts(rest, 0, 0)
  {
    var ticks := Repeat('`', n);
    SpanRegion(n, s, rest);
    CodeAfter(a, ticks + s + ticks, rest);
  }

  /** Text in between that has no backtick at all closes where the second run starts. */
  lemma PlainSpan(n: nat, s: string)
    requires 1 <= n <= 2 && s != "" && forall k :: 0 <= k < |s| ==> s[k] != '`'
    ensures IsSpan(n, s)
  {
    var ticks := Repeat('`', n);
    RepeatIs('`', n);
    forall k | 0 <= k < |s| ensures !StartsAt(s + ticks, k, ticks) {
      assert (s + ticks)[k] == s[k] != ticks[0];
      assert k + n <= |s + ticks| ==> (s + ticks)[k..k + n][0] == s[k];
    }
  }

  // --- Fences -----------------------------------------------------------------------------------------

  predicate AllSpace(s: string) {
    forall k :: 0 <= k < |s| ==> IsSpace(s[k])
  }

  /** With its white space trimmed, a line starts with `closing`. */
  ghost predicate IsClosing(line: string, closing: string) {
    exists blank, more :: AllSpace(blank) && line == blank + (closing + more)
  }

  predicate OneLine(line: string) {
    forall k :: 0 <= k < |line| ==> line[k] != '\n'
  }

  lemma {:induction false} BlanksFrom(s: string, i: nat, end: nat)
    requires i <= end <= |s| && AllSpace(s[i..end]) && (end == |s| || !IsSpace(s[end]))
    ensures Blanks(s, i) == end
    decreases end - i
  {
    if i < end {
      var blanks, fewer := s[i..end], s[i + 1..end];
      assert blanks[0] == s[i];
      forall k | 0 <= k < |fewer| ensures IsSpace(fewer[k]) {
        assert blanks[k + 1] == fewer[k];
      }
      BlanksFrom(s, i + 1, end);
    }
  }

  lemma {:induction false} BlanksAre(s: string, i: nat)
    requires i <= |s|
    ensures i <= Blanks(s, i) <= |s| && AllSpace(s[i..Blanks(s, i)])
    decreases |s| - i
  {
    if i < |s| && IsSpace(s[i]) {
      BlanksAre(s, i + 1);
      var end := Blanks(s, i);
      forall k | 0 <= k < end - i ensures IsSpace(s[i..end][k]) {
        if k > 0 {
          assert s[i..end][k] == s[i + 1..end][k - 1];
        }
      }
    }
  }

  lemma ClosesIff(line: string, closing: string)
    requires closing != "" && !IsSpace(closing[0])
    ensures Closes(line, closing) <==> IsClosing(line, closing)
  {
    if Closes(line, closing) {
      var at := Blanks(line, 0);
      BlanksAre(line, 0);
      assert line == line[..at] + (closing + line[at + |closing|..]) by {
        assert line[at..] == closing + line[at + |closing|..];
      }
      assert line[0..at] == line[..at];
    }
    if IsClosing(line, closing) {
      var blank, more :| AllSpace(blank) && line == blank + (closing + more);
      assert line[|blank|] == closing[0] && line[0..|blank|] == blank;
      BlanksFrom(line, 0, |blank|);
      assert line[|blank|..|blank| + |closing|] == closing;
    }
  }

  /** Lines, each with its newline. */
  function Lines(lines: seq<string>): string {
    if lines == [] then "" else lines[0] + "\n" + Lines(lines[1..])
  }

  lemma {:induction false} NewlineThere(line: string, rest: string, i: nat)
    requires OneLine(line) && i <= |line|
    ensures Newline(line + "\n" + rest, i) == Some(|line|)
    decreases |line| - i
  {
    var text := line + "\n" + rest;
    if i < |line| {
      assert text[i] == line[i];
      NewlineThere(line, rest, i + 1);
    }
  }

  lemma {:induction false} NoNewline(line: string, i: nat)
    requires OneLine(line)
    ensures Newline(line, i).None?
    decreases |line| - i
  {
    if i < |line| {
      NoNewline(line, i + 1);
    }
  }

  lemma FirstLine(line: string, rest: string)
    requires OneLine(line)
    ensures var text := line + "\n" + rest;
            Line(text, 0) == line && LineEnd(text, 0) == |line| + 1
  {
    NewlineThere(line, rest, 0);
    assert (line + "\n" + rest)[0..|line|] == line;
  }

  /** The line a fence ends with, and what follows it; the last line of a text may lack its newline. */
  predicate LastLine(line: string, end: string, rest: string) {
    OneLine(line) && line != "" && (end == "\n" || (end == "" && rest == ""))
  }

  ghost predicate NoneCloses(lines: seq<string>, closing: string) {
    forall k :: 0 <= k < |lines| ==> OneLine(lines[k]) && !IsClosing(lines[k], closing)
  }

  lemma ClosedHere(text: string, line: string, end: string, rest: string, closing: string)
    requires text == line + end + rest && LastLine(line, end, rest) && Closes(line, closing)
    ensures ClosedBy(text, 0, closing) == Some(|line| + |end|)
  {
    if end == "\n" {
      FirstLine(line, rest);
    } else {
      assert text == line;
      NoNewline(line, 0);
      assert line[0..] == line;
    }
  }

  /** A line that does not close is passed. */
  lemma NotClosedHere(text: string, line: string, more: string, closing: string)
    requires text == line + "\n" + more && OneLine(line) && !Closes(line, closing)
    ensures ClosedBy(text, 0, closing) == Later(ClosedBy(more, 0, closing), |line| + 1)
  {
    FirstLine(line, more);
    TailOf(line + "\n", more);
    ClosedLater(text, |line| + 1, more, 0, closing);
  }

  lemma LinesThen(lines: seq<string>, more: string)
    requires lines != []
    ensures Lines(lines) + more == lines[0] + "\n" + (Lines(lines[1..]) + more)
    ensures |Lines(lines)| == |lines[0]| + 1 + |Lines(lines[1..])|
  {
  }

  lemma {:induction false} ClosedAtLast(lines: seq<string>, line: string, end: string, rest: string, closing: string)
    requires closing != "" && !IsSpace(closing[0]) && NoneCloses(lines, closing)
    requires LastLine(line, end, rest) && IsClosing(line, closing)
    ensures ClosedBy(Lines(lines) + (line + end + rest), 0, closing) == Some(|Lines(lines)| + |line| + |end|)
    decreases |lines|
  {
    hide Closes, ClosedBy, IsClosing;
    var last := line + end + rest;
    if lines == [] {
      assert Lines(lines) + last == last;
      ClosesIff(line, closing);
      ClosedHere(last, line, end, rest, closing);
    } else {
      LinesThen(lines, last);
      ClosesIff(lines[0], closing);
      ClosedAtLast(lines[1..], line, end, rest, closing);
      NotClosedHere(Lines(lines) + last, lines[0], Lines(lines[1..]) + last, closing);
    }
  }

  lemma {:induction false} NeverClosed(lines: seq<string>, last: string, closing: string)
    requires closing != "" && !IsSpace(closing[0]) && NoneCloses(lines, closing)
    requires OneLine(last) && !IsClosing(last, closing)
    ensures ClosedBy(Lines(lines) + last, 0, closing).None?
    decreases |lines|
  {
    hide Closes, IsClosing;
    if lines == [] {
      assert Lines(lines) + last == last;
      if last != "" {
        ClosesIff(last, closing);
        NoNewline(last, 0);
        assert last[0..] == last;
      }
    } else {
      LinesThen(lines, last);
      ClosesIff(lines[0], closing);
      NeverClosed(lines[1..], last, closing);
      NotClosedHere(Lines(lines) + last, lines[0], Lines(lines[1..]) + last, closing);
    }
  }

  /** Three or more backticks or tildes, and what else is on their line. */
  predicate IsOpening(c: char, n: nat, info: string) {
    (c == '`' || c == '~') && n >= 3 && OneLine(info) && (info == "" || info[0] != c)
  }

  /** An opening fence with the rest of its line. */
  function Head(c: char, n: nat, info: string): string {
    Repeat(c, n) + info + "\n"
  }

  lemma OpeningRun(text: string, c: char, n: nat, more: string)
    requires n >= 3 && (c == '`' || c == '~') && (more == "" || more[0] != c) && text == Repeat(c, n) + more
    ensures FenceAt(text, 0) && text[0] == c && Run(text, 0, c) == n
  {
    RepeatIs(c, n);
    RunOfRepeat(c, n, more);
    assert text[0] == c && text[1] == c && text[2] == c;
  }

  lemma OpeningLine(text: string, fence: string, info: string, body: string)
    requires text == fence + (info + "\n" + body) && OneLine(info)
    ensures Newline(text, |fence|) == Some(|fence| + |info|)
  {
    NewlineThere(info, body, 0);
    TailOf(fence, info + "\n" + body);
    NewlineLater(text, |fence|, info + "\n" + body, 0);
  }

  lemma FenceRegion(text: string, c: char, n: nat, info: string, body: string, end: Option<nat>)
    requires text == Head(c, n, info) + body
    requires IsOpening(c, n, info) && ClosedBy(body, 0, Repeat(c, n)) == end
    ensures RegionAt(text, 0) == Code(if end.Some? then |Head(c, n, info)| + end.value else |text|)
  {
    hide ClosedAfter, ClosedBy, Newline, Run, Repeat, Head;
    HeadThen(c, n, info, body);
    OpeningRun(text, c, n, info + "\n" + body);
    OpeningLine(text, Repeat(c, n), info, body);
    ClosesBelow(text, c, n, info, body);
    assert FenceClose(text, 0) == ClosedAfter(text, Some(n + |info|), Repeat(c, n));
  }

  lemma HeadThen(c: char, n: nat, info: string, body: string)
    ensures Head(c, n, info) + body == Repeat(c, n) + (info + "\n" + body) && |Head(c, n, info)| == n + |info| + 1
  {
  }

  lemma ClosesBelow(text: string, c: char, n: nat, info: string, body: string)
    requires text == Head(c, n, info) + body
    ensures ClosedAfter(text, Some(n + |info|), Repeat(c, n)) == Later(ClosedBy(body, 0, Repeat(c, n)), |Head(c, n, info)|)
  {
    hide ClosedBy, Repeat, Head;
    HeadThen(c, n, info, body);
    TailOf(Head(c, n, info), body);
    ClosedLater(text, |Head(c, n, info)|, body, 0, Repeat(c, n));
  }

  lemma ThreeThen(x: string, y: string, line: string, end: string, rest: string)
    ensures (x + y + line + end) + rest == x + (y + (line + end + rest))
    ensures |x + y + line + end| == |x| + |y| + |line| + |end|
  {
  }

  /**
   * A fence is code to the end of the first line that closes it: one that starts, but for white space,
   * with as many of its character. What follows that line is split on its own.
   */
  lemma FenceIsCode(a: string, c: char, n: nat, info: string, lines: seq<string>, line: string, end: string, rest: string)
    requires IsOpening(c, n, info) && NoneCloses(lines, Repeat(c, n))
    requires LastLine(line, end, rest) && IsClosing(line, Repeat(c, n))
    requires Quiet(a, (Head(c, n, info) + Lines(lines) + line + end) + rest)
    ensures var code := Head(c, n, info) + Lines(lines) + line + end;
            Parts(a + (code + rest), 0, 0) == ProsePart(a) + [Part(code, true)] + Parts(rest, 0, 0)
  {
    var code := Head(c, n, info) + Lines(lines) + line + end;
    ClosingStarts(c, n);
    ClosedAtLast(lines, line, end, rest, Repeat(c, n));
    ThreeThen(Head(c, n, info), Lines(lines), line, end, rest);
    FenceRegion(code + rest, c, n, info, Lines(lines) + (line + end + rest), Some(|Lines(lines)| + |line| + |end|));
    CodeAfter(a, code, rest);
  }

  lemma ClosingStarts(c: char, n: nat)
    requires n > 0 && (c == '`' || c == '~')
    ensures Repeat(c, n) != "" && !IsSpace(Repeat(c, n)[0])
  {
    RepeatIs(c, n);
  }

  lemma NothingMore(code: string)
    ensures code + "" == code && Parts("", 0, 0) == []
  {
  }

  lemma LastCode(a: string, code: string)
    requires Quiet(a, code) && code != "" && RegionAt(code, 0) == Code(|code|)
    ensures Parts(a + code, 0, 0) == ProsePart(a) + [Part(code, true)]
  {
    NothingMore(code);
    CodeAfter(a, code, "");
  }

  /** A fence that no later line closes is code to the end of the text. */
  lemma UnclosedFenceIsCode(a: string, c: char, n: nat, info: string, lines: seq<string>, last: string)
    requires IsOpening(c, n, info) && NoneCloses(lines, Repeat(c, n)) && OneLine(last) && !IsClosing(last, Repeat(c, n))
    requires Quiet(a, Head(c, n, info) + (Lines(lines) + last))
    ensures var code := Head(c, n, info) + (Lines(lines) + last);
            Parts(a + code, 0, 0) == ProsePart(a) + [Part(code, true)]
  {
    ClosingStarts(c, n);
    NeverClosed(lines, last, Repeat(c, n));
    FenceRegion(Head(c, n, info) + (Lines(lines) + last), c, n, info, Lines(lines) + last, None);
    LastCode(a, Head(c, n, info) + (Lines(lines) + last));
  }

  /** So is one with no line after it. */
  lemma LastFenceIsCode(a: string, c: char, n: nat, info: string)
    requires IsOpening(c, n, info) && Quiet(a, Repeat(c, n) + info)
    ensures Parts(a + (Repeat(c, n) + info), 0, 0) == ProsePart(a) + [Part(Repeat(c, n) + info, true)]
  {
    var code := Repeat(c, n) + info;
    OpeningRun(code, c, n, info);
    TailOf(Repeat(c, n), info);
    NewlineLater(code, n, info, 0);
    NoNewline(info, 0);
    LastCode(a, code);
  }

  // --- And nothing else -------------------------------------------------------------------------------

  /** A code part is a fence, or a span that ends with as many backticks as it starts with, and no earlier. */
  ghost predicate IsCode(code: string) {
    || FenceAt(code, 0)
    || exists n, s :: IsSpan(n, s) && code == Repeat('`', n) + s + Repeat('`', n)
  }

  lemma {:induction false} NotFoundBefore(text: string, what: string, from: nat, at: nat)
    requires IndexOf(text, what, from) == Some(at)
    ensures StartsAt(text, at, what) && forall k :: from <= k < at ==> !StartsAt(text, k, what)
    decreases |text| - from
  {
    if from < at {
      NotFoundBefore(text, what, from + 1, at);
    }
  }

  lemma {:induction false} IsRepeat(s: string, c: char)
    requires forall k :: 0 <= k < |s| ==> s[k] == c
    ensures s == Repeat(c, |s|)
  {
    if s != "" {
      IsRepeat(s[1..], c);
      assert s == [s[0]] + s[1..];
    }
  }

  lemma SpanIsSpan(text: string, i: nat, end: nat)
    requires i < |text| && text[i] == '`' && !FenceAt(text, i) && SpanEnd(text, i) == Some(end)
    ensures end <= |text| && IsCode(text[i..end])
  {
    hide Run, IndexOf, Repeat, IsSpan, FenceAt;
    var n := Run(text, i, '`');
    NotFoundBefore(text, Repeat('`', n), i + n, end - n);
    ShortRun(text, i);
    IsRepeat(text[i..i + n], '`');
    BetweenIsSpan(text, i, n, end - n);
    var ticks, s := Repeat('`', n), text[i + n..end - n];
    assert text[i..end] == ticks + s + ticks by {
      assert text[i..end] == text[i..i + n] + text[i + n..end - n] + text[end - n..end];
    }
  }

  lemma ShortRun(text: string, i: nat)
    requires i < |text| && text[i] == '`' && !FenceAt(text, i)
    ensures 1 <= Run(text, i, '`') <= 2
  {
  }

  lemma BetweenIsSpan(text: string, i: nat, n: nat, close: nat)
    requires i < |text| && text[i] == '`' && n == Run(text, i, '`') && 1 <= n <= 2 && i + n <= close
    requires StartsAt(text, close, Repeat('`', n))
    requires forall k :: i + n <= k < close ==> !StartsAt(text, k, Repeat('`', n))
    ensures IsSpan(n, text[i + n..close])
  {
    var ticks, s := Repeat('`', n), text[i + n..close];
    RepeatIs('`', n);
    assert text[close] == text[close..close + n][0] == '`';
    assert close > i + n;
    assert s[0] == text[i + n];
    assert s + ticks == text[i + n..close + n];
    forall k: nat | 0 <= k < |s| ensures !StartsAt(s + ticks, k, ticks) {
      NotInside(text, i + n, close + n, k, ticks);
    }
  }

  lemma NotInside(text: string, from: nat, to: nat, k: nat, what: string)
    requires from <= to <= |text| && !StartsAt(text, from + k, what)
    ensures !StartsAt(text[from..to], k, what)
  {
    if k + |what| <= to - from {
      var inner, outer := text[from..to][k..k + |what|], text[from + k..from + k + |what|];
      assert |inner| == |outer|;
      forall j | 0 <= j < |what| ensures inner[j] == outer[j] {
        assert inner[j] == text[from..to][k + j] == text[from + (k + j)];
      }
      assert inner == outer;
    }
  }

  lemma CodeRegionIsCode(text: string, i: nat)
    requires i < |text| && RegionAt(text, i).Code?
    ensures IsCode(text[i..RegionAt(text, i).end])
  {
    var end := RegionAt(text, i).end;
    if FenceAt(text, i) {
      FenceReaches(text, i);
      var code := text[i..end];
      assert code[0] == text[i] && code[1] == text[i + 1] && code[2] == text[i + 2];
    } else {
      SpanIsSpan(text, i, end);
    }
  }

  /** Code that starts with a fence holds the fence. */
  lemma FenceReaches(text: string, i: nat)
    requires FenceAt(text, i)
    ensures FencedEnd(text, i) >= i + 3
  {
    var n := Run(text, i, text[i]);
    assert n >= 3 by {
      assert Run(text, i + 1, text[i]) >= 2 by {
        assert Run(text, i + 2, text[i]) >= 1;
      }
    }
  }

  lemma {:induction false} EveryCodeFrom(text: string, a: nat, i: nat)
    requires a <= i <= |text|
    ensures forall k :: 0 <= k < |Parts(text, a, i)| && Parts(text, a, i)[k].isCode ==> IsCode(Parts(text, a, i)[k].text)
    decreases |text| - i
  {
    if i < |text| {
      match RegionAt(text, i)
      case Code(end) =>
        CodeRegionIsCode(text, i);
        EveryCodeFrom(text, end, end);
      case Prose(end) => EveryCodeFrom(text, a, end);
    }
  }

  /** Every code part is a fenced block or a closed span. */
  lemma EveryCodePart(text: string, k: nat)
    requires k < |Parts(text, 0, 0)| && Parts(text, 0, 0)[k].isCode
    ensures IsCode(Parts(text, 0, 0)[k].text)
  {
    EveryCodeFrom(text, 0, 0);
  }
}
