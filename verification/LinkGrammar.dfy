/** What the two link patterns match, said of the matched text and not of the way it is found. */
module LinkGrammar {
  import opened Options
  import opened TextPatterns
  import Filenames

  /** A character an anchor may hold. */
  predicate InAnchor(c: char, inTarget: bool) {
    !IsSpace(c) && c !in [')', '>', '"', '\''] && (inTarget ==> c != ']')
  }

  predicate IsAnchor(s: string, inTarget: bool) {
    s == "" || (s[0] == '#' && forall k :: 1 <= k < |s| ==> InAnchor(s[k], inTarget))
  }

  predicate IsBlank(s: string) {
    forall k :: 0 <= k < |s| ==> s[k] == ' ' || s[k] == '\t'
  }

  predicate IsQuotable(s: string) {
    forall k :: 0 <= k < |s| ==> s[k] != '"' && s[k] != '\n'
  }

  /** Nothing, or white space and a quoted title. */
  predicate IsTitle(blank: string, quoted: string) {
    || (blank == "" && quoted == "")
    || (&& blank != "" && IsBlank(blank)
        && |quoted| >= 2 && quoted[0] == '"' && quoted[|quoted| - 1] == '"' && IsQuotable(quoted[1..|quoted| - 1]))
  }

  /** The target half of an inline link to `id`. */
  function TargetText(id: string, anchor: string, blank: string, quoted: string): string {
    "](entry:" + id + anchor + blank + quoted + ")"
  }

  predicate IsTarget(id: string, anchor: string, blank: string, quoted: string) {
    Filenames.IsValidId(id) && IsAnchor(anchor, true) && IsTitle(blank, quoted)
  }

  /** What may follow the anchor of a target. */
  function Ending(blank: string, quoted: string): string {
    blank + quoted + ")"
  }

  // --- Stretches of characters ------------------------------------------------------------------------

  lemma SameAnchorChar(c: char)
    ensures AnchorChar(c) <==> InAnchor(c, false)
  {
  }

  lemma {:induction false} AnchorReaches(text: string, i: nat, end: nat, inTarget: bool)
    requires i <= end <= |text| && forall k :: i <= k < end ==> InAnchor(text[k], inTarget)
    requires end == |text| || !InAnchor(text[end], inTarget)
    ensures AnchorEnd(text, i, inTarget) == end
    decreases end - i
  {
    if i < end {
      SameAnchorChar(text[i]);
      AnchorReaches(text, i + 1, end, inTarget);
    }
  }

  lemma {:induction false} AnchorStops(text: string, i: nat, inTarget: bool)
    requires i <= |text|
    ensures var end := AnchorEnd(text, i, inTarget);
            && (forall k :: i <= k < end ==> InAnchor(text[k], inTarget))
            && (end == |text| || !InAnchor(text[end], inTarget))
    decreases |text| - i
  {
    if i < |text| {
      SameAnchorChar(text[i]);
      if InAnchor(text[i], inTarget) {
        AnchorStops(text, i + 1, inTarget);
      }
    }
  }

  /** The anchor from `i`, and it goes as far as an anchor can. */
  predicate AnchorIs(text: string, i: nat, end: nat, inTarget: bool) {
    && i <= end <= |text| && IsAnchor(text[i..end], inTarget)
    && (end == |text| || (if end == i then text[i] != '#' else !InAnchor(text[end], inTarget)))
  }

  lemma AnchorFromIff(text: string, i: nat, end: nat, inTarget: bool)
    requires i <= |text|
    ensures AnchorFrom(text, i, inTarget) == end <==> AnchorIs(text, i, end, inTarget)
  {
    if i < |text| && text[i] == '#' {
      AnchorStops(text, i + 1, inTarget);
      var reach := AnchorEnd(text, i + 1, inTarget);
      assert text[i..reach][0] == '#';
      forall k | 1 <= k < reach - i ensures InAnchor(text[i..reach][k], inTarget) {
        assert text[i..reach][k] == text[i + k];
      }
      if AnchorIs(text, i, end, inTarget) && end > i {
        forall k | i + 1 <= k < end ensures InAnchor(text[k], inTarget) {
          assert text[i..end][k - i] == text[k];
        }
        AnchorReaches(text, i + 1, end, inTarget);
      }
    } else {
      assert i < end <= |text| ==> text[i..end][0] == text[i];
    }
  }

  lemma {:induction false} BlanksReach(text: string, i: nat, end: nat)
    requires i <= end <= |text| && forall k :: i <= k < end ==> text[k] == ' ' || text[k] == '\t'
    requires end == |text| || (text[end] != ' ' && text[end] != '\t')
    ensures BlanksEnd(text, i) == end
    decreases end - i
  {
    if i < end {
      BlanksReach(text, i + 1, end);
    }
  }

  lemma {:induction false} BlanksStop(text: string, i: nat)
    requires i <= |text|
    ensures IsBlank(text[i..BlanksEnd(text, i)])
    decreases |text| - i
  {
    if i < |text| && (text[i] == ' ' || text[i] == '\t') {
      BlanksStop(text, i + 1);
      var end := BlanksEnd(text, i);
      forall k | 0 <= k < end - i ensures text[i..end][k] == ' ' || text[i..end][k] == '\t' {
        assert k > 0 ==> text[i..end][k] == text[i + 1..end][k - 1];
      }
    }
  }

  lemma {:induction false} TitleReaches(text: string, i: nat, end: nat)
    requires i <= end < |text| && text[end] == '"' && forall k :: i <= k < end ==> text[k] != '"' && text[k] != '\n'
    ensures TitleEnd(text, i) == end
    decreases end - i
  {
    if i < end {
      TitleReaches(text, i + 1, end);
    }
  }

  lemma {:induction false} TitleStops(text: string, i: nat)
    requires i <= |text|
    ensures IsQuotable(text[i..TitleEnd(text, i)])
    decreases |text| - i
  {
    if i < |text| && text[i] != '"' && text[i] != '\n' {
      TitleStops(text, i + 1);
      var end := TitleEnd(text, i);
      forall k | 0 <= k < end - i ensures text[i..end][k] != '"' && text[i..end][k] != '\n' {
        assert k > 0 ==> text[i..end][k] == text[i + 1..end][k - 1];
      }
    }
  }

  /** A title, and the parenthesis that must follow it. */
  lemma TitleThere(text: string, i: nat, blank: string, quoted: string)
    requires i <= |text| && IsTitle(blank, quoted) && StartsAt(text, i, Ending(blank, quoted))
    ensures TitleFrom(text, i) == i + |blank| + |quoted|
  {
    var all := blank + quoted + ")";
    assert forall k :: 0 <= k < |all| ==> text[i + k] == all[k] by {
      forall k | 0 <= k < |all| ensures text[i + k] == all[k] {
        assert text[i..i + |all|][k] == all[k];
      }
    }
    var quote := i + |blank|;
    assert text[quote] == if quoted == "" then ')' else '"';
    forall k | i <= k < quote ensures text[k] == ' ' || text[k] == '\t' {
      assert text[i + (k - i)] == blank[k - i];
    }
    BlanksReach(text, i, quote);
    if quoted != "" {
      var close := quote + |quoted| - 1;
      assert text[i + (close - i)] == quoted[|quoted| - 1];
      forall k | quote + 1 <= k < close ensures text[k] != '"' && text[k] != '\n' {
        assert text[i + (k - i)] == quoted[k - quote] == quoted[1..|quoted| - 1][k - quote - 1];
      }
      TitleReaches(text, quote + 1, close);
    }
  }

  /** And back: what is passed as a title is one. */
  lemma TitlePassed(text: string, i: nat) returns (blank: string, quoted: string)
    requires i <= |text|
    ensures IsTitle(blank, quoted) && text[i..TitleFrom(text, i)] == blank + quoted
  {
    var end := TitleFrom(text, i);
    if end == i {
      blank, quoted := "", "";
    } else {
      var quote := BlanksEnd(text, i);
      var close := TitleEnd(text, quote + 1);
      BlanksStop(text, i);
      TitleStops(text, quote + 1);
      blank, quoted := text[i..quote], text[quote..end];
      assert quoted[0] == '"' && quoted[|quoted| - 1] == text[close];
      assert quoted[1..|quoted| - 1] == text[quote + 1..close];
      assert text[i..end] == blank + quoted;
    }
  }

  // --- Targets ----------------------------------------------------------------------------------------

  lemma Pieces(text: string, i: nat, what: string, more: string)
    requires StartsAt(text, i, what + more)
    ensures StartsAt(text, i, what) && StartsAt(text, i + |what|, more)
  {
    var all := text[i..i + |what + more|];
    assert all[..|what|] == what && all[|what|..] == more;
    assert text[i..i + |what|] == all[..|what|] && text[i + |what|..i + |what| + |more|] == all[|what|..];
  }

  lemma IdLength(id: string)
    requires Filenames.IsValidId(id)
    ensures |id| == 12
  {
  }

  lemma StartsWith(text: string, i: nat, what: string)
    requires StartsAt(text, i, what)
    ensures i + |what| <= |text| && forall k :: 0 <= k < |what| ==> text[i + k] == what[k]
  {
    forall k | 0 <= k < |what| ensures text[i + k] == what[k] {
      assert text[i..i + |what|][k] == what[k];
    }
  }

  lemma EndingStarts(blank: string, quoted: string)
    requires IsTitle(blank, quoted)
    ensures var c := Ending(blank, quoted)[0]; !InAnchor(c, true) && c != '#'
  {
    assert blank != "" ==> Ending(blank, quoted)[0] == blank[0];
  }

  lemma AnchorThere(text: string, i: nat, anchor: string, blank: string, quoted: string)
    requires IsAnchor(anchor, true) && IsTitle(blank, quoted)
    requires StartsAt(text, i, anchor) && StartsAt(text, i + |anchor|, Ending(blank, quoted))
    ensures AnchorFrom(text, i, true) == i + |anchor|
  {
    hide AnchorFrom, IsTitle;
    StartsWith(text, i + |anchor|, Ending(blank, quoted));
    EndingStarts(blank, quoted);
    assert text[i + |anchor| + 0] == Ending(blank, quoted)[0];
    AnchorFromIff(text, i, i + |anchor|, true);
  }

  lemma TargetPieces(text: string, i: nat, id: string, anchor: string, blank: string, quoted: string)
    requires |id| == 12 && StartsAt(text, i, TargetText(id, anchor, blank, quoted))
    ensures StartsAt(text, i, "](entry:") && StartsAt(text, i + 8, id)
    ensures StartsAt(text, i + 20, anchor) && StartsAt(text, i + 20 + |anchor|, Ending(blank, quoted))
  {
    var last := Ending(blank, quoted);
    assert TargetText(id, anchor, blank, quoted) == "](entry:" + (id + (anchor + last));
    Pieces(text, i, "](entry:", id + (anchor + last));
    Pieces(text, i + 8, id, anchor + last);
    Pieces(text, i + 20, anchor, last);
  }

  lemma EndingEnds(text: string, i: nat, blank: string, quoted: string)
    requires StartsAt(text, i, Ending(blank, quoted))
    ensures i + |blank| + |quoted| < |text| && text[i + |blank| + |quoted|] == ')'
  {
    StartsWith(text, i, Ending(blank, quoted));
    assert text[i + (|blank| + |quoted|)] == Ending(blank, quoted)[|blank| + |quoted|];
  }

  /** Wherever the text of a target stands, the pattern matches it, and no more. */
  lemma TargetThere(text: string, i: nat, id: string, anchor: string, blank: string, quoted: string)
    requires IsTarget(id, anchor, blank, quoted) && StartsAt(text, i, TargetText(id, anchor, blank, quoted))
    ensures TargetAt(text, i) == Some(Target(i, id, i + |TargetText(id, anchor, blank, quoted)|))
  {
    hide AnchorFrom, TitleFrom, IsTitle, IsAnchor, Ending;
    IdLength(id);
    TargetPieces(text, i, id, anchor, blank, quoted);
    AnchorThere(text, i + 20, anchor, blank, quoted);
    TitleThere(text, i + 20 + |anchor|, blank, quoted);
    EndingEnds(text, i + 20 + |anchor|, blank, quoted);
  }

  /** And whatever the pattern matches is such a text. */
  lemma TargetMatched(text: string, i: nat) returns (anchor: string, blank: string, quoted: string)
    requires TargetAt(text, i).Some?
    ensures var m := TargetAt(text, i).value;
            && IsTarget(m.id, anchor, blank, quoted) && m.end <= |text|
            && text[i..m.end] == TargetText(m.id, anchor, blank, quoted)
  {
    hide AnchorFrom, TitleFrom, IsTitle, IsAnchor;
    var m := TargetAt(text, i).value;
    var title := AnchorFrom(text, i + 20, true);
    AnchorFromIff(text, i + 20, title, true);
    anchor := text[i + 20..title];
    blank, quoted := TitlePassed(text, title);
    TargetJoins(text, i, m.id, title, m.end, blank, quoted);
  }

  lemma TargetJoins(text: string, i: nat, id: string, title: nat, end: nat, blank: string, quoted: string)
    requires i + 20 <= title < end <= |text| && StartsAt(text, i, "](entry:") && id == text[i + 8..i + 20]
    requires text[title..end - 1] == blank + quoted && text[end - 1] == ')'
    ensures text[i..end] == TargetText(id, text[i + 20..title], blank, quoted)
  {
    assert text[i..end] == text[i..i + 8] + text[i + 8..i + 20] + text[i + 20..title] + text[title..end - 1] + text[end - 1..end];
    assert text[end - 1..end] == ")";
  }

  // --- Links ------------------------------------------------------------------------------------------

  /** A token for `id` at `i`, with as much of an anchor as there is. */
  predicate TokenAt(text: string, i: nat, id: string, anchor: string) {
    && StartsAt(text, i, "entry:" + id + anchor) && Filenames.IsValidId(id)
    && AnchorIs(text, i + 18, i + 18 + |anchor|, false)
  }

  function TokenLink(i: nat, id: string, anchor: string): Link {
    Link(i, id, if anchor == "" then None else Some(anchor), i + 18 + |anchor|)
  }

  /** A token is matched where it stands, whole. */
  lemma LinkThere(text: string, i: nat, id: string, anchor: string)
    requires TokenAt(text, i, id, anchor)
    ensures LinkAt(text, i) == Some(TokenLink(i, id, anchor))
  {
    hide AnchorFrom, AnchorIs;
    IdLength(id);
    assert "entry:" + id + anchor == "entry:" + (id + anchor);
    Pieces(text, i, "entry:", id + anchor);
    Pieces(text, i + 6, id, anchor);
    AnchorFromIff(text, i + 18, i + 18 + |anchor|, false);
  }

  /** And nothing else is. */
  lemma LinkMatched(text: string, i: nat) returns (id: string, anchor: string)
    requires LinkAt(text, i).Some?
    ensures TokenAt(text, i, id, anchor) && LinkAt(text, i) == Some(TokenLink(i, id, anchor))
  {
    hide AnchorFrom, AnchorIs;
    var m := LinkAt(text, i).value;
    id, anchor := m.id, text[i + 18..m.end];
    AnchorFromIff(text, i + 18, m.end, false);
    assert text[i..m.end] == text[i..i + 6] + text[i + 6..i + 18] + text[i + 18..m.end];
  }
}
