/** What resolving makes of a token and of a text, said of the index and the text alone. */
module Resolving {
  import opened Options
  import opened TextPatterns
  import opened LinkGrammar
  import opened CodeRegions
  import opened EntryLinks
  import CodeSpans
  import Filenames
  import IndexSpec
  import Unwrapping

  // --- A text that starts later -----------------------------------------------------------------------

  function Moved(l: Link, d: nat): Link {
    Link(d + l.at, l.id, l.anchor, d + l.end)
  }

  lemma AnchorLater(text: string, d: nat, rest: string, i: nat, end: nat)
    requires CodeSpans.Tail(text, d, rest) && i <= end <= |rest|
    ensures AnchorIs(text, d + i, d + end, false) <==> AnchorIs(rest, i, end, false)
  {
    CodeSpans.TailLength(text, d, rest);
    CodeSpans.TailSlice(text, d, rest, i, end);
    if end < |rest| {
      Unwrapping.CharLater(text, d, rest, end);
    }
  }

  lemma TokenLater(text: string, d: nat, rest: string, i: nat, id: string, anchor: string)
    requires CodeSpans.Tail(text, d, rest)
    ensures TokenAt(text, d + i, id, anchor) <==> TokenAt(rest, i, id, anchor)
  {
    hide AnchorIs, CodeSpans.Tail;
    CodeSpans.TailLength(text, d, rest);
    CodeSpans.StartsLater(text, d, rest, i, "entry:" + id + anchor);
    if Filenames.IsValidId(id) && i + |"entry:" + id + anchor| <= |rest| {
      IdLength(id);
      AnchorLater(text, d, rest, i + 18, i + 18 + |anchor|);
      assert d + (i + 18) == d + i + 18 && d + (i + 18 + |anchor|) == d + i + 18 + |anchor|;
    }
  }

  lemma LinkLater(text: string, d: nat, rest: string, i: nat)
    requires CodeSpans.Tail(text, d, rest)
    ensures LinkAt(rest, i).Some? ==> LinkAt(text, d + i) == Some(Moved(LinkAt(rest, i).value, d))
    ensures LinkAt(rest, i).None? ==> LinkAt(text, d + i).None?
  {
    hide LinkAt, TokenAt;
    if LinkAt(rest, i).Some? {
      var id, anchor := LinkMatched(rest, i);
      TokenLater(text, d, rest, i, id, anchor);
      LinkThere(text, d + i, id, anchor);
    }
    if LinkAt(text, d + i).Some? {
      var id, anchor := LinkMatched(text, d + i);
      TokenLater(text, d, rest, i, id, anchor);
      LinkThere(rest, i, id, anchor);
    }
  }

  lemma ShownLater(index: map<string, IndexSpec.Location>, r: Resolver, l: Link, d: nat)
    ensures Shown(index, r, Moved(l, d)) == Shown(index, r, l)
  {
  }

  lemma {:induction false} ReplacedLater(index: map<string, IndexSpec.Location>, r: Resolver, text: string, d: nat, rest: string, i: nat)
    requires CodeSpans.Tail(text, d, rest) && i <= |rest|
    ensures Replaced(index, r, text, d + i) == Replaced(index, r, rest, i)
    decreases |rest| - i
  {
    hide LinkAt, Shown, CodeSpans.Tail;
    CodeSpans.TailLength(text, d, rest);
    if i < |rest| {
      LinkLater(text, d, rest, i);
      var m := LinkAt(rest, i);
      if m.Some? {
        ShownLater(index, r, m.value, d);
        ReplacedLater(index, r, text, d, rest, m.value.end);
      } else {
        Unwrapping.CharLater(text, d, rest, i);
        ReplacedLater(index, r, text, d, rest, i + 1);
      }
    }
  }

  // --- One token --------------------------------------------------------------------------------------

  /** No token starts before `at`. */
  ghost predicate NoTokenBefore(text: string, at: nat) {
    forall k :: 0 <= k < at ==> !StartsAt(text, k, "entry:")
  }

  lemma NoTokenNoLink(text: string, k: nat)
    requires !StartsAt(text, k, "entry:")
    ensures LinkAt(text, k).None?
  {
  }

  lemma {:induction false} PlainReplaced(index: map<string, IndexSpec.Location>, r: Resolver, text: string, i: nat, at: nat)
    requires i <= at <= |text| && NoTokenBefore(text, at)
    ensures Replaced(index, r, text, i).text == text[i..at] + Replaced(index, r, text, at).text
    decreases at - i
  {
    hide LinkAt;
    if i < at {
      NoTokenNoLink(text, i);
      PlainReplaced(index, r, text, i + 1, at);
      assert text[i..at] == [text[i]] + text[i + 1..at];
      AndThen([text[i]], text[i + 1..at], Replaced(index, r, text, at).text);
    }
  }

  /** The index has an entry for `id`, in a collection and with a slug. */
  ghost predicate HasEntry(index: map<string, IndexSpec.Location>, id: string, collection: string, slug: string) {
    && id in index && index[id].kind.EntryKind?
    && index[id].collection == Some(collection) && collection != ""
    && index[id].slug == Some(slug) && slug != ""
  }

  /** What stands for a token: its entry's url and the anchor, or what a dead link shows. */
  ghost predicate StandsFor(index: map<string, IndexSpec.Location>, r: Resolver, id: string, anchor: string, shown: string) {
    if r.linkable.Some? && !r.linkable.value(id) then shown == "#"
    else if exists collection, slug :: HasEntry(index, id, collection, slug) then
      exists collection, slug :: HasEntry(index, id, collection, slug) && shown == r.url(collection, slug, id) + anchor
    else shown == if r.linkable.Some? || anchor == "" then "#" else anchor
  }

  lemma ShownStands(index: map<string, IndexSpec.Location>, r: Resolver, i: nat, id: string, anchor: string)
    ensures StandsFor(index, r, id, anchor, Shown(index, r, TokenLink(i, id, anchor)).text)
  {
    var entry := FindEntry(index, id);
    if entry.Some? {
      assert HasEntry(index, id, entry.value.collection, entry.value.slug);
    }
  }

  /** A token becomes what stands for it, what is before it stays, and the rest is replaced on its own. */
  lemma TokenIsReplaced(index: map<string, IndexSpec.Location>, r: Resolver, before: string, id: string, anchor: string, rest: string)
    returns (shown: string)
    requires var text := before + ("entry:" + id + anchor + rest);
             TokenAt(text, |before|, id, anchor) && NoTokenBefore(text, |before|)
    ensures StandsFor(index, r, id, anchor, shown)
    ensures Replaced(index, r, before + ("entry:" + id + anchor + rest), 0).text
            == before + shown + Replaced(index, r, rest, 0).text
  {
    hide LinkAt, Shown, StandsFor, TokenAt, Replaced;
    var text, at := before + ("entry:" + id + anchor + rest), |before|;
    var end := at + |"entry:" + id + anchor|;
    TokenLength(text, at, id, anchor);
    LinkThere(text, at, id, anchor);
    shown := Shown(index, r, TokenLink(at, id, anchor)).text;
    ShownStands(index, r, at, id, anchor);
    PlainReplaced(index, r, text, 0, at);
    LinkReplaced(index, r, text, at);
    assert text == (before + ("entry:" + id + anchor)) + rest;
    CodeSpans.TailOf(before + ("entry:" + id + anchor), rest);
    ReplacedLater(index, r, text, end, rest, 0);
    assert text[0..at] == before;
    AndThen(before, shown, Replaced(index, r, rest, 0).text);
  }

  lemma TokenLength(text: string, at: nat, id: string, anchor: string)
    requires TokenAt(text, at, id, anchor)
    ensures |"entry:" + id + anchor| == 18 + |anchor| && at < |text|
  {
    IdLength(id);
  }

  lemma LinkReplaced(index: map<string, IndexSpec.Location>, r: Resolver, text: string, at: nat)
    requires at < |text| && LinkAt(text, at).Some?
    ensures var m := LinkAt(text, at).value;
            Replaced(index, r, text, at).text == Shown(index, r, m).text + Replaced(index, r, text, m.end).text
  {
  }

  // --- A text without code ----------------------------------------------------------------------------

  /** A link to `id` may not be shown as one: its target is withheld, or is no entry. */
  predicate ToUnwrap(index: map<string, IndexSpec.Location>, r: Resolver, id: string) {
    r.linkable.Some? && (!r.linkable.value(id) || FindEntry(index, id).None?)
  }

  /**
   * Outside code, a text's tokens are replaced, and where what may be shown is limited the links to
   * withheld or missing targets are unwrapped before.
   */
  lemma ProseIsResolved(index: map<string, IndexSpec.Location>, r: Resolver, text: string)
    requires CodeSpans.Quiet(text, "")
    ensures r.linkable.None? ==> Resolve(index, r, text).text == Replaced(index, r, text, 0).text
    ensures r.linkable.Some? ==>
              Resolve(index, r, text).text
              == Replaced(index, r, Unwrapping.Output(text, id => ToUnwrap(index, r, id)), 0).text
  {
    CodeSpans.QuietIsProse(text);
    if text == "" {
      Unwrapping.PlainIsLeft(text, id => ToUnwrap(index, r, id));
    } else {
      assert Parts(text, 0, 0)[1..] == [];
      AloneResolved(index, r, text);
      if r.linkable.Some? {
        UnwrapsAlike(text, Targets(text, 0), 0, id => Withheld(r, id) || FindEntry(index, id).None?, id => ToUnwrap(index, r, id));
      }
    }
  }

  lemma AloneResolved(index: map<string, IndexSpec.Location>, r: Resolver, text: string)
    requires Parts(text, 0, 0) == [Part(text, false)]
    ensures Resolve(index, r, text).text == Replaced(index, r, Prepared(index, r, text), 0).text
  {
    hide Replaced, Prepared, Parts;
    var parts := [Part(text, false)];
    assert parts[1..] == [];
    var out := ResolvePart(index, r, parts[0]);
    assert ResolveParts(index, r, parts) == Then(out, ResolveParts(index, r, parts[1..]));
    assert ResolveParts(index, r, parts[1..]).text == "";
    assert out.text + "" == out.text;
  }

  lemma FindEntryIff(index: map<string, IndexSpec.Location>, id: string)
    ensures FindEntry(index, id).Some? <==> exists collection, slug :: HasEntry(index, id, collection, slug)
  {
    var entry := FindEntry(index, id);
    if entry.Some? {
      assert HasEntry(index, id, entry.value.collection, entry.value.slug);
    }
  }

  /**
   * With `isLinkable`, a link to a target that is withheld or no entry leaves its text alone: no url,
   * no id, no token.
   */
  lemma WithheldLinkLeavesItsText(index: map<string, IndexSpec.Location>, r: Resolver, l: Unwrapping.Inline, rest: string)
    requires r.linkable.Some? && Unwrapping.IsInline(l) && CodeSpans.Quiet(Unwrapping.InlineText(l) + rest, "")
    requires !r.linkable.value(l.id) || forall collection, slug :: !HasEntry(index, l.id, collection, slug)
    ensures Resolve(index, r, Unwrapping.InlineText(l) + rest).text
            == Replaced(index, r, (if Unwrapping.EndsInBang(l.before) then l.before[..|l.before| - 1] else l.before)
                                  + l.inner + Unwrapping.Output(rest, id => ToUnwrap(index, r, id)), 0).text
  {
    hide Unwrapping.IsInline, Unwrapping.Output, Replaced;
    FindEntryIff(index, l.id);
    ProseIsResolved(index, r, Unwrapping.InlineText(l) + rest);
    Unwrapping.InlineLinkLeavesItsText(l, rest, id => ToUnwrap(index, r, id));
  }
}
