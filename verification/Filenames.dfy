/** The filename grammar content ids rest on: `{type}.{slug}.{id}.{ext}` files and `{slug}.{id}` directories. */
module Filenames {
  import opened Options

  // --- Splitting ------------------------------------------------------------------------------------

  /** `split` on one character: never empty, one part more than there are separators. */
  function Split(s: string, sep: char): (parts: seq<string>)
    ensures |parts| >= 1
    ensures forall i :: 0 <= i < |parts| ==> sep !in parts[i]
  {
    if s == "" then [""]
    else
      var rest := Split(s[1..], sep);
      if s[0] == sep then [""] + rest else [[s[0]] + rest[0]] + rest[1..]
  }

  function Join(parts: seq<string>, sep: char): string {
    if |parts| == 0 then "" else if |parts| == 1 then parts[0] else parts[0] + [sep] + Join(parts[1..], sep)
  }

  lemma {:induction false} JoinOfSplit(s: string, sep: char)
    ensures Join(Split(s, sep), sep) == s
  {
    if s != "" {
      JoinOfSplit(s[1..], sep);
      var rest := Split(s[1..], sep);
      if s[0] == sep {
        assert ([""] + rest)[1..] == rest;
      } else {
        var parts := [[s[0]] + rest[0]] + rest[1..];
        assert parts[1..] == rest[1..];
      }
    }
  }

  lemma {:induction false} SplitOfPlain(p: string, sep: char)
    requires sep !in p
    ensures Split(p, sep) == [p]
  {
    if p != "" {
      SplitOfPlain(p[1..], sep);
      assert p[0] != sep && [p[0]] + p[1..] == p;
    }
  }

  lemma {:induction false} SplitAfter(p: string, rest: string, sep: char)
    requires sep !in p
    ensures Split(p + [sep] + rest, sep) == [p] + Split(rest, sep)
  {
    var s := p + [sep] + rest;
    if p == "" {
      assert s == [sep] + rest && s[1..] == rest;
    } else {
      assert s[0] == p[0] != sep && s[1..] == p[1..] + [sep] + rest;
      SplitAfter(p[1..], rest, sep);
      assert [p[0]] + p[1..] == p;
      assert ([p[1..]] + Split(rest, sep))[1..] == Split(rest, sep);
    }
  }

  lemma {:induction false} SplitOfJoin(parts: seq<string>, sep: char)
    requires |parts| >= 1 && forall i :: 0 <= i < |parts| ==> sep !in parts[i]
    ensures Split(Join(parts, sep), sep) == parts
  {
    if |parts| == 1 {
      SplitOfPlain(parts[0], sep);
    } else {
      SplitOfJoin(parts[1..], sep);
      SplitAfter(parts[0], Join(parts[1..], sep), sep);
    }
  }

  lemma {:induction false} JoinOfConcat(a: seq<string>, b: seq<string>, sep: char)
    requires |a| >= 1 && |b| >= 1
    ensures Join(a + b, sep) == Join(a, sep) + [sep] + Join(b, sep)
  {
    if |a| == 1 {
      assert (a + b)[1..] == b;
    } else {
      assert (a + b)[1..] == a[1..] + b;
      JoinOfConcat(a[1..], b, sep);
    }
  }

  // --- The grammar ----------------------------------------------------------------------------------

  /** Lower case, of ASCII letters. */
  function LowerChar(c: char): char {
    if 'A' <= c <= 'Z' then (c as int + 32) as char else c
  }

  function Lower(s: string): (r: string)
    ensures |r| == |s| && forall i :: 0 <= i < |s| ==> r[i] == LowerChar(s[i])
  {
    seq(|s|, i requires 0 <= i < |s| => LowerChar(s[i]))
  }

  predicate Base58(c: char) {
    || '1' <= c <= '9'
    || ('A' <= c <= 'Z' && c != 'I' && c != 'O')
    || ('a' <= c <= 'z' && c != 'l')
  }

  predicate IsValidId(s: string) {
    |s| == 12 && forall i :: 0 <= i < |s| ==> Base58(s[i])
  }

  predicate DotPrefixed(s: string) {
    s != "" && s[0] == '.'
  }

  /** `extractIdFromFilename`. */
  function ExtractId(filename: string): Option<string> {
    var parts := Split(filename, '.');
    var n := |parts|;
    if DotPrefixed(filename) then None
    else if n >= 3 && IsValidId(parts[n - 2]) then Some(parts[n - 2])
    else if n == 2 && IsValidId(parts[1]) then Some(parts[1])
    else None
  }

  /** `extractEntryTypeFromFilename`. */
  function ExtractType(filename: string): Option<string> {
    var parts := Split(filename, '.');
    var n := |parts|;
    if DotPrefixed(filename) then None
    else if n >= 4 && IsValidId(parts[n - 2]) then Some(parts[0])
    else None
  }

  /** `extractSlugFromFilename`. */
  function ExtractSlug(filename: string, entryTypeName: Option<string>): string {
    var parts := Split(filename, '.');
    var n := |parts|;
    if n >= 3 && IsValidId(parts[n - 2]) then
      var slugParts := parts[..n - 2];
      if entryTypeName.Some? && entryTypeName.value != "" && |slugParts| > 1 && slugParts[0] == entryTypeName.value
      then Lower(Join(slugParts[1..], '.'))
      else if n >= 4 && |slugParts| > 1 then Lower(Join(slugParts[1..], '.'))
      else Lower(Join(slugParts, '.'))
    else if n == 2 && IsValidId(parts[1]) then Lower(parts[0])
    else if n > 1 then Lower(Join(parts[..n - 1], '.'))
    else Lower(filename)
  }

  datatype Typed = Typed(entryType: string, slug: string, id: string)

  /** `parseTypedFilename` with no list of entry types. */
  function ParseTyped(filename: string): Option<Typed> {
    var all := Split(filename, '.');
    if DotPrefixed(filename) || |all| < 2 then None
    else
      var parts := all[..|all| - 1];
      if |parts| < 3 || !IsValidId(parts[|parts| - 1]) then None
      else Some(Typed(parts[0], Lower(Join(parts[1..|parts| - 1], '.')), parts[|parts| - 1]))
  }

  function EntryName(entryType: string, slug: string, id: string, ext: string): string {
    entryType + "." + slug + "." + id + "." + ext
  }

  lemma ValidIdHasNoDot(id: string)
    requires IsValidId(id)
    ensures '.' !in id
  {
  }

  lemma EntryNameParts(entryType: string, slug: string, id: string, ext: string)
    requires '.' !in entryType && '.' !in ext && '.' !in id
    ensures Split(EntryName(entryType, slug, id, ext), '.') == [entryType] + Split(slug, '.') + [id, ext]
    ensures Join(Split(slug, '.'), '.') == slug
  {
    var parts := [entryType] + Split(slug, '.') + [id, ext];
    JoinOfSplit(slug, '.');
    JoinOfConcat(Split(slug, '.'), [id, ext], '.');
    assert Join([id, ext], '.') == id + "." + ext;
    assert parts == [entryType] + (Split(slug, '.') + [id, ext]);
    JoinOfConcat([entryType], Split(slug, '.') + [id, ext], '.');
    assert Join(parts, '.') == EntryName(entryType, slug, id, ext);
    SplitOfJoin(parts, '.');
  }

  /** The extractors and the parser all recover the parts an entry's name was made of, dotted slug included. */
  lemma NameRoundTrip(entryType: string, slug: string, id: string, ext: string, asked: Option<string>)
    requires entryType != "" && '.' !in entryType && IsValidId(id) && '.' !in ext
    ensures var name := EntryName(entryType, slug, id, ext);
            && ExtractId(name) == Some(id)
            && ExtractType(name) == Some(entryType)
            && ExtractSlug(name, asked) == Lower(slug)
            && ParseTyped(name) == Some(Typed(entryType, Lower(slug), id))
  {
    hide Split, Join, Lower;
    ValidIdHasNoDot(id);
    EntryNameParts(entryType, slug, id, ext);
    var name, middle := EntryName(entryType, slug, id, ext), Split(slug, '.');
    var parts := Split(name, '.');
    assert parts[|parts| - 2] == id && parts[0] == entryType;
    assert parts[..|parts| - 2][1..] == middle;
    assert parts[..|parts| - 1][1..|parts| - 2] == middle;
  }

  /** And back: whatever name the parser accepts is made of its parts, up to the slug's case. */
  lemma ParsedNameIsTyped(filename: string) returns (slug: string, ext: string)
    requires ParseTyped(filename).Some?
    ensures var t := ParseTyped(filename).value;
            && filename == EntryName(t.entryType, slug, t.id, ext) && t.slug == Lower(slug)
            && t.entryType != "" && '.' !in t.entryType && IsValidId(t.id) && '.' !in ext
  {
    var parts := Split(filename, '.');
    var n := |parts|;
    var middle := parts[1..n - 2];
    slug, ext := Join(middle, '.'), parts[n - 1];
    JoinOfSplit(filename, '.');
    assert parts == [parts[0]] + (middle + [parts[n - 2], ext]);
    JoinOfConcat([parts[0]], middle + [parts[n - 2], ext], '.');
    JoinOfConcat(middle, [parts[n - 2], ext], '.');
    assert Join([parts[n - 2], ext], '.') == parts[n - 2] + "." + ext;
    assert parts[..n - 1][1..n - 2] == middle;
  }

  /** The parser and the three extractors agree on every filename. */
  lemma ExtractorsAgree(filename: string, asked: Option<string>)
    ensures ParseTyped(filename).Some? <==> ExtractType(filename).Some?
    ensures ParseTyped(filename).Some? ==>
              ParseTyped(filename).value
              == Typed(ExtractType(filename).value, ExtractSlug(filename, asked), ExtractId(filename).value)
  {
    var parts := Split(filename, '.');
    var n := |parts|;
    if n >= 4 {
      assert parts[..n - 1][n - 2] == parts[n - 2];
      assert parts[..n - 1][1..n - 2] == parts[..n - 2][1..];
    }
  }

  /** Naming the entry type never changes the slug: with two parts or more left, the first goes anyway. */
  lemma EntryTypeNameIsRedundant(filename: string, asked: string)
    ensures ExtractSlug(filename, Some(asked)) == ExtractSlug(filename, None)
  {
  }

  /** A collection directory's name gives back its slug and id. */
  lemma DirectoryRoundTrip(slug: string, id: string)
    requires slug != "" && '.' !in slug && IsValidId(id)
    ensures var name := slug + "." + id;
            ExtractId(name) == Some(id) && ExtractSlug(name, None) == Lower(slug) && ExtractType(name).None?
  {
    ValidIdHasNoDot(id);
    assert Join([slug, id], '.') == slug + "." + id;
    SplitOfJoin([slug, id], '.');
  }

  // --- Collection paths ------------------------------------------------------------------------------

  function Logical(names: seq<string>): (r: seq<string>)
    ensures |r| == |names| && forall i :: 0 <= i < |names| ==> r[i] == ExtractSlug(names[i], None)
  {
    seq(|names|, i requires 0 <= i < |names| => ExtractSlug(names[i], None))
  }

  /** `toLogicalCollectionPath`: each segment without its id. */
  function ToLogical(physical: string): string {
    if physical == "." then "" else Join(Logical(Split(physical, '/')), '/')
  }

  datatype Node = FileNode | DirNode(children: seq<(string, Node)>)

  predicate Matches(child: (string, Node), segment: string) {
    child.1.DirNode? && ExtractSlug(child.0, None) == Lower(segment)
  }

  function NonEmpty(segments: seq<string>): (r: seq<string>)
    ensures forall i :: 0 <= i < |r| ==> r[i] != ""
  {
    if segments == [] then [] else (if segments[0] == "" then [] else [segments[0]]) + NonEmpty(segments[1..])
  }

  /** `names` leads down from `node`, one directory a segment, each of the segment's logical name. */
  predicate Leads(node: Node, segments: seq<string>, names: seq<string>)
    decreases |segments|
  {
    && |names| == |segments|
    && (segments != [] ==>
          && node.DirNode?
          && exists i :: 0 <= i < |node.children|
                         && node.children[i].0 == names[0] && Matches(node.children[i], segments[0])
                         && Leads(node.children[i].1, segments[1..], names[1..]))
  }

  /** The names on the way `resolveCollectionPath` takes, or none. */
  function Way(node: Node, segments: seq<string>): (names: Option<seq<string>>)
    ensures names.Some? ==> Leads(node, segments, names.value)
    decreases |segments|
  {
    if segments == [] then Some([])
    else if !node.DirNode? then None
    else
      var at := FirstMatch(node.children, segments[0]);
      if at.None? then None
      else
        var rest := Way(node.children[at.value].1, segments[1..]);
        if rest.None? then None else Some([node.children[at.value].0] + rest.value)
  }

  function FirstMatch(children: seq<(string, Node)>, segment: string): (at: Option<nat>)
    ensures at.Some? ==> at.value < |children| && Matches(children[at.value], segment)
    ensures at.Some? ==> forall i :: 0 <= i < at.value ==> !Matches(children[i], segment)
    ensures at.None? ==> forall i :: 0 <= i < |children| ==> !Matches(children[i], segment)
  {
    if children == [] then None
    else if Matches(children[0], segment) then Some(0)
    else
      var at := FirstMatch(children[1..], segment);
      if at.Some? then Some(at.value + 1) else None
  }

  function Onward(taken: seq<string>, rest: Option<seq<string>>): Option<seq<string>> {
    if rest.Some? then Some(taken + rest.value) else None
  }

  lemma WayOn(taken: seq<string>, node: Node, segments: seq<string>)
    requires segments != [] && node.DirNode? && FirstMatch(node.children, segments[0]).Some?
    ensures var child := node.children[FirstMatch(node.children, segments[0]).value];
            Onward(taken, Way(node, segments)) == Onward(taken + [child.0], Way(child.1, segments[1..]))
  {
    var child := node.children[FirstMatch(node.children, segments[0]).value];
    var rest := Way(child.1, segments[1..]);
    assert rest.Some? ==> taken + ([child.0] + rest.value) == taken + [child.0] + rest.value;
  }

  /** `resolveCollectionPath`, below its root: one listing a segment, the first match taken. */
  method ResolveCollectionPath(root: Node, logicalPath: string) returns (names: Option<seq<string>>)
    ensures names == Way(root, NonEmpty(Split(logicalPath, '/')))
  {
    var segments := NonEmpty(Split(logicalPath, '/'));
    ghost var way := Way(root, segments);
    assert segments[0..] == segments && (way.Some? ==> [] + way.value == way.value);
    var node, taken: seq<string>, i := root, [], 0;
    while i < |segments|
      invariant 0 <= i <= |segments|
      invariant way == Onward(taken, Way(node, segments[i..]))
    {
      assert segments[i..] != [] && segments[i..][0] == segments[i] && segments[i..][1..] == segments[i + 1..];
      if !node.DirNode? {
        return None;
      }
      var at := FirstMatch(node.children, segments[i]);
      if at.None? {
        return None;
      }
      WayOn(taken, node, segments[i..]);
      taken, node, i := taken + [node.children[at.value].0], node.children[at.value].1, i + 1;
    }
    assert segments[i..] == [] && taken + [] == taken;
    return Some(taken);
  }

  /** Names as a listing gives them. */
  predicate WellNamed(node: Node) {
    node.DirNode? ==>
      forall i :: 0 <= i < |node.children| ==>
        '/' !in node.children[i].0 && node.children[i].0 != "." && node.children[i].0 != "" && WellNamed(node.children[i].1)
  }

  function LowerAll(segments: seq<string>): (r: seq<string>)
    ensures |r| == |segments| && forall i :: 0 <= i < |r| ==> r[i] == Lower(segments[i])
  {
    seq(|segments|, i requires 0 <= i < |segments| => Lower(segments[i]))
  }

  lemma {:induction false} LowerOfJoin(parts: seq<string>, sep: char)
    requires LowerChar(sep) == sep
    ensures Lower(Join(parts, sep)) == Join(LowerAll(parts), sep)
  {
    if |parts| > 1 {
      LowerOfJoin(parts[1..], sep);
      assert LowerAll(parts)[1..] == LowerAll(parts[1..]);
      assert Lower(parts[0] + [sep] + Join(parts[1..], sep)) == Lower(parts[0]) + [sep] + Lower(Join(parts[1..], sep));
    }
  }

  lemma {:induction false} LedNames(node: Node, segments: seq<string>, names: seq<string>)
    requires WellNamed(node) && Leads(node, segments, names)
    ensures Logical(names) == LowerAll(segments)
    ensures forall i :: 0 <= i < |names| ==> '/' !in names[i] && names[i] != "." && names[i] != ""
    decreases |segments|
  {
    if segments != [] {
      var i :| 0 <= i < |node.children| && node.children[i].0 == names[0] && Matches(node.children[i], segments[0])
               && Leads(node.children[i].1, segments[1..], names[1..]);
      LedNames(node.children[i].1, segments[1..], names[1..]);
      assert Logical(names) == [ExtractSlug(names[0], None)] + Logical(names[1..]);
      assert LowerAll(segments) == [Lower(segments[0])] + LowerAll(segments[1..]);
      forall j | 0 <= j < |names| ensures '/' !in names[j] && names[j] != "." && names[j] != "" {
        if j > 0 {
          assert names[j] == names[1..][j - 1];
        }
      }
    }
  }

  /** The path found for a request maps back to the request in lower case, without its empty segments. */
  lemma ResolvedPathMapsBack(root: Node, logicalPath: string)
    requires WellNamed(root) && Way(root, NonEmpty(Split(logicalPath, '/'))).Some?
    ensures var segments := NonEmpty(Split(logicalPath, '/'));
            ToLogical(Join(Way(root, segments).value, '/')) == Lower(Join(segments, '/'))
  {
    var segments := NonEmpty(Split(logicalPath, '/'));
    var names := Way(root, segments).value;
    LedNames(root, segments, names);
    LowerOfJoin(segments, '/');
    if names == [] {
      assert Split("", '/') == [""] && Logical([""]) == [""];
    } else {
      SplitOfJoin(names, '/');
      SplitOfPlain(".", '/');
    }
  }

  /** No two directories side by side share a logical name. */
  predicate Unambiguous(node: Node) {
    node.DirNode? ==>
      && (forall i :: 0 <= i < |node.children| ==> Unambiguous(node.children[i].1))
      && (forall i, j :: 0 <= i < j < |node.children| && node.children[i].1.DirNode? && node.children[j].1.DirNode? ==>
            ExtractSlug(node.children[i].0, None) != ExtractSlug(node.children[j].0, None))
  }

  /** Where no two siblings share a logical name, a collection is found exactly when it is there. */
  lemma {:induction false} FoundIfThere(node: Node, segments: seq<string>, names: seq<string>)
    requires Unambiguous(node)
    ensures Leads(node, segments, names) <==> Way(node, segments) == Some(names)
    decreases |segments|
  {
    if segments != [] && Leads(node, segments, names) {
      var i :| 0 <= i < |node.children| && node.children[i].0 == names[0] && Matches(node.children[i], segments[0])
               && Leads(node.children[i].1, segments[1..], names[1..]);
      var at := FirstMatch(node.children, segments[0]);
      assert at == Some(i);
      FoundIfThere(node.children[i].1, segments[1..], names[1..]);
      assert names == [names[0]] + names[1..];
    }
  }
}
