/** A stable sort by a comparison, and the order an `order` array of ids asks for. */
module Sorting {
  import opened Options

  ghost predicate Total<T(!new)>(le: (T, T) -> bool) {
    forall a, b :: le(a, b) || le(b, a)
  }

  ghost predicate Transitive<T(!new)>(le: (T, T) -> bool) {
    forall a, b, c :: le(a, b) && le(b, c) ==> le(a, c)
  }

  /** Before the first element it is not after. */
  function Insert<T>(x: T, s: seq<T>, le: (T, T) -> bool): (r: seq<T>)
    ensures multiset(r) == multiset([x]) + multiset(s)
  {
    if s == [] then [x]
    else
      assert s == [s[0]] + s[1..];
      if le(x, s[0]) then [x] + s else [s[0]] + Insert(x, s[1..], le)
  }

  function Sort<T>(s: seq<T>, le: (T, T) -> bool): (r: seq<T>)
    ensures multiset(r) == multiset(s)
  {
    if s == [] then []
    else
      assert s == [s[0]] + s[1..];
      Insert(s[0], Sort(s[1..], le), le)
  }

  predicate Sorted<T>(s: seq<T>, le: (T, T) -> bool) {
    forall i, j :: 0 <= i < j < |s| ==> le(s[i], s[j])
  }

  lemma {:induction false} InsertSorts<T(!new)>(x: T, s: seq<T>, le: (T, T) -> bool)
    requires Total(le) && Transitive(le) && Sorted(s, le)
    ensures Sorted(Insert(x, s, le), le)
  {
    if s != [] && !le(x, s[0]) {
      InsertSorts(x, s[1..], le);
      var rest := Insert(x, s[1..], le);
      forall k | 0 <= k < |rest| ensures le(s[0], rest[k]) {
        assert rest[k] in multiset(rest);
        assert rest[k] == x || rest[k] in s[1..];
      }
    } else if s != [] {
      forall k | 0 <= k < |s| ensures le(x, s[k]) {
        assert k == 0 || le(s[0], s[k]);
      }
    }
  }

  lemma {:induction false} SortSorts<T(!new)>(s: seq<T>, le: (T, T) -> bool)
    requires Total(le) && Transitive(le)
    ensures Sorted(Sort(s, le), le)
  {
    if s != [] {
      SortSorts(s[1..], le);
      InsertSorts(s[0], Sort(s[1..], le), le);
    }
  }

  /** The place of an id in an order array; the last, if it is there twice. */
  function PlaceIn(order: seq<string>, id: Option<string>): (place: Option<nat>)
    ensures place.Some? ==> place.value < |order| && id == Some(order[place.value])
    ensures place.Some? ==> forall k :: place.value < k < |order| ==> Some(order[k]) != id
    ensures place.None? ==> forall k :: 0 <= k < |order| ==> Some(order[k]) != id
  {
    if order == [] then None
    else if id == Some(order[|order| - 1]) then Some(|order| - 1)
    else PlaceIn(order[..|order| - 1], id)
  }

  /** The comparison of `sortByOrder`: placed ones first, by place; the others by their fallback key. */
  predicate NotAfter(order: seq<string>, id: Option<string>, key: string, id': Option<string>, key': string,
                     keyLe: (string, string) -> bool)
  {
    var a, b := PlaceIn(order, id), PlaceIn(order, id');
    if a.Some? && b.Some? then a.value <= b.value
    else if a.Some? then true
    else if b.Some? then false
    else keyLe(key, key')
  }

  lemma NotAfterIsAnOrder(order: seq<string>, keyLe: (string, string) -> bool)
    requires Total(keyLe) && Transitive(keyLe)
    ensures forall i, k, i', k' :: NotAfter(order, i, k, i', k', keyLe) || NotAfter(order, i', k', i, k, keyLe)
    ensures forall i, k, i', k', i'', k'' ::
              NotAfter(order, i, k, i', k', keyLe) && NotAfter(order, i', k', i'', k'', keyLe)
              ==> NotAfter(order, i, k, i'', k'', keyLe)
  {
  }
}
