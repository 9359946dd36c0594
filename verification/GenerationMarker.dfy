/**
 * The marker protocol of durable caches: mutators change documents and then write a
 * fresh token; regenerators read the token before their scan and record it. Documents
 * are kept as histories, so "how new" a scan is can be said per document.
 */
module GenerationMarker {
  import opened Options

  type Key = string
  type Token = nat
  // How many versions of each document someone has seen; none of an absent key.
  type Versions = map<Key, nat>

  datatype World<D> = World(
    // Every version each document has had.
    hist: map<Key, seq<D>>,
    // The token in the marker, or none if it was never bumped.
    marker: Option<Token>,
    // What each token ever in the marker vouches for: the versions there were when it was written.
    floors: map<Option<Token>, Versions>
  )

  // `readResourceGeneration`: a token, "never bumped", or a failed read.
  datatype MarkerRead = Read(token: Option<Token>) | Unreadable

  function Seen(v: Versions, k: Key): nat {
    if k in v then v[k] else 0
  }

  /** `v` is at least as new as `w` in every document. */
  ghost predicate Covers(v: Versions, w: Versions) {
    forall k :: Seen(w, k) <= Seen(v, k)
  }

  /** A listing names nothing twice. */
  predicate Distinct(keys: seq<Key>) {
    keys == [] || (keys[0] !in keys[1..] && Distinct(keys[1..]))
  }

  function Current<D>(w: World<D>): Versions {
    map k | k in w.hist :: |w.hist[k]|
  }

  /** A document as a reader of version `n` saw it; version 0 is before it existed. */
  function DocAt<D>(w: World<D>, k: Key, n: nat): (d: Option<D>)
    ensures d.Some? ==> k in w.hist && 0 < n <= |w.hist[k]| && d.value == w.hist[k][n - 1]
  {
    if k in w.hist && 0 < n <= |w.hist[k]| then Some(w.hist[k][n - 1]) else None
  }

  function Latest<D>(w: World<D>, k: Key): Option<D> {
    DocAt(w, k, Seen(Current(w), k))
  }

  /** The versions whose bump has landed. */
  function Landed<D>(w: World<D>): Versions
    requires w.marker in w.floors
  {
    w.floors[w.marker]
  }

  ghost predicate WorldOk<D(!new)>(w: World<D>) {
    && w.marker in w.floors
    && None in w.floors && w.floors[None] == map[]
    && forall t :: t in w.floors ==> Covers(Current(w), w.floors[t])
  }

  function Mutate<D>(w: World<D>, k: Key, d: D): World<D> {
    w.(hist := w.hist[k := (if k in w.hist then w.hist[k] else []) + [d]])
  }

  /** A bump writes a token never used before. */
  function Bump<D>(w: World<D>, t: Token): World<D> {
    w.(marker := Some(t), floors := w.floors[Some(t) := Current(w)])
  }

  predicate MayRead<D>(w: World<D>, read: MarkerRead) {
    read.Unreadable? || read.token == w.marker
  }

  predicate IsCurrent(token: Option<Token>, read: MarkerRead) {
    read.Read? && read.token == token
  }

  /** What a world that has moved on keeps. */
  ghost predicate Grows<D(!new)>(v: World<D>, w: World<D>) {
    && (forall k :: k in v.hist ==> k in w.hist && v.hist[k] <= w.hist[k])
    && (forall t :: t in v.floors ==> t in w.floors && w.floors[t] == v.floors[t])
    && v.marker in v.floors && w.marker in w.floors
    && Covers(Landed(w), Landed(v))
    && Covers(Current(w), Current(v))
  }

  lemma CoversAll(a: Versions, b: Versions, c: Versions)
    requires Covers(a, b) && Covers(b, c)
    ensures Covers(a, c)
  {
    forall k ensures Seen(c, k) <= Seen(a, k) {
      assert Seen(c, k) <= Seen(b, k);
    }
  }

  lemma Stays<D(!new)>(w: World<D>)
    requires WorldOk(w)
    ensures Grows(w, w)
  {
  }

  lemma MutateGrows<D(!new)>(w: World<D>, k: Key, d: D)
    requires WorldOk(w)
    ensures WorldOk(Mutate(w, k, d)) && Grows(w, Mutate(w, k, d))
    ensures Latest(Mutate(w, k, d), k) == Some(d)
  {
    var v := Mutate(w, k, d);
    forall j ensures Seen(Current(w), j) <= Seen(Current(v), j) {
    }
    forall t | t in v.floors ensures Covers(Current(v), v.floors[t]) {
      forall j ensures Seen(v.floors[t], j) <= Seen(Current(v), j) {
        assert Seen(v.floors[t], j) <= Seen(Current(w), j);
      }
    }
  }

  lemma BumpGrows<D(!new)>(w: World<D>, t: Token)
    requires WorldOk(w) && Some(t) !in w.floors
    ensures WorldOk(Bump(w, t)) && Grows(w, Bump(w, t))
    ensures Landed(Bump(w, t)) == Current(w)
  {
    assert Current(Bump(w, t)) == Current(w);
  }

  /** A version once seen reads the same for ever. */
  lemma DocStays<D(!new)>(v: World<D>, w: World<D>, k: Key, n: nat)
    requires Grows(v, w) && n <= Seen(Current(v), k)
    ensures DocAt(w, k, n) == DocAt(v, k, n)
  {
  }
}
