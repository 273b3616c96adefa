/**
  PHP's ordered array, restricted to what the adapter relies on: an
  association list whose keys are unique, where assigning to a key that is
  already present overwrites its value in place (keeping its position) and
  assigning to a new key appends it at the end.
 */
module PhpArray {
  import opened Wrappers

  type OMap<K, V> = seq<(K, V)>

  predicate HasKey<K(==), V>(m: OMap<K, V>, k: K) {
    exists i :: 0 <= i < |m| && m[i].0 == k
  }

  /** No key occurs twice: the shape of every PHP array. */
  predicate DistinctKeys<K(==), V>(m: OMap<K, V>) {
    forall i, j :: 0 <= i < j < |m| ==> m[i].0 != m[j].0
  }

  /** The position of the first entry carrying key `k`. */
  function IndexOf<K(==), V>(m: OMap<K, V>, k: K): (i: nat)
    requires HasKey(m, k)
    ensures i < |m| && m[i].0 == k
    ensures forall j :: 0 <= j < i ==> m[j].0 != k
  {
    if m[0].0 == k then 0
    else
      assert HasKey(m[1..], k) by {
        var i :| 0 <= i < |m| && m[i].0 == k;
        assert m[1..][i - 1].0 == k;
      }
      1 + IndexOf(m[1..], k)
  }

  /** `$m[$k]`, or None when `$k` is not a key of `$m`. */
  function Lookup<K(==), V>(m: OMap<K, V>, k: K): Option<V> {
    if HasKey(m, k) then Some(m[IndexOf(m, k)].1) else None
  }

  /** `$m[$k]`, reading a missing key as `default` (PHP reads it as NULL). */
  function LookupOr<K(==), V>(m: OMap<K, V>, k: K, default: V): V {
    if HasKey(m, k) then m[IndexOf(m, k)].1 else default
  }

  /** `$m[$k] = $v`. */
  function Put<K(==), V>(m: OMap<K, V>, k: K, v: V): OMap<K, V> {
    if HasKey(m, k) then m[IndexOf(m, k) := (k, v)] else m + [(k, v)]
  }

  /** After `$m[$k] = $v`, `$m[$k]` is `$v` and every other key reads as before. */
  lemma PutLookup<K(!new), V>(m: OMap<K, V>, k: K, v: V)
    ensures Lookup(Put(m, k, v), k) == Some(v)
    ensures forall j :: j != k ==> Lookup(Put(m, k, v), j) == Lookup(m, j)
  {
    var r := Put(m, k, v);
    var at := if HasKey(m, k) then IndexOf(m, k) else |m|;
    assert r[at] == (k, v);
    assert forall j :: 0 <= j < |m| && j != at ==> r[j] == m[j];
    forall j | j != k ensures Lookup(r, j) == Lookup(m, j) {
      if HasKey(m, j) {
        assert r[IndexOf(m, j)].0 == j;
      }
      if HasKey(r, j) {
        assert m[IndexOf(r, j)].0 == j;
      }
    }
  }

  /** Assigning to a present key keeps every key in its place; a new key is appended. */
  lemma PutShape<K, V>(m: OMap<K, V>, k: K, v: V)
    ensures HasKey(m, k) ==> |Put(m, k, v)| == |m| && forall i :: 0 <= i < |m| ==> Put(m, k, v)[i].0 == m[i].0
    ensures !HasKey(m, k) ==> Put(m, k, v) == m + [(k, v)]
    ensures DistinctKeys(m) ==> DistinctKeys(Put(m, k, v))
  {
  }

  /** Every entry after `$m[$k] = $v` is an old entry or the new pair. */
  lemma PutEntries<K, V>(m: OMap<K, V>, k: K, v: V)
    ensures forall p :: p in Put(m, k, v) ==> p in m || p == (k, v)
  {
    if HasKey(m, k) {
      var r := Put(m, k, v);
      forall p | p in r ensures p in m || p == (k, v) {
        var i :| 0 <= i < |r| && r[i] == p;
        if i != IndexOf(m, k) { assert r[i] == m[i]; }
      }
    }
  }

  /**
    The array that `foreach ($xs as [$k, $v]) { $m[$k] = $v; }` builds from
    an empty `$m`.
   */
  function IndexBy<K(==), V>(xs: seq<(K, V)>): (m: OMap<K, V>)
    ensures DistinctKeys(m)
  {
    if xs == [] then []
    else
      var init := IndexBy(xs[..|xs| - 1]);
      PutShape(init, xs[|xs| - 1].0, xs[|xs| - 1].1);
      Put(init, xs[|xs| - 1].0, xs[|xs| - 1].1)
  }

  /** Every entry of the built array is one of the pairs it was built from. */
  lemma {:induction false} IndexByEntries<K, V>(xs: seq<(K, V)>)
    ensures forall p :: p in IndexBy(xs) ==> p in xs
  {
    if xs != [] {
      var init := xs[..|xs| - 1];
      IndexByEntries(init);
      PutEntries(IndexBy(init), xs[|xs| - 1].0, xs[|xs| - 1].1);
      assert forall p :: p in init ==> p in xs;
    }
  }

  /** A key is present exactly when some pair carries it. */
  lemma {:induction false} IndexByHasKey<K(!new), V>(xs: seq<(K, V)>, k: K)
    ensures HasKey(IndexBy(xs), k) <==> exists i :: 0 <= i < |xs| && xs[i].0 == k
  {
    if xs != [] {
      var init := xs[..|xs| - 1];
      var last := xs[|xs| - 1];
      IndexByHasKey(init, k);
      PutLookup(IndexBy(init), last.0, last.1);
      assert HasKey(IndexBy(xs), k) <==> k == last.0 || HasKey(IndexBy(init), k) by {
        if k != last.0 {
          assert Lookup(IndexBy(xs), k) == Lookup(IndexBy(init), k);
        }
      }
      if exists i :: 0 <= i < |init| && init[i].0 == k {
        var i :| 0 <= i < |init| && init[i].0 == k;
        assert xs[i].0 == k;
      }
      if exists i :: 0 <= i < |xs| && xs[i].0 == k {
        var i :| 0 <= i < |xs| && xs[i].0 == k;
        if i < |init| { assert init[i].0 == k; }
      }
    }
  }

  /** A present key holds the value of the last pair that carries it. */
  lemma {:induction false} IndexByLast<K(!new), V>(xs: seq<(K, V)>, i: nat)
    requires i < |xs|
    requires forall j :: i < j < |xs| ==> xs[j].0 != xs[i].0
    ensures Lookup(IndexBy(xs), xs[i].0) == Some(xs[i].1)
  {
    var init := xs[..|xs| - 1];
    PutLookup(IndexBy(init), xs[|xs| - 1].0, xs[|xs| - 1].1);
    if i < |xs| - 1 {
      IndexByLast(init, i);
    }
  }

  /** With unique keys nothing is overwritten: one entry per pair, in the order given. */
  lemma {:induction false} IndexByDistinct<K, V>(xs: seq<(K, V)>)
    requires DistinctKeys(xs)
    ensures IndexBy(xs) == xs
  {
    if xs != [] {
      var init := xs[..|xs| - 1];
      var last := xs[|xs| - 1];
      IndexByDistinct(init);
      assert !HasKey(init, last.0) by {
        forall i | 0 <= i < |init| ensures init[i].0 != last.0 {
          assert init[i] == xs[i];
        }
      }
      assert init + [last] == xs;
    }
  }
}
