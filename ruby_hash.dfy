/** Ruby's Hash as the model sees it: an insertion-ordered list of
    key/value pairs. `Lookup` is `Hash#[]` (where `None` is `nil` for a
    missing key), `Without` is what `Hash#delete` leaves behind, and
    `Store` is `Hash#[]=`, which replaces the value of a present key in
    place and appends a new key at the end. A Ruby hash never holds a key
    twice (`UniqueKeys`); the operations are defined on every list and
    keep that property. */
module RubyHash {
  import opened Optional

  /** The keys of `h`, in insertion order. */
  function Keys<K(==, !new), V>(h: seq<(K, V)>): seq<K> {
    seq(|h|, i requires 0 <= i < |h| => h[i].0)
  }

  predicate UniqueKeys<K(==, !new), V>(h: seq<(K, V)>) {
    forall i, j :: 0 <= i < j < |h| ==> h[i].0 != h[j].0
  }

  predicate HasKey<K(==, !new), V>(h: seq<(K, V)>, k: K) {
    k in Keys(h)
  }

  /** `h[k]`: the value stored under `k`, if any. */
  function Lookup<K(==, !new), V>(h: seq<(K, V)>, k: K): (r: Option<V>)
    ensures r.Some? <==> HasKey(h, k)
    ensures r.Some? ==> exists i :: 0 <= i < |h| && h[i] == (k, r.value)
  {
    if h == [] then None
    else
      KeysCons(h, k);
      if h[0].0 == k then Some(h[0].1)
      else
        var r := Lookup(h[1..], k);
        assert r.Some? ==> h[1..] != [] && exists i :: 0 <= i < |h[1..]| && h[1..][i] == (k, r.value);
        r
  }

  /** The hash left after `h.delete(k)`: every entry for `k` removed, the
      others in their order. */
  function Without<K(==, !new), V>(h: seq<(K, V)>, k: K): (r: seq<(K, V)>)
    ensures !HasKey(r, k)
    ensures forall j :: j != k ==> Lookup(r, j) == Lookup(h, j)
    ensures |r| <= |h|
  {
    if h == [] then []
    else if h[0].0 == k then Without(h[1..], k)
    else
      var t := Without(h[1..], k);
      KeysCons([h[0]] + t, k);
      assert ([h[0]] + t)[1..] == t;
      [h[0]] + t
  }

  /** The hash after `h[k] = v`. */
  function Store<K(==, !new), V>(h: seq<(K, V)>, k: K, v: V): (r: seq<(K, V)>)
    ensures Lookup(r, k) == Some(v)
    ensures forall j :: j != k ==> Lookup(r, j) == Lookup(h, j)
    ensures !HasKey(h, k) ==> r == h + [(k, v)]
  {
    if h == [] then [(k, v)]
    else if h[0].0 == k then
      KeysCons(h, k);
      assert ([(k, v)] + h[1..])[1..] == h[1..];
      [(k, v)] + h[1..]
    else
      var t := Store(h[1..], k, v);
      KeysCons(h, k);
      assert ([h[0]] + t)[1..] == t;
      assert !HasKey(h, k) ==> [h[0]] + t == h + [(k, v)] by {
        if !HasKey(h, k) {
          assert t == h[1..] + [(k, v)];
          assert h == [h[0]] + h[1..];
        }
      }
      [h[0]] + t
  }

  /** Ruby's `Hash#==`: the same keys with the same values, whatever the
      insertion order. */
  ghost predicate SameHash<K(!new), V>(a: seq<(K, V)>, b: seq<(K, V)>) {
    UniqueKeys(a) && UniqueKeys(b) && forall k :: Lookup(a, k) == Lookup(b, k)
  }

  lemma KeysCons<K(!new), V>(h: seq<(K, V)>, j: K)
    requires h != []
    ensures HasKey(h, j) <==> j == h[0].0 || HasKey(h[1..], j)
  {
    assert Keys(h) == [h[0].0] + Keys(h[1..]);
  }

  /** In a hash without repeated keys, the first key is not repeated in
      the rest. */
  lemma HeadNotInTail<K(!new), V>(h: seq<(K, V)>)
    requires UniqueKeys(h) && h != []
    ensures UniqueKeys(h[1..]) && !HasKey(h[1..], h[0].0)
  {
    forall j | 0 <= j < |h| - 1 ensures Keys(h[1..])[j] != h[0].0 {
      assert h[1..][j] == h[j + 1];
    }
  }

  lemma UniqueCons<K(!new), V>(e: (K, V), t: seq<(K, V)>)
    requires UniqueKeys(t) && !HasKey(t, e.0)
    ensures UniqueKeys([e] + t)
  {
    var r := [e] + t;
    forall i, j | 0 <= i < j < |r| ensures r[i].0 != r[j].0 {
      if i == 0 {
        assert Keys(t)[j - 1] == r[j].0;
      } else {
        assert r[i] == t[i - 1] && r[j] == t[j - 1];
      }
    }
  }

  /** In a hash without repeated keys, each entry is what `Lookup` finds
      for its key. */
  lemma {:induction false} LookupAt<K(!new), V>(h: seq<(K, V)>, i: nat)
    requires UniqueKeys(h) && i < |h|
    ensures Lookup(h, h[i].0) == Some(h[i].1)
  {
    if i > 0 {
      HeadNotInTail(h);
      assert h[1..][i - 1] == h[i];
      LookupAt(h[1..], i - 1);
    }
  }

  lemma WithoutAbsent<K(!new), V>(h: seq<(K, V)>, k: K)
    requires !HasKey(h, k)
    ensures Without(h, k) == h
  {
    if h != [] {
      KeysCons(h, k);
      WithoutAbsent(h[1..], k);
    }
  }

  /** Deleting a key leaves the other keys, still without repetition. */
  lemma {:induction false} WithoutKeys<K(!new), V>(h: seq<(K, V)>, k: K)
    ensures forall j :: HasKey(Without(h, k), j) <==> HasKey(h, j) && j != k
    ensures UniqueKeys(h) ==> UniqueKeys(Without(h, k))
  {
    forall j ensures HasKey(Without(h, k), j) <==> HasKey(h, j) && j != k {
      assert Lookup(Without(h, k), j).Some? <==> HasKey(Without(h, k), j);
    }
    if h != [] && UniqueKeys(h) {
      HeadNotInTail(h);
      WithoutKeys(h[1..], k);
      if h[0].0 != k {
        UniqueCons(h[0], Without(h[1..], k));
      }
    }
  }

  /** Storing a key adds it to the keys, still without repetition. */
  lemma {:induction false} StoreKeys<K(!new), V>(h: seq<(K, V)>, k: K, v: V)
    ensures forall j :: HasKey(Store(h, k, v), j) <==> HasKey(h, j) || j == k
    ensures UniqueKeys(h) ==> UniqueKeys(Store(h, k, v))
  {
    forall j ensures HasKey(Store(h, k, v), j) <==> HasKey(h, j) || j == k {
      assert Lookup(Store(h, k, v), j).Some? <==> HasKey(Store(h, k, v), j);
    }
    if h != [] && UniqueKeys(h) {
      HeadNotInTail(h);
      if h[0].0 == k {
        UniqueCons((k, v), h[1..]);
      } else {
        StoreKeys(h[1..], k, v);
        UniqueCons(h[0], Store(h[1..], k, v));
      }
    }
  }

  /** Looking up in a concatenation finds the first part's entry first. */
  lemma {:induction false} LookupAppend<K(!new), V>(a: seq<(K, V)>, b: seq<(K, V)>, k: K)
    ensures Lookup(a + b, k) == if HasKey(a, k) then Lookup(a, k) else Lookup(b, k)
  {
    if a != [] {
      KeysCons(a, k);
      assert (a + b)[1..] == a[1..] + b;
      LookupAppend(a[1..], b, k);
    } else {
      assert a + b == b;
    }
  }

  lemma UniqueSnoc<K(!new), V>(a: seq<(K, V)>, e: (K, V))
    requires UniqueKeys(a) && !HasKey(a, e.0)
    ensures UniqueKeys(a + [e])
  {
    var r := a + [e];
    forall i, j | 0 <= i < j < |r| ensures r[i].0 != r[j].0 {
      if j == |a| {
        assert Keys(a)[i] == r[i].0;
      }
    }
  }

  /** `delete` keeps the order of what it leaves: a last entry under
      another key stays last. */
  lemma {:induction false} WithoutSnoc<K(!new), V>(h: seq<(K, V)>, e: (K, V), k: K)
    requires e.0 != k
    ensures Without(h + [e], k) == Without(h, k) + [e]
  {
    if h != [] {
      assert (h + [e])[1..] == h[1..] + [e];
      WithoutSnoc(h[1..], e, k);
    }
  }

  /** `[]=` on the last key replaces its value where it stands. */
  lemma {:induction false} StoreLast<K(!new), V>(h: seq<(K, V)>, k: K, old_v: V, v: V)
    requires !HasKey(h, k)
    ensures Store(h + [(k, old_v)], k, v) == h + [(k, v)]
  {
    if h != [] {
      KeysCons(h, k);
      assert (h + [(k, old_v)])[1..] == h[1..] + [(k, old_v)];
      StoreLast(h[1..], k, old_v, v);
    }
  }

  /** A caller-owned Ruby Hash object: methods that receive a hash and
      change it in place (`delete`, `[]=`) need it as an object, and `dup`
      makes an independent copy. */
  class Table<K(==, !new), V> {
    var entries: seq<(K, V)>

    constructor (entries: seq<(K, V)>)
      ensures this.entries == entries
    {
      this.entries := entries;
    }

    /** `h.delete(k)`: removes `k` and returns its value, `None` for nil. */
    method Delete(k: K) returns (v: Option<V>)
      modifies this
      ensures v == Lookup(old(entries), k)
      ensures entries == Without(old(entries), k)
    {
      v := Lookup(entries, k);
      entries := Without(entries, k);
    }

    /** `h[k] = v`. */
    method Put(k: K, v: V)
      modifies this
      ensures entries == Store(old(entries), k, v)
    {
      entries := Store(entries, k, v);
    }

    /** `h.dup`: a fresh hash with the same entries. */
    method Dup() returns (t: Table<K, V>)
      ensures fresh(t) && t.entries == entries
    {
      t := new Table(entries);
    }
  }
}
