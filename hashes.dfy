/**
 * Ruby's Hash as the traversal uses it: an insertion-ordered association
 * list in which assigning to a present key keeps that key's position and
 * assigning to a new key appends it.
 */
module Hashes {
  import opened Wrappers

  type Hash<K, V> = seq<(K, V)>

  function Keys<K(==), V>(h: Hash<K, V>): (r: seq<K>)
    ensures |r| == |h|
    ensures forall i :: 0 <= i < |h| ==> r[i] == h[i].0
  {
    if h == [] then [] else [h[0].0] + Keys(h[1..])
  }

  /** No key occurs twice. */
  predicate DistinctKeys<K(==), V>(h: Hash<K, V>)
  {
    forall i, j :: 0 <= i < j < |h| ==> h[i].0 != h[j].0
  }

  /** `h[k]`: the value of the first pair with key `k`, or nil. */
  function Lookup<K(==), V>(h: Hash<K, V>, k: K): (r: Option<V>)
    ensures r.None? <==> k !in Keys(h)
    ensures r.Some? ==> exists i :: 0 <= i < |h| && h[i] == (k, r.value)
  {
    if h == [] then None
    else if h[0].0 == k then Some(h[0].1)
    else
      var r := Lookup(h[1..], k);
      assert r.Some? ==> exists i :: 0 <= i < |h[1..]| && h[1..][i] == (k, r.value);
      assert r.Some? ==> exists i :: 0 <= i < |h| && h[i] == (k, r.value) by {
        if r.Some? {
          var i :| 0 <= i < |h[1..]| && h[1..][i] == (k, r.value);
          assert h[i + 1] == (k, r.value);
        }
      }
      r
  }

  /** `h[k] = v`: replaces the value in place when `k` is present, otherwise appends the pair. */
  function Put<K(==), V>(h: Hash<K, V>, k: K, v: V): Hash<K, V>
  {
    if h == [] then [(k, v)]
    else if h[0].0 == k then [(k, v)] + h[1..]
    else [h[0]] + Put(h[1..], k, v)
  }

  /** After `h[k] = v`, `k` maps to `v` and every other key is as before. */
  lemma {:induction false} PutLookup<K, V>(h: Hash<K, V>, k: K, v: V, j: K)
    ensures Lookup(Put(h, k, v), j) == if j == k then Some(v) else Lookup(h, j)
  {
    if h != [] && h[0].0 != k {
      PutLookup(h[1..], k, v, j);
      assert Put(h, k, v)[1..] == Put(h[1..], k, v);
    }
  }

  /** The key order: a present key keeps its place, a new key goes last. */
  lemma {:induction false} PutKeys<K, V>(h: Hash<K, V>, k: K, v: V)
    ensures Keys(Put(h, k, v)) == if k in Keys(h) then Keys(h) else Keys(h) + [k]
  {
    if h != [] {
      if h[0].0 != k {
        PutKeys(h[1..], k, v);
        assert Keys(h) == [h[0].0] + Keys(h[1..]);
        assert Put(h, k, v)[1..] == Put(h[1..], k, v);
        assert Keys(Put(h, k, v)) == [h[0].0] + Keys(Put(h[1..], k, v));
      } else {
        assert Keys(Put(h, k, v)) == [k] + Keys(h[1..]);
      }
    }
  }

  /** Assignment never makes a key occur twice. */
  lemma PutDistinct<K, V>(h: Hash<K, V>, k: K, v: V)
    requires DistinctKeys(h)
    ensures DistinctKeys(Put(h, k, v))
  {
    PutKeys(h, k, v);
    var p := Put(h, k, v);
    forall i, j | 0 <= i < j < |p| ensures p[i].0 != p[j].0 {
      assert Keys(p)[i] == p[i].0 && Keys(p)[j] == p[j].0;
      if k !in Keys(h) {
        assert Keys(p) == Keys(h) + [k];
        if j < |h| {
          assert Keys(h)[i] == h[i].0 && Keys(h)[j] == h[j].0;
        }
      } else {
        assert Keys(h)[i] == h[i].0 && Keys(h)[j] == h[j].0;
      }
    }
  }

  /** Assignment stores the new pair and keeps only pairs that were there. */
  lemma {:induction false} PutEntries<K, V>(h: Hash<K, V>, k: K, v: V)
    ensures (k, v) in Put(h, k, v)
    ensures forall e :: e in Put(h, k, v) ==> e == (k, v) || e in h
  {
    if h != [] && h[0].0 != k {
      PutEntries(h[1..], k, v);
      assert Put(h, k, v) == [h[0]] + Put(h[1..], k, v);
      forall e | e in Put(h, k, v) ensures e == (k, v) || e in h {
        if e != h[0] {
          assert e in Put(h[1..], k, v);
        }
      }
    } else if h != [] {
      assert Put(h, k, v) == [(k, v)] + h[1..];
      forall e | e in Put(h, k, v) ensures e == (k, v) || e in h {
        if e != (k, v) {
          assert e in h[1..];
        }
      }
    }
  }

  /** The keys of a hash are those of all but its last pair, then the last key. */
  lemma KeysOfLast<K, V>(h: Hash<K, V>)
    requires h != []
    ensures Keys(h) == Keys(h[..|h| - 1]) + [h[|h| - 1].0]
  {
    var init := h[..|h| - 1];
    forall i | 0 <= i < |h| ensures Keys(h)[i] == (Keys(init) + [h[|h| - 1].0])[i] {
      if i < |init| {
        assert Keys(init)[i] == init[i].0 == h[i].0;
      }
    }
  }

  /** Dropping the last pair keeps the keys distinct. */
  lemma InitDistinct<K, V>(h: Hash<K, V>)
    requires DistinctKeys(h) && h != []
    ensures DistinctKeys(h[..|h| - 1])
  {
    var init := h[..|h| - 1];
    forall i, j | 0 <= i < j < |init| ensures init[i].0 != init[j].0 {
      assert init[i] == h[i] && init[j] == h[j];
    }
  }

  /** With distinct keys, the last key does not occur before it. */
  lemma LastKeyFresh<K, V>(h: Hash<K, V>)
    requires DistinctKeys(h) && h != []
    ensures h[|h| - 1].0 !in Keys(h[..|h| - 1])
  {
    var init := h[..|h| - 1];
    forall i | 0 <= i < |init| ensures Keys(init)[i] != h[|h| - 1].0 {
      assert Keys(init)[i] == h[i].0;
    }
  }
}
