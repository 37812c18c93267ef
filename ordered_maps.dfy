/** Optional values and results, standing for JavaScript's `undefined`/`null` and thrown errors. */
module Wrappers {

  datatype Option<+T> = None | Some(value: T)

  datatype Result<+T, +E> = Ok(value: T) | Err(error: E)
}

/**
 * JavaScript's `Map`: its entries stay in the order their keys were first set.
 * `set` on a present key replaces the value where it stands, `set` on a new key
 * appends an entry, `delete` removes the entry, and iteration (`forEach`,
 * `keys()`, `values()`) follows the entry order.
 */
module OrderedMaps {
  import opened Wrappers

  type OrderedMap<K, V> = seq<(K, V)>

  /** The keys in entry order, as `Array.from(m.keys())`. */
  function KeySeq<K, V>(m: OrderedMap<K, V>): seq<K>
  {
    seq(|m|, i requires 0 <= i < |m| => m[i].0)
  }

  /** The values in entry order, as `Array.from(m.values())`. */
  function Values<K, V>(m: OrderedMap<K, V>): seq<V>
  {
    seq(|m|, i requires 0 <= i < |m| => m[i].1)
  }

  /** The keys and values of a map with a last entry: those of the rest, then the last one's. */
  lemma Snoc<K, V>(m: OrderedMap<K, V>)
    requires m != []
    ensures KeySeq(m) == KeySeq(m[..|m| - 1]) + [m[|m| - 1].0]
    ensures Values(m) == Values(m[..|m| - 1]) + [m[|m| - 1].1]
  {
  }

  /** The keys and values of two maps laid end to end. */
  lemma Append<K, V>(a: OrderedMap<K, V>, b: OrderedMap<K, V>)
    ensures KeySeq(a + b) == KeySeq(a) + KeySeq(b)
    ensures Values(a + b) == Values(a) + Values(b)
  {
  }

  function Keys<K(==), V>(m: OrderedMap<K, V>): set<K>
  {
    set k | k in KeySeq(m)
  }

  /** A JavaScript `Map` never holds two entries with the same key. */
  predicate DistinctKeys<K(==), V>(m: OrderedMap<K, V>)
  {
    forall i, j :: 0 <= i < j < |m| ==> m[i].0 != m[j].0
  }

  /** `Array.prototype.indexOf`: the first position of `x` in `s`, or -1. */
  function IndexOf<T(==)>(s: seq<T>, x: T): (r: int)
    ensures -1 <= r < |s|
    ensures r < 0 <==> x !in s
    ensures 0 <= r ==> s[r] == x && x !in s[..r]
  {
    if |s| == 0 then -1
    else if s[0] == x then 0
    else
      var j := IndexOf(s[1..], x);
      if j < 0 then -1
      else
        assert s[..j + 1] == [s[0]] + s[1..][..j];
        j + 1
  }

  /** `m.get(k)`. */
  function Get<K(==), V>(m: OrderedMap<K, V>, k: K): (r: Option<V>)
    ensures r.Some? <==> k in Keys(m)
    ensures r.Some? ==> (k, r.value) in m
  {
    var i := IndexOf(KeySeq(m), k);
    assert forall j :: 0 <= j < |m| ==> KeySeq(m)[j] == m[j].0;
    if i < 0 then None else Some(m[i].1)
  }

  /** `m.set(k, v)`: replaces the value of a present key in place, appends a new key. */
  function Set<K(==), V>(m: OrderedMap<K, V>, k: K, v: V): OrderedMap<K, V>
  {
    var i := IndexOf(KeySeq(m), k);
    if i < 0 then m + [(k, v)] else m[i := (k, v)]
  }

  /** `set` adds its key to the key set, and grows the map by one entry exactly when the key is new. */
  lemma SetKeys<K, V>(m: OrderedMap<K, V>, k: K, v: V)
    ensures Keys(Set(m, k, v)) == Keys(m) + {k}
    ensures |Set(m, k, v)| == if k in Keys(m) then |m| else |m| + 1
  {
    var i := IndexOf(KeySeq(m), k);
    if i < 0 {
      assert KeySeq(m + [(k, v)]) == KeySeq(m) + [k];
    } else {
      assert KeySeq(m[i := (k, v)]) == KeySeq(m);
    }
  }

  /** `set` on a new key appends its entry. */
  lemma SetAbsent<K, V>(m: OrderedMap<K, V>, k: K, v: V)
    requires k !in Keys(m)
    ensures Set(m, k, v) == m + [(k, v)]
  {
  }

  /** `set` on a present key keeps the key order and stores the value in that key's entry. */
  lemma SetPresent<K, V>(m: OrderedMap<K, V>, k: K, v: V)
    requires k in Keys(m)
    ensures |Set(m, k, v)| == |m| && KeySeq(Set(m, k, v)) == KeySeq(m) && (k, v) in Set(m, k, v)
  {
    var i := IndexOf(KeySeq(m), k);
    assert KeySeq(m)[i] == m[i].0;
    assert KeySeq(m[i := (k, v)]) == KeySeq(m);
  }

  /** In a map with distinct keys, `set` on the key of the `i`-th entry rewrites that entry. */
  lemma SetAt<K, V>(m: OrderedMap<K, V>, i: int, v: V)
    requires DistinctKeys(m) && 0 <= i < |m|
    ensures Set(m, m[i].0, v) == m[i := (m[i].0, v)]
  {
    IndexOfFirst(KeySeq(m), m[i].0, i);
  }

  /** `set` never creates a second entry for a key. */
  lemma SetDistinct<K, V>(m: OrderedMap<K, V>, k: K, v: V)
    requires DistinctKeys(m)
    ensures DistinctKeys(Set(m, k, v))
  {
    var i := IndexOf(KeySeq(m), k);
    assert forall j :: 0 <= j < |m| ==> KeySeq(m)[j] == m[j].0;
    if i >= 0 {
      assert KeySeq(m[i := (k, v)]) == KeySeq(m);
    } else {
      assert KeySeq(m + [(k, v)]) == KeySeq(m) + [k];
    }
  }

  /** `m.delete(k)`: removes the entry of `k`, if any, keeping the order of the others. */
  function Delete<K(==), V>(m: OrderedMap<K, V>, k: K): (r: OrderedMap<K, V>)
    ensures k !in Keys(m) ==> r == m
    ensures k in Keys(m) ==> |r| == |m| - 1
    ensures DistinctKeys(m) ==> DistinctKeys(r) && Keys(r) == Keys(m) - {k}
  {
    var i := IndexOf(KeySeq(m), k);
    if i < 0 then m
    else
      var r := m[..i] + m[i + 1..];
      assert forall j :: 0 <= j < |r| ==> r[j] == if j < i then m[j] else m[j + 1];
      assert KeySeq(r) == KeySeq(m)[..i] + KeySeq(m)[i + 1..];
      r
  }

  /** The first occurrence of `x` is where `indexOf` finds it. */
  lemma IndexOfFirst<T>(s: seq<T>, x: T, i: int)
    requires 0 <= i < |s| && s[i] == x && x !in s[..i]
    ensures IndexOf(s, x) == i
  {
  }

  /** In a map with distinct keys, the entry of a key is where `get` reads it. */
  lemma GetAt<K, V>(m: OrderedMap<K, V>, i: int)
    requires DistinctKeys(m) && 0 <= i < |m|
    ensures Get(m, m[i].0) == Some(m[i].1)
  {
    IndexOfFirst(KeySeq(m), m[i].0, i);
  }

  /** The map law of `set`: the key set reads back its value, every other key reads as before. */
  lemma GetSet<K, V>(m: OrderedMap<K, V>, k: K, v: V, k': K)
    ensures Get(Set(m, k, v), k') == if k' == k then Some(v) else Get(m, k')
    ensures Keys(Set(m, k, v)) == Keys(m) + {k}
  {
    var s := KeySeq(m);
    var r := Set(m, k, v);
    if k !in Keys(m) {
      SetAbsent(m, k, v);
      assert KeySeq(r) == s + [k];
      if k' == k {
        assert KeySeq(r)[..|m|] == s;
        IndexOfFirst(KeySeq(r), k, |m|);
      } else if k' in s {
        var i := IndexOf(s, k');
        assert KeySeq(r)[..i] == s[..i];
        IndexOfFirst(KeySeq(r), k', i);
      }
    } else {
      SetPresent(m, k, v);
      var i := IndexOf(s, k);
      assert r == m[i := (k, v)];
      if k' in s {
        var j := IndexOf(s, k');
        assert KeySeq(r) == s;
        assert k' == k ==> i == j;
      }
    }
  }

  /** The map law of `delete`, for a map with distinct keys. */
  lemma GetDelete<K, V>(m: OrderedMap<K, V>, k: K, k': K)
    requires DistinctKeys(m)
    ensures Get(Delete(m, k), k') == if k' == k then None else Get(m, k')
  {
    var r := Delete(m, k);
    if k' != k && k' in Keys(m) {
      var j :| 0 <= j < |m| && KeySeq(m)[j] == k';
      GetAt(m, j);
      var i := IndexOf(KeySeq(m), k);
      var jr := if i < 0 || j < i then j else j - 1;
      assert r[jr] == m[j];
      GetAt(r, jr);
    }
  }

  /** A map with distinct keys has as many keys as entries: `m.size`. */
  lemma {:induction false} KeyCount<K, V>(m: OrderedMap<K, V>)
    requires DistinctKeys(m)
    ensures |Keys(m)| == |m|
  {
    if m != [] {
      var init := m[..|m| - 1];
      KeyCount(init);
      assert KeySeq(m) == KeySeq(init) + [m[|m| - 1].0];
      assert Keys(m) == Keys(init) + {m[|m| - 1].0};
      assert m[|m| - 1].0 !in Keys(init);
    }
  }
}
