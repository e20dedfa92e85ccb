/**
 * A JavaScript `Map`: entries kept in insertion order, `set` on a present key replaces
 * the value in place (the key keeps its position), `delete` removes the entry.
 * Iteration (`for..of`, `values()`, `forEach`) follows the entry order.
 */
module OrderedMap {
  import opened Wrappers

  function Keys<K, V>(m: seq<(K, V)>): (ks: seq<K>)
    ensures |ks| == |m| && forall i :: 0 <= i < |m| ==> ks[i] == m[i].0
  {
    if m == [] then [] else [m[0].0] + Keys(m[1..])
  }

  function Values<K, V>(m: seq<(K, V)>): (vs: seq<V>)
    ensures |vs| == |m| && forall i :: 0 <= i < |m| ==> vs[i] == m[i].1
  {
    if m == [] then [] else [m[0].1] + Values(m[1..])
  }

  /** No key occurs twice: what a `Map` guarantees. */
  predicate UniqueKeys<K(==), V>(m: seq<(K, V)>) {
    forall i, j :: 0 <= i < j < |m| ==> m[i].0 != m[j].0
  }

  predicate HasKey<K(==), V>(m: seq<(K, V)>, k: K) {
    exists i :: 0 <= i < |m| && m[i].0 == k
  }

  /** Whether `k` occurs in a non-empty map, read off its first entry and the rest. */
  lemma HasKeyCons<K, V>(m: seq<(K, V)>, k: K)
    requires m != []
    ensures HasKey(m, k) <==> m[0].0 == k || HasKey(m[1..], k)
  {
    if HasKey(m, k) && m[0].0 != k {
      var i :| 0 <= i < |m| && m[i].0 == k;
      assert m[1..][i - 1].0 == k;
    }
    if HasKey(m[1..], k) {
      var i :| 0 <= i < |m[1..]| && m[1..][i].0 == k;
      assert m[i + 1].0 == k;
    }
  }

  /** `map.get(k)`: the value of the first entry with key `k`. */
  function Get<K(==), V>(m: seq<(K, V)>, k: K): (r: Option<V>)
    ensures r.None? <==> !HasKey(m, k)
    ensures r.Some? ==> (k, r.value) in m
  {
    if m == [] then None
    else if m[0].0 == k then Some(m[0].1)
    else
      HasKeyCons(m, k);
      var r := Get(m[1..], k);
      assert r.Some? ==> (k, r.value) in m[1..];
      r
  }

  /**
   * `map.set(k, v)`: a present key keeps its position and gets the new value; a new key
   * is appended after every existing entry.
   */
  function Set<K(==), V>(m: seq<(K, V)>, k: K, v: V): (r: seq<(K, V)>)
    ensures |r| == |m| || |r| == |m| + 1
  {
    if m == [] then [(k, v)]
    else if m[0].0 == k then [(k, v)] + m[1..]
    else [m[0]] + Set(m[1..], k, v)
  }

  /** After `map.set(k, v)`, `get(k)` yields `v` and every other key reads as before. */
  lemma {:induction false} SetGet<K, V>(m: seq<(K, V)>, k: K, v: V, k': K)
    ensures Get(Set(m, k, v), k) == Some(v)
    ensures k' != k ==> Get(Set(m, k, v), k') == Get(m, k')
  {
    if m != [] && m[0].0 != k {
      SetGet(m[1..], k, v, k');
      var r := Set(m, k, v);
      assert r[1..] == Set(m[1..], k, v);
    }
  }

  /** Every entry after `map.set(k, v)` was there before or is the new one. */
  lemma {:induction false} SetMembers<K, V>(m: seq<(K, V)>, k: K, v: V, e: (K, V))
    requires e in Set(m, k, v)
    ensures e in m || e == (k, v)
  {
    if m != [] && m[0].0 != k && e != m[0] {
      assert e in Set(m[1..], k, v);
      SetMembers(m[1..], k, v, e);
    }
  }

  /**
   * In a map, `set` on a present key replaces that entry's value where it stands and leaves
   * every other entry as it was; a new key is appended after every existing entry.
   */
  lemma {:induction false} SetEntries<K(!new), V>(m: seq<(K, V)>, k: K, v: V)
    requires UniqueKeys(m)
    ensures HasKey(m, k) ==> (|Set(m, k, v)| == |m| &&
      forall i :: 0 <= i < |m| ==> Set(m, k, v)[i] == (if m[i].0 == k then (k, v) else m[i]))
    ensures !HasKey(m, k) ==> Set(m, k, v) == m + [(k, v)]
  {
    if m != [] {
      HasKeyCons(m, k);
      assert UniqueKeys(m[1..]);
      if m[0].0 == k {
        assert forall i :: 1 <= i < |m| ==> m[i].0 != k;
      } else {
        SetEntries(m[1..], k, v);
        assert Set(m, k, v) == [m[0]] + Set(m[1..], k, v);
      }
    }
  }

  /** Setting a key never creates a duplicate and never reorders the keys. */
  lemma SetKeys<K(!new), V>(m: seq<(K, V)>, k: K, v: V)
    requires UniqueKeys(m)
    ensures UniqueKeys(Set(m, k, v))
    ensures HasKey(m, k) ==> Keys(Set(m, k, v)) == Keys(m)
    ensures !HasKey(m, k) ==> Keys(Set(m, k, v)) == Keys(m) + [k]
  {
    SetEntries(m, k, v);
    var r := Set(m, k, v);
    var ks, mks := Keys(r), Keys(m);
    if HasKey(m, k) {
      forall i | 0 <= i < |m| ensures ks[i] == mks[i] && r[i].0 == m[i].0 {
        assert r[i] == (if m[i].0 == k then (k, v) else m[i]);
      }
      assert ks == mks;
    } else {
      assert r == m + [(k, v)];
      forall i, j | 0 <= i < j < |r| ensures r[i].0 != r[j].0 {
        if j == |m| {
          assert r[i] == m[i];
        }
      }
      assert ks == mks + [k];
    }
  }

  /** `map.delete(k)`: every entry with key `k` is dropped; the others keep their order. */
  function Remove<K(==), V>(m: seq<(K, V)>, k: K): (r: seq<(K, V)>)
    ensures |r| <= |m|
  {
    if m == [] then []
    else if m[0].0 == k then Remove(m[1..], k)
    else [m[0]] + Remove(m[1..], k)
  }

  /** After `map.delete(k)`, `get(k)` yields nothing and every other key reads as before. */
  lemma {:induction false} RemoveGet<K, V>(m: seq<(K, V)>, k: K, k': K)
    ensures Get(Remove(m, k), k).None?
    ensures k' != k ==> Get(Remove(m, k), k') == Get(m, k')
  {
    if m != [] {
      RemoveGet(m[1..], k, k');
      if m[0].0 != k {
        assert Remove(m, k)[1..] == Remove(m[1..], k);
      }
    }
  }

  /** The remaining entries are exactly those whose key is not `k`; deleting an absent key changes nothing. */
  lemma {:induction false} RemoveEntries<K, V>(m: seq<(K, V)>, k: K, e: (K, V))
    ensures e in Remove(m, k) <==> e in m && e.0 != k
    ensures !HasKey(m, k) ==> Remove(m, k) == m
  {
    if m != [] {
      RemoveEntries(m[1..], k, e);
      HasKeyCons(m, k);
      assert m == [m[0]] + m[1..];
    }
  }

  /** Deleting keeps the keys unique, and the size drops by one exactly when the key was present. */
  lemma {:induction false} RemoveSize<K, V>(m: seq<(K, V)>, k: K)
    requires UniqueKeys(m)
    ensures UniqueKeys(Remove(m, k))
    ensures HasKey(m, k) ==> |Remove(m, k)| == |m| - 1
    ensures !HasKey(m, k) ==> |Remove(m, k)| == |m|
  {
    if m != [] {
      assert UniqueKeys(m[1..]);
      RemoveSize(m[1..], k);
      HasKeyCons(m, k);
      if m[0].0 == k {
        RemoveEntries(m[1..], k, m[0]);
      } else {
        var rest := Remove(m[1..], k);
        forall i | 0 <= i < |rest| ensures rest[i].0 != m[0].0 {
          var e := rest[i];
          RemoveEntries(m[1..], k, e);
          var j :| 0 <= j < |m[1..]| && m[1..][j] == e;
          assert m[j + 1] == e;
        }
      }
    }
  }
}
