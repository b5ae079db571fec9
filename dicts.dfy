/**
 * Insertion-ordered dictionaries: a JavaScript plain object with string keys
 * (`Object.entries` order) or a JavaScript `Map`.  Assigning to a key that is
 * present keeps its position; assigning to a new key appends it; deleting a key
 * removes its entry.  A plain object's integer-like keys, which JavaScript
 * lists first in ascending order, are ordered like any other key here.
 */
module Dicts {
  import opened Wrappers

  type Dict<K(==,!new), V> = seq<(K, V)>

  function Keys<K(==,!new), V>(d: Dict<K, V>): seq<K> {
    seq(|d|, i requires 0 <= i < |d| => d[i].0)
  }

  /** No key occurs twice (a JS object or Map never holds a key twice). */
  ghost predicate DistinctKeys<K(!new), V>(d: Dict<K, V>) {
    forall i, j :: 0 <= i < j < |d| ==> d[i].0 != d[j].0
  }

  /** Position of key `k`, or -1 when it is absent. */
  function IndexOf<K(==,!new), V>(d: Dict<K, V>, k: K): (r: int)
    ensures -1 <= r < |d|
    ensures r >= 0 ==> d[r].0 == k && forall j :: 0 <= j < r ==> d[j].0 != k
    ensures r == -1 ==> forall j :: 0 <= j < |d| ==> d[j].0 != k
  {
    if |d| == 0 then -1
    else if d[0].0 == k then 0
    else
      var r := IndexOf(d[1..], k);
      if r < 0 then -1 else r + 1
  }

  predicate HasKey<K(==,!new), V>(d: Dict<K, V>, k: K) {
    IndexOf(d, k) >= 0
  }

  /** `d.get(k)` / `obj[k]` as an option. */
  function Get<K(==,!new), V>(d: Dict<K, V>, k: K): Option<V> {
    var i := IndexOf(d, k);
    if i < 0 then None else Some(d[i].1)
  }

  function GetOr<K(==,!new), V>(d: Dict<K, V>, k: K, default: V): V {
    Get(d, k).GetOr(default)
  }

  lemma GetCons<K(!new), V>(d: Dict<K, V>, k: K)
    requires |d| > 0
    ensures Get(d, k) == if d[0].0 == k then Some(d[0].1) else Get(d[1..], k)
  {
  }

  /** With distinct keys, the entry at position `j` is the one `Get` finds for its key. */
  lemma GetAt<K(!new), V>(d: Dict<K, V>, j: nat)
    requires DistinctKeys(d) && j < |d|
    ensures IndexOf(d, d[j].0) == j
    ensures Get(d, d[j].0) == Some(d[j].1)
  {
  }

  /** Two dictionaries with the same key sequence find every key at the same place. */
  lemma {:induction false} IndexOfSameKeys<K(!new), V, W>(d: Dict<K, V>, e: Dict<K, W>, k: K)
    requires |d| == |e|
    requires forall j :: 0 <= j < |d| ==> d[j].0 == e[j].0
    ensures IndexOf(d, k) == IndexOf(e, k)
  {
    if |d| > 0 && d[0].0 != k {
      IndexOfSameKeys(d[1..], e[1..], k);
    }
  }

  lemma {:induction false} IndexOfAppend<K(!new), V>(d: Dict<K, V>, k: K, v: V, k': K)
    requires IndexOf(d, k) < 0
    ensures IndexOf(d + [(k, v)], k') == if IndexOf(d, k') >= 0 then IndexOf(d, k') else if k' == k then |d| else -1
  {
    if |d| > 0 {
      assert (d + [(k, v)])[1..] == d[1..] + [(k, v)];
      if d[0].0 != k' {
        IndexOfAppend(d[1..], k, v, k');
      }
    }
  }

  /** `obj[k] = v` / `map.set(k, v)`. */
  function Put<K(==,!new), V>(d: Dict<K, V>, k: K, v: V): (r: Dict<K, V>)
    ensures Get(r, k) == Some(v)
    ensures forall k' :: k' != k ==> Get(r, k') == Get(d, k')
    ensures Keys(r) == if HasKey(d, k) then Keys(d) else Keys(d) + [k]
    ensures DistinctKeys(d) ==> DistinctKeys(r)
  {
    var i := IndexOf(d, k);
    if i < 0 then
      var r := d + [(k, v)];
      forall k' ensures IndexOf(r, k') == if IndexOf(d, k') >= 0 then IndexOf(d, k') else if k' == k then |d| else -1 {
        IndexOfAppend(d, k, v, k');
      }
      r
    else
      var r := d[i := (k, v)];
      forall k' ensures IndexOf(r, k') == IndexOf(d, k') {
        IndexOfSameKeys(r, d, k');
      }
      r
  }

  /** `map.delete(k)` / `delete obj[k]`: every entry with key `k` goes, the rest keep their order. */
  function Remove<K(==,!new), V>(d: Dict<K, V>, k: K): (r: Dict<K, V>)
    ensures Get(r, k) == None
    ensures forall k' :: k' != k ==> Get(r, k') == Get(d, k')
    ensures DistinctKeys(d) ==> DistinctKeys(r)
    ensures forall p :: p in r ==> p in d
  {
    if |d| == 0 then []
    else
      var rest := Remove(d[1..], k);
      if d[0].0 == k then rest
      else
        var r := [d[0]] + rest;
        assert r[1..] == rest;
        assert forall k' :: Get(r, k') == if d[0].0 == k' then Some(d[0].1) else Get(rest, k') by {
          forall k' ensures Get(r, k') == if d[0].0 == k' then Some(d[0].1) else Get(rest, k') {
            GetCons(r, k');
          }
        }
        assert forall k' :: Get(d, k') == if d[0].0 == k' then Some(d[0].1) else Get(d[1..], k') by {
          forall k' ensures Get(d, k') == if d[0].0 == k' then Some(d[0].1) else Get(d[1..], k') {
            GetCons(d, k');
          }
        }
        assert DistinctKeys(d) ==> DistinctKeys(r) by {
          if DistinctKeys(d) {
            forall j | 0 < j < |r| ensures r[0].0 != r[j].0 {
              assert r[j] in d[1..];
            }
          }
        }
        r
  }

  /** Appending an entry leaves earlier keys as they were and adds the new key if it was absent. */
  lemma GetSnoc<K(!new), V>(d: Dict<K, V>, k: K, v: V, k': K)
    ensures Get(d + [(k, v)], k') == if HasKey(d, k') then Get(d, k') else if k' == k then Some(v) else None
  {
    var e := d + [(k, v)];
    if HasKey(d, k') {
      IndexOfSameKeys(d, e[..|d|], k');
      IndexOfPrefix(e, |d|, k');
    } else {
      assert e[..|d|] == d;
      IndexOfPrefix(e, |d|, k');
      if k' == k {
        assert e[|d|].0 == k';
      }
    }
  }

  /** A key found in a prefix is found at the same place in the whole dictionary. */
  lemma {:induction false} IndexOfPrefix<K(!new), V>(d: Dict<K, V>, n: nat, k: K)
    requires n <= |d|
    ensures IndexOf(d[..n], k) >= 0 ==> IndexOf(d, k) == IndexOf(d[..n], k)
    ensures IndexOf(d[..n], k) < 0 ==> IndexOf(d, k) < 0 || IndexOf(d, k) >= n
  {
    if n > 0 && d[0].0 != k {
      IndexOfPrefix(d[1..], n - 1, k);
      assert d[1..][..n - 1] == d[..n][1..];
    }
  }

  /** A second assignment to the same key overwrites the first in place. */
  lemma PutPut<K(!new), V>(d: Dict<K, V>, k: K, v: V, w: V)
    ensures Put(Put(d, k, v), k, w) == Put(d, k, w)
  {
    var i := IndexOf(d, k);
    if i < 0 {
      IndexOfAppend(d, k, v, k);
      assert (d + [(k, v)])[|d| := (k, w)] == d + [(k, w)];
    } else {
      IndexOfSameKeys(d[i := (k, v)], d, k);
      assert d[i := (k, v)][i := (k, w)] == d[i := (k, w)];
    }
  }

  /** A non-empty dictionary (or key list) is its entries before the last one plus the last one. */
  lemma SplitLast<T>(d: seq<T>)
    requires |d| > 0
    ensures d == d[..|d| - 1] + [d[|d| - 1]]
  {
  }

  lemma KeysSnoc<K(!new), V>(d: Dict<K, V>, k: K, v: V)
    ensures Keys(d + [(k, v)]) == Keys(d) + [k]
  {
  }
}
