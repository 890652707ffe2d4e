/**
 * A JavaScript `Map`: key/value entries kept in insertion order, each key at
 * most once. `set` on a key already present replaces the value where it
 * stands; `set` on a new key appends; `delete` removes the entry; iteration
 * (`entries`, `keys`, `forEach`) follows the stored order.
 */
module OrderedMaps {
  import opened Optional

  function Keys<K, V>(m: seq<(K, V)>): seq<K> {
    seq(|m|, i requires 0 <= i < |m| => m[i].0)
  }

  /** `Map.prototype.has`. */
  predicate Has<K(==), V>(m: seq<(K, V)>, k: K) {
    exists i :: 0 <= i < |m| && m[i].0 == k
  }

  /** No key occurs twice. */
  predicate DistinctKeys<K(==), V>(m: seq<(K, V)>) {
    forall i, j :: 0 <= i < j < |m| ==> m[i].0 != m[j].0
  }

  /** `Map.prototype.get`. */
  function Get<K(==), V>(m: seq<(K, V)>, k: K): (r: Option<V>)
    ensures r.None? <==> !Has(m, k)
    ensures r.Some? ==> (k, r.value) in m
  {
    if m == [] then None
    else if m[0].0 == k then Some(m[0].1)
    else assert forall i :: 1 <= i < |m| ==> m[i] == m[1..][i - 1]; Get(m[1..], k)
  }

  /** `Map.prototype.set`. */
  function Set<K(==), V>(m: seq<(K, V)>, k: K, v: V): (r: seq<(K, V)>)
    ensures Has(m, k) ==> |r| == |m| && forall i :: 0 <= i < |m| ==> r[i].0 == m[i].0
    ensures !Has(m, k) ==> r == m + [(k, v)]
  {
    if m == [] then [(k, v)]
    else if m[0].0 == k then [(k, v)] + m[1..]
    else
      assert Has(m, k) <==> Has(m[1..], k) by {
        assert forall i :: 1 <= i < |m| ==> m[i] == m[1..][i - 1];
      }
      [m[0]] + Set(m[1..], k, v)
  }

  /** After `set(k, v)`, `get(k)` is `v` and every other key reads as before. */
  lemma {:induction false} SetGet<K, V>(m: seq<(K, V)>, k: K, v: V, k': K)
    ensures Get(Set(m, k, v), k') == if k' == k then Some(v) else Get(m, k')
  {
    if m != [] && m[0].0 != k {
      SetGet(m[1..], k, v, k');
    }
  }

  /** `set` never introduces a duplicate key. */
  lemma SetDistinct<K, V>(m: seq<(K, V)>, k: K, v: V)
    requires DistinctKeys(m)
    ensures DistinctKeys(Set(m, k, v))
  {
    var r := Set(m, k, v);
  }

  /** `Map.prototype.delete`. */
  function Delete<K(==), V>(m: seq<(K, V)>, k: K): seq<(K, V)>
  {
    if m == [] then []
    else if m[0].0 == k then Delete(m[1..], k)
    else [m[0]] + Delete(m[1..], k)
  }

  /** After `delete(k)`, `k` is absent and every other key reads as before. */
  lemma {:induction false} DeleteGet<K, V>(m: seq<(K, V)>, k: K, k': K)
    ensures Get(Delete(m, k), k') == if k' == k then None else Get(m, k')
  {
    if m != [] {
      DeleteGet(m[1..], k, k');
    }
  }

  /** Deleting an absent key changes nothing. */
  lemma {:induction false} DeleteAbsent<K, V>(m: seq<(K, V)>, k: K)
    requires !Has(m, k)
    ensures Delete(m, k) == m
  {
    if m != [] {
      assert !Has(m[1..], k) by {
        assert forall i :: 1 <= i < |m| ==> m[i] == m[1..][i - 1];
      }
      DeleteAbsent(m[1..], k);
      assert m == [m[0]] + m[1..];
    }
  }

  /** Deleting a present key cuts its one entry out and keeps the order of
      the others. */
  lemma {:induction false} DeleteAt<K, V>(m: seq<(K, V)>, k: K, i: int)
    requires DistinctKeys(m) && 0 <= i < |m| && m[i].0 == k
    ensures Delete(m, k) == m[..i] + m[i + 1..]
  {
    var t := m[1..];
    assert DistinctKeys(t) by {
      assert forall j :: 0 <= j < |t| ==> t[j] == m[j + 1];
    }
    if i == 0 {
      assert !Has(t, k) by {
        assert forall j :: 0 <= j < |t| ==> t[j] == m[j + 1];
      }
      DeleteAbsent(t, k);
      assert m[..0] + m[1..] == t;
    } else {
      DeleteAt(t, k, i - 1);
      assert m[..i] == [m[0]] + t[..i - 1];
      assert m[i + 1..] == t[i..];
    }
  }

  /** `delete` keeps the keys distinct and removes one entry exactly when the
      key was present. */
  lemma DeleteShape<K, V>(m: seq<(K, V)>, k: K)
    requires DistinctKeys(m)
    ensures DistinctKeys(Delete(m, k))
    ensures |Delete(m, k)| == if Has(m, k) then |m| - 1 else |m|
  {
    if i :| 0 <= i < |m| && m[i].0 == k {
      DeleteAt(m, k, i);
      var r := m[..i] + m[i + 1..];
      assert forall j :: 0 <= j < |r| ==> r[j] == if j < i then m[j] else m[j + 1];
    } else {
      DeleteAbsent(m, k);
    }
  }

  /** `new Map(entries)`: the entries are `set` one after the other. */
  function FromEntries<K(==), V>(entries: seq<(K, V)>): seq<(K, V)> {
    SetAll([], entries)
  }

  function SetAll<K(==), V>(acc: seq<(K, V)>, entries: seq<(K, V)>): seq<(K, V)>
    decreases |entries|
  {
    if entries == [] then acc else SetAll(Set(acc, entries[0].0, entries[0].1), entries[1..])
  }

  /** Rebuilding a map from its own entries (`new Map(Array.from(m))`, the
      shape of a save-to-storage and load round trip) gives back the same
      map, order included. */
  lemma FromEntriesOfEntries<K, V>(m: seq<(K, V)>)
    requires DistinctKeys(m)
    ensures FromEntries(m) == m
  {
    SetAllAppends([], m);
  }

  /** `new Map(entries)` has distinct keys whatever the entries are. */
  lemma FromEntriesDistinct<K, V>(entries: seq<(K, V)>)
    ensures DistinctKeys(FromEntries(entries))
  {
    SetAllDistinct([], entries);
  }

  lemma {:induction false} SetAllDistinct<K, V>(acc: seq<(K, V)>, entries: seq<(K, V)>)
    requires DistinctKeys(acc)
    ensures DistinctKeys(SetAll(acc, entries))
    decreases |entries|
  {
    if entries != [] {
      SetDistinct(acc, entries[0].0, entries[0].1);
      SetAllDistinct(Set(acc, entries[0].0, entries[0].1), entries[1..]);
    }
  }

  lemma {:induction false} SetAllAppends<K, V>(acc: seq<(K, V)>, entries: seq<(K, V)>)
    requires DistinctKeys(acc + entries)
    ensures SetAll(acc, entries) == acc + entries
    decreases |entries|
  {
    if entries != [] {
      var e := entries[0];
      var both := acc + entries;
      assert both[|acc|] == e;
      assert forall i :: 0 <= i < |acc| ==> both[i] == acc[i];
      assert acc + entries == (acc + [e]) + entries[1..];
      SetAllAppends(acc + [e], entries[1..]);
    }
  }
}
