/**
  An insertion-ordered map from strings, as the configuration holds its
  tables: a sequence of (key, value) pairs in insertion order. Only the
  lookup the driver performs is modelled.
 */
module IndexMaps {
  import opened Wrappers

  type Entries<V> = seq<(string, V)>

  /** No key occurs twice, as in a map built by inserting each key once. */
  predicate DistinctKeys<V>(m: Entries<V>)
  {
    forall i, j :: 0 <= i < j < |m| ==> m[i].0 != m[j].0
  }

  predicate HasKey<V>(m: Entries<V>, k: string)
  {
    exists i :: 0 <= i < |m| && m[i].0 == k
  }

  /** `map.get(k)`: the value stored under `k`, the earliest one if the key were repeated. */
  function Get<V>(m: Entries<V>, k: string): (r: Option<V>)
    ensures r.None? <==> !HasKey(m, k)
    ensures r.Some? ==> (k, r.value) in m
  {
    if |m| == 0 then None
    else if m[0].0 == k then Some(m[0].1)
    else
      var r := Get(m[1..], k);
      assert HasKey(m[1..], k) ==> HasKey(m, k) by {
        if HasKey(m[1..], k) {
          var i :| 0 <= i < |m[1..]| && m[1..][i].0 == k;
          assert m[i + 1].0 == k;
        }
      }
      assert r.Some? ==> (k, r.value) in m by {
        if r.Some? {
          assert (k, r.value) in m[1..];
        }
      }
      r
  }

  /** Lookup finds the first entry whose key matches. */
  lemma {:induction false} GetFirst<V>(m: Entries<V>, i: nat)
    requires i < |m|
    requires forall j :: 0 <= j < i ==> m[j].0 != m[i].0
    ensures Get(m, m[i].0) == Some(m[i].1)
  {
    if i > 0 {
      assert m[0].0 != m[i].0;
      assert m[1..][i - 1] == m[i];
      GetFirst(m[1..], i - 1);
    }
  }

  /** With distinct keys, the entry stored under a key is the one lookup returns. */
  lemma GetEntry<V>(m: Entries<V>, i: nat)
    requires DistinctKeys(m) && i < |m|
    ensures Get(m, m[i].0) == Some(m[i].1)
  {
    GetFirst(m, i);
  }
}
