// Definitions and facts that several modules share.
module Basics {
  import opened Wrappers

  function Max(a: int, b: int): int {
    if a >= b then a else b
  }

  predicate NoDup<K(==)>(s: seq<K>) {
    forall i, j :: 0 <= i < j < |s| ==> s[i] != s[j]
  }

  // The value of the first entry with a key.
  function Get<V>(entries: seq<(string, V)>, k: string): Option<V> {
    if entries == [] then None else if entries[0].0 == k then Some(entries[0].1) else Get(entries[1..], k)
  }

  lemma {:induction false} SubsetCount<K>(a: set<K>, b: set<K>)
    requires a <= b
    ensures |a| <= |b|
  {
    assert b == a + (b - a);
  }
}
