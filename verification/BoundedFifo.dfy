/**
  The insertion-ordered bounded dictionary that the summary cache, the approval
  dedupe table and the execution recorder all hand-code: look a key up, and on
  a miss drop the oldest key once the table is full, then insert the new one.

  The main result is that such a table is a window over its own insertion log.
  Bounds, eviction times and "announced once" all follow from it.
 */
module BoundedFifo {
  import opened Basics

  function LastN<K>(n: nat, s: seq<K>): seq<K> {
    if |s| <= n then s else s[|s| - n..]
  }

  // The keys after one lookup-or-insert of `k`, oldest first.
  function Offer<K(==)>(cap: nat, keys: seq<K>, k: K): seq<K> {
    if k in keys then keys
    else (if |keys| >= cap && keys != [] then keys[1..] else keys) + [k]
  }

  // The keys after offering every id of `ids` in turn to an empty table.
  function Table<K(==)>(cap: nat, ids: seq<K>): seq<K> {
    if ids == [] then [] else Offer(cap, Table(cap, ids[..|ids| - 1]), ids[|ids| - 1])
  }

  // The offers of `ids` that missed, in order: these are the ones with an effect.
  function Log<K(==)>(cap: nat, ids: seq<K>): seq<K> {
    if ids == [] then []
    else
      var before := ids[..|ids| - 1];
      var k := ids[|ids| - 1];
      if k in Table(cap, before) then Log(cap, before) else Log(cap, before) + [k]
  }

  lemma {:induction false} TableIsWindow<K>(cap: nat, ids: seq<K>)
    requires cap > 0
    ensures Table(cap, ids) == LastN(cap, Log(cap, ids))
    ensures |Table(cap, ids)| <= cap
    ensures NoDup(Table(cap, ids))
  {
    if ids != [] {
      var before, k := ids[..|ids| - 1], ids[|ids| - 1];
      TableIsWindow(cap, before);
      if k !in Table(cap, before) {
        WindowSlides(cap, Log(cap, before), k);
      }
    }
  }

  lemma WindowSlides<K>(cap: nat, log: seq<K>, k: K)
    requires cap > 0
    ensures (if |LastN(cap, log)| >= cap && LastN(cap, log) != [] then LastN(cap, log)[1..] else LastN(cap, log)) + [k]
         == LastN(cap, log + [k])
  {}

  lemma OfferSlides<K>(cap: nat, keys: seq<K>, k: K)
    requires 0 < cap && |keys| <= cap && k !in keys
    ensures Offer(cap, keys, k) == LastN(cap, keys + [k])
  {}

  ghost predicate FarApart<K>(cap: nat, log: seq<K>) {
    forall i, j :: 0 <= i < j < |log| && j - i <= cap ==> log[i] != log[j]
  }

  lemma StaysFarApart<K>(cap: nat, log: seq<K>, k: K)
    requires FarApart(cap, log) && k !in LastN(cap, log)
    ensures FarApart(cap, log + [k])
  {
    var w := LastN(cap, log);
    forall i | 0 <= i < |log| && |log| - i <= cap
      ensures log[i] != k
    {
      assert log[i] == w[i - (|log| - |w|)];
    }
  }

  // Two insertions of one key are more than `cap` insertions apart.
  lemma {:induction false} InsertionsAreFarApart<K>(cap: nat, ids: seq<K>)
    requires cap > 0
    ensures FarApart(cap, Log(cap, ids))
  {
    if ids != [] {
      var before, k := ids[..|ids| - 1], ids[|ids| - 1];
      InsertionsAreFarApart(cap, before);
      TableIsWindow(cap, before);
      if k !in Table(cap, before) {
        StaysFarApart(cap, Log(cap, before), k);
      }
    }
  }

  // A key inserted as the i-th entry of the log is still in the table exactly
  // while fewer than `cap` insertions followed it: the cap-th one evicts it.
  lemma EvictedAtTheCapthInsertion<K>(cap: nat, ids: seq<K>, i: nat)
    requires cap > 0 && i < |Log(cap, ids)|
    requires forall j :: i < j < |Log(cap, ids)| ==> Log(cap, ids)[j] != Log(cap, ids)[i]
    ensures Log(cap, ids)[i] in Table(cap, ids) <==> |Log(cap, ids)| - 1 - i < cap
  {
    TableIsWindow(cap, ids);
    InWindow(cap, Log(cap, ids), i);
  }

  lemma InWindow<K>(n: nat, s: seq<K>, i: nat)
    requires i < |s| && forall j :: i < j < |s| ==> s[j] != s[i]
    ensures s[i] in LastN(n, s) <==> |s| - i <= n
  {
    var w := LastN(n, s);
    if |s| - i <= n {
      assert w[i - (|s| - |w|)] == s[i];
    } else {
      assert forall p :: 0 <= p < |w| ==> w[p] == s[p + (|s| - |w|)];
    }
  }

  // Every key ever offered has been inserted.
  lemma {:induction false} OfferedIsLogged<K>(cap: nat, ids: seq<K>)
    requires cap > 0
    ensures forall k :: k in ids <==> k in Log(cap, ids)
  {
    if ids != [] {
      var before, k := ids[..|ids| - 1], ids[|ids| - 1];
      OfferedIsLogged(cap, before);
      TableIsWindow(cap, before);
      assert ids == before + [k];
      if k in Table(cap, before) {
        assert k in Log(cap, before);
      }
    }
  }

  // A key misses exactly when it was never inserted, or `cap` insertions followed its last one.
  lemma MissesExactlyWhenEvicted<K>(cap: nat, ids: seq<K>, k: K)
    requires cap > 0
    ensures k !in Table(cap, ids) <==>
      forall i :: 0 <= i < |Log(cap, ids)| && Log(cap, ids)[i] == k ==> |Log(cap, ids)| - 1 - i >= cap
  {
    var log := Log(cap, ids);
    TableIsWindow(cap, ids);
    if k in log {
      var i := LastIndex(log, k);
      EvictedAtTheCapthInsertion(cap, ids, i);
    }
  }

  lemma {:induction false} LastIndex<K>(s: seq<K>, k: K) returns (i: nat)
    requires k in s
    ensures i < |s| && s[i] == k && forall j :: i < j < |s| ==> s[j] != k
  {
    if s[|s| - 1] == k {
      i := |s| - 1;
    } else {
      i := LastIndex(s[..|s| - 1], k);
    }
  }

  lemma {:induction false} DistinctCount<K>(s: seq<K>)
    requires NoDup(s)
    ensures |set k | k in s| == |s|
  {
    if s != [] {
      var front, last := s[..|s| - 1], s[|s| - 1];
      DistinctCount(front);
      assert s == front + [last];
      assert (set k | k in s) == (set k | k in front) + {last};
    }
  }

  // A run that offers at most `cap` different keys inserts each of them exactly once, however often they recur.
  lemma FewKeysInsertOnce<K>(cap: nat, ids: seq<K>)
    requires cap > 0 && |set k | k in ids| <= cap
    ensures NoDup(Log(cap, ids))
    ensures forall k :: k in ids <==> k in Log(cap, ids)
  {
    var log := Log(cap, ids);
    OfferedIsLogged(cap, ids);
    InsertionsAreFarApart(cap, ids);
    if |log| > cap {
      var head := log[..cap + 1];
      assert NoDup(head) by {
        forall i, j | 0 <= i < j < |head|
          ensures head[i] != head[j]
        {
          assert head[i] == log[i] && head[j] == log[j];
        }
      }
      DistinctCount(head);
      forall k | k in head
        ensures k in ids
      {
        assert k in log;
      }
      SubsetCount(set k | k in head, set k | k in ids);
    }
  }

  // With at most `cap` different keys offered, none is ever dropped.
  lemma FewKeysStay<K>(cap: nat, ids: seq<K>, k: K)
    requires cap > 0 && |set x | x in ids| <= cap && k in ids
    ensures k in Table(cap, ids)
  {
    FewKeysInsertOnce(cap, ids);
    assert k in Log(cap, ids);
    var i := LastIndex(Log(cap, ids), k);
    LogIsShort(ids, Log(cap, ids));
    EvictedAtTheCapthInsertion(cap, ids, i);
  }

  lemma LogIsShort<K>(ids: seq<K>, log: seq<K>)
    requires NoDup(log) && forall k :: k in ids <==> k in log
    ensures |log| <= |set x | x in ids|
  {
    DistinctCount(log);
    SubsetCount(set x | x in log, set x | x in ids);
  }

  class FifoMap<K(==), V> {
    const cap: nat
    var keys: seq<K>
    var vals: map<K, V>

    ghost predicate Valid()
      reads this
    {
      && cap > 0
      && |keys| <= cap
      && NoDup(keys)
      && (forall k | k in keys :: k in vals)
      && (forall k | k in vals :: k in keys)
    }

    constructor (cap: nat)
      requires cap > 0
      ensures Valid() && this.cap == cap && keys == [] && vals == map[]
    {
      this.cap := cap;
      keys, vals := [], map[];
    }

    method DropOldest()
      requires Valid() && keys != []
      modifies this
      ensures Valid()
      ensures keys == old(keys)[1..] && vals == old(vals) - {old(keys)[0]}
    {
      var oldest := keys[0];
      assert forall x | x in keys :: x == oldest || x in keys[1..];
      vals := vals - {oldest};
      keys := keys[1..];
    }

    // Stores a key that is not present, dropping the oldest one first if the table is full.
    method Put(k: K, v: V)
      requires Valid() && k !in keys
      modifies this
      ensures Valid()
      ensures keys == Offer(cap, old(keys), k)
      ensures vals == (if |old(keys)| >= cap then old(vals) - {old(keys)[0]} else old(vals))[k := v]
    {
      if |keys| >= cap {
        DropOldest();
      }
      keys := keys + [k];
      vals := vals[k := v];
    }
  }
}
