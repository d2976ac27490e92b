/** Sizes of sets, how often keys occur, and the sum of that over all the keys there are. */
module Counting {
  import opened Sorting

  lemma SubsetSize<T>(a: set<T>, b: set<T>)
    requires a <= b
    ensures |a| <= |b|
  {
    assert b == a + (b - a);
  }

  lemma SubsetEqual<T>(a: set<T>, b: set<T>)
    requires a <= b && |a| == |b|
    ensures a == b
  {
    assert b == a + (b - a);
    assert |b - a| == 0;
  }

  /** How often `key` occurs. */
  function Occurrences<T(==)>(keys: seq<T>, key: T): nat { multiset(keys)[key] }

  lemma OccurrencesOfMore<T>(keys: seq<T>, x: T, key: T)
    ensures Occurrences(keys + [x], key) == Occurrences(keys, key) + if x == key then 1 else 0
  {
  }

  lemma {:induction false} SameCounts<T>(a: seq<T>, b: seq<T>, key: T)
    requires |a| == |b| && forall i | 0 <= i < |a| :: a[i] == key <==> b[i] == key
    ensures Occurrences(a, key) == Occurrences(b, key)
  {
    if a != [] {
      var n := |a| - 1;
      SameCounts(a[..n], b[..n], key);
      OccurrencesOfMore(a[..n], a[n], key);
      OccurrencesOfMore(b[..n], b[n], key);
      assert a == a[..n] + [a[n]] && b == b[..n] + [b[n]];
    }
  }

  function SumOccurrences<T(==)>(ks: seq<T>, keys: seq<T>): nat {
    if ks == [] then 0 else Occurrences(keys, ks[0]) + SumOccurrences(ks[1..], keys)
  }

  lemma {:induction false} OneMoreKey<T>(ks: seq<T>, keys: seq<T>, x: T)
    requires Distinct(ks)
    ensures SumOccurrences(ks, keys + [x]) == SumOccurrences(ks, keys) + if x in ks then 1 else 0
  {
    if ks != [] {
      OneMoreKey(ks[1..], keys, x);
      assert x in ks <==> x == ks[0] || x in ks[1..];
      assert ks[0] !in ks[1..];
    }
  }

  lemma {:induction false} NothingOccurs<T>(ks: seq<T>)
    ensures SumOccurrences(ks, []) == 0
  {
    if ks != [] {
      NothingOccurs(ks[1..]);
    }
  }

  /** Counting every key that occurs counts everything. */
  lemma {:induction false} OccurrencesTotal<T>(ks: seq<T>, keys: seq<T>)
    requires Distinct(ks) && forall k | k in keys :: k in ks
    ensures SumOccurrences(ks, keys) == |keys|
  {
    if keys == [] {
      NothingOccurs(ks);
    } else {
      var before, last := keys[..|keys| - 1], keys[|keys| - 1];
      assert keys == before + [last];
      assert last in keys && forall k | k in before :: k in keys;
      OccurrencesTotal(ks, before);
      OneMoreKey(ks, before, last);
    }
  }

  lemma {:induction false} OnceEach<T>(ks: seq<T>, keys: seq<T>)
    requires Distinct(keys)
    ensures SumOccurrences(ks, keys) <= |ks|
  {
    if ks != [] {
      DistinctOnce(keys, ks[0]);
      OnceEach(ks[1..], keys);
    }
  }

  /** Different keys that are all listed take up as many places of the list. */
  lemma DistinctAmong<T>(ks: seq<T>, keys: seq<T>)
    requires Distinct(ks) && Distinct(keys) && forall k | k in keys :: k in ks
    ensures |keys| <= |ks|
  {
    OccurrencesTotal(ks, keys);
    OnceEach(ks, keys);
  }
}
