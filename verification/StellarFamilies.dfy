/** How nodes are divided into families: small families are collapsed into one, and there are never many. */
module StellarFamilies {
  import opened Counting
  import opened Numbers
  import opened Sorting
  import opened StellarConstellation
  import opened StellarKeys

  /** The nodes with a raw key. */
  function WithRaw(nodes: seq<GraphNode>, raw: string): nat { Occurrences(RawKeys(nodes), raw) }

  /** More than one raw key occurs. */
  ghost predicate Mixed(nodes: seq<GraphNode>) {
    exists a, b :: a in nodes && b in nodes && RawConstellationKey(a) != RawConstellationKey(b)
  }

  /** Fewer than four nodes, or fewer than 1.5 percent of all. */
  predicate TooSmall(count: nat, all: nat) { count < 4 || count as real < all as real * 0.015 }

  lemma MinimumIsNotTooSmall(count: nat, all: nat)
    ensures count < MinimumFamilySize(all) <==> TooSmall(count, all)
  {
  }

  lemma RawOccurs(nodes: seq<GraphNode>, n: GraphNode)
    requires n in nodes
    ensures RawConstellationKey(n) in RawKeys(nodes)
  {
    var i :| 0 <= i < |nodes| && nodes[i] == n;
    assert RawKeys(nodes)[i] == RawConstellationKey(n);
  }

  lemma TwoElements<T>(s: set<T>)
    ensures |s| > 1 <==> exists a, b :: a in s && b in s && a != b
  {
    if |s| > 1 {
      var a :| a in s;
      var rest := s - {a};
      assert |rest| >= 1;
      var b :| b in rest;
      assert a in s && b in s && a != b;
    }
    if a, b :| a in s && b in s && a != b {
      assert {a, b} <= s;
      SubsetSize({a, b}, s);
    }
  }

  lemma MixedHasTwo(nodes: seq<GraphNode>, keys: set<string>)
    requires Mixed(nodes) && keys == set k | k in RawKeys(nodes)
    ensures |keys| > 1
  {
    var a, b :| a in nodes && b in nodes && RawConstellationKey(a) != RawConstellationKey(b);
    RawOccurs(nodes, a);
    RawOccurs(nodes, b);
    TwoElements(keys);
    assert RawConstellationKey(a) in keys && RawConstellationKey(b) in keys;
  }

  lemma NodeOfRaw(nodes: seq<GraphNode>, raw: string) returns (n: GraphNode)
    requires raw in RawKeys(nodes)
    ensures n in nodes && RawConstellationKey(n) == raw
  {
    var i :| 0 <= i < |nodes| && RawKeys(nodes)[i] == raw;
    n := nodes[i];
  }

  lemma TwoAreMixed(nodes: seq<GraphNode>, keys: set<string>)
    requires keys == (set k | k in RawKeys(nodes)) && |keys| > 1
    ensures Mixed(nodes)
  {
    TwoElements(keys);
    var j, k :| j in keys && k in keys && j != k;
    var a := NodeOfRaw(nodes, j);
    var b := NodeOfRaw(nodes, k);
  }

  lemma MixedKeys(nodes: seq<GraphNode>)
    ensures |set k | k in RawKeys(nodes)| > 1 <==> Mixed(nodes)
  {
    var keys := set k | k in RawKeys(nodes);
    if Mixed(nodes) {
      MixedHasTwo(nodes, keys);
    }
    if |keys| > 1 {
      TwoAreMixed(nodes, keys);
    }
  }

  /** A node's family is its raw key's, or the collapsed one if other keys occur and its own is too rare. */
  lemma FamilyOfNode(nodes: seq<GraphNode>, n: GraphNode)
    ensures KeyOf(RawKeys(nodes), n)
         == if Mixed(nodes) && TooSmall(WithRaw(nodes, RawConstellationKey(n)), |nodes|) then "other"
            else RawConstellationKey(n)
  {
    MixedKeys(nodes);
    MinimumIsNotTooSmall(WithRaw(nodes, RawConstellationKey(n)), |nodes|);
  }

  // ----- sizes

  function FamilyKeys(nodes: seq<GraphNode>, rawKeys: seq<string>): (r: seq<string>)
    ensures |r| == |nodes| && forall i | 0 <= i < |nodes| :: r[i] == KeyOf(rawKeys, nodes[i])
  {
    seq(|nodes|, i requires 0 <= i < |nodes| => KeyOf(rawKeys, nodes[i]))
  }

  function CountUnder(nodes: seq<GraphNode>, rawKeys: seq<string>, key: string): nat {
    if nodes == [] then 0
    else CountUnder(nodes[..|nodes| - 1], rawKeys, key) + if KeyOf(rawKeys, nodes[|nodes| - 1]) == key then 1 else 0
  }

  lemma {:induction false} UnderIsCounted(nodes: seq<GraphNode>, rawKeys: seq<string>, key: string)
    ensures |NodesUnder(nodes, rawKeys, key)| == CountUnder(nodes, rawKeys, key)
  {
    if nodes != [] {
      UnderIsCounted(nodes[..|nodes| - 1], rawKeys, key);
    }
  }

  lemma KeysOfMore(before: seq<GraphNode>, n: GraphNode, nodes: seq<GraphNode>, rawKeys: seq<string>)
    requires nodes == before + [n]
    ensures FamilyKeys(nodes, rawKeys) == FamilyKeys(before, rawKeys) + [KeyOf(rawKeys, n)]
  {
  }

  lemma {:induction false} CountedOccurs(nodes: seq<GraphNode>, rawKeys: seq<string>, key: string)
    ensures CountUnder(nodes, rawKeys, key) == Occurrences(FamilyKeys(nodes, rawKeys), key)
  {
    if nodes != [] {
      var before, own := nodes[..|nodes| - 1], KeyOf(rawKeys, nodes[|nodes| - 1]);
      CountedOccurs(before, rawKeys, key);
      KeysOfMore(before, nodes[|nodes| - 1], nodes, rawKeys);
      OccurrencesOfMore(FamilyKeys(before, rawKeys), own, key);
    }
  }

  lemma UnderCounts(nodes: seq<GraphNode>, rawKeys: seq<string>, key: string)
    ensures |NodesUnder(nodes, rawKeys, key)| == Occurrences(FamilyKeys(nodes, rawKeys), key)
  {
    UnderIsCounted(nodes, rawKeys, key);
    CountedOccurs(nodes, rawKeys, key);
  }

  lemma KeptKey(rawKeys: seq<string>, raw: string, key: string)
    requires key != "other" && FamilyKey(rawKeys, key) == key
    ensures FamilyKey(rawKeys, raw) == key <==> raw == key
  {
  }

  lemma KeptCounts(nodes: seq<GraphNode>, rawKeys: seq<string>, key: string)
    requires key != "other" && FamilyKey(rawKeys, key) == key
    ensures Occurrences(FamilyKeys(nodes, rawKeys), key) == Occurrences(RawKeys(nodes), key)
  {
    var a, b := FamilyKeys(nodes, rawKeys), RawKeys(nodes);
    forall i | 0 <= i < |a| ensures a[i] == key <==> b[i] == key {
      KeptKey(rawKeys, RawConstellationKey(nodes[i]), key);
    }
    SameCounts(a, b, key);
  }

  lemma MembersCount(families: seq<Family>, nodes: seq<GraphNode>, f: nat)
    requires ArePartition(families, nodes) && f < |families|
    ensures |families[f].members| == Occurrences(FamilyKeys(nodes, RawKeys(nodes)), families[f].key)
  {
    assert families[f] in families;
    SameElements(families[f].members, NodesUnder(nodes, RawKeys(nodes), families[f].key));
    UnderCounts(nodes, RawKeys(nodes), families[f].key);
  }

  /** Every family but the collapsed one holds all the nodes with its key, and is large enough if there are others. */
  lemma FamilyLarge(families: seq<Family>, nodes: seq<GraphNode>, f: nat)
    requires ArePartition(families, nodes) && f < |families| && families[f].key != "other"
    ensures |families[f].members| == WithRaw(nodes, families[f].key)
    ensures Mixed(nodes) ==> !TooSmall(|families[f].members|, |nodes|)
  {
    assert families[f] in families;
    MemberKey(families, nodes, f, 0);
    FamilyOfNode(nodes, families[f].members[0]);
    MembersCount(families, nodes, f);
    KeptCounts(nodes, RawKeys(nodes), families[f].key);
  }

  // ----- how many

  /** How many of the keys are not the collapsed one. */
  function Others(ks: seq<string>): nat {
    if ks == [] then 0 else Others(ks[1..]) + if ks[0] == "other" then 0 else 1
  }

  lemma {:induction false} OthersButOne(ks: seq<string>)
    requires Distinct(ks)
    ensures Others(ks) >= |ks| - 1 && ("other" !in ks ==> Others(ks) == |ks|)
  {
    if ks != [] {
      OthersButOne(ks[1..]);
      if ks[0] == "other" {
        assert "other" !in ks[1..];
      }
    }
  }

  lemma Distribute(m: nat, k: nat)
    ensures m * k + k == (m + 1) * k
  {
  }

  lemma {:induction false} SumAtLeast(ks: seq<string>, keys: seq<string>, least: nat)
    requires forall k | k in ks && k != "other" :: Occurrences(keys, k) >= least
    ensures SumOccurrences(ks, keys) >= Others(ks) * least
  {
    if ks != [] {
      assert ks[0] in ks && forall k | k in ks[1..] :: k in ks;
      SumAtLeast(ks[1..], keys, least);
      Distribute(Others(ks[1..]), least);
    }
  }

  lemma ShareOfAll(c: real, b: real, a: real)
    requires a > 0.0 && c >= 0.0 && c * b <= a && b >= a * 0.015
    ensures c * 0.015 <= 1.0
  {
    assert c * (a * 0.015) <= c * b by { assert c * (b - a * 0.015) >= 0.0; }
    assert c * (a * 0.015) == (c * 0.015) * a;
    if 1.0 < c * 0.015 { ScaleLess(1.0, c * 0.015, a); }
  }

  lemma FewShares(count: nat, least: nat, all: nat)
    requires all > 0 && count * least <= all && least as real >= all as real * 0.015
    ensures count <= 66
  {
    assert count as real * least as real == (count * least) as real;
    ShareOfAll(count as real, least as real, all as real);
  }

  function KeysOfFamilies(families: seq<Family>): (r: seq<string>)
    ensures |r| == |families| && forall f | 0 <= f < |families| :: r[f] == families[f].key
  {
    seq(|families|, f requires 0 <= f < |families| => families[f].key)
  }

  lemma AllListed(families: seq<Family>, nodes: seq<GraphNode>)
    requires ArePartition(families, nodes)
    ensures forall k | k in FamilyKeys(nodes, RawKeys(nodes)) :: k in KeysOfFamilies(families)
  {
    var keys := FamilyKeys(nodes, RawKeys(nodes));
    forall k | k in keys ensures k in KeysOfFamilies(families) {
      var i :| 0 <= i < |keys| && keys[i] == k;
      assert nodes[i] in nodes;
      var f :| f in families && f.key == KeyOf(RawKeys(nodes), nodes[i]);
      var j :| 0 <= j < |families| && families[j] == f;
      assert KeysOfFamilies(families)[j] == k;
    }
  }

  lemma KeyShare(families: seq<Family>, nodes: seq<GraphNode>, f: nat)
    requires ArePartition(families, nodes) && Mixed(nodes) && f < |families| && families[f].key != "other"
    ensures Occurrences(FamilyKeys(nodes, RawKeys(nodes)), families[f].key) >= MinimumFamilySize(|nodes|)
  {
    FamilyLarge(families, nodes, f);
    MembersCount(families, nodes, f);
    MinimumIsNotTooSmall(|families[f].members|, |nodes|);
  }

  lemma SharesFit(ks: seq<string>, keys: seq<string>, least: nat)
    requires Distinct(ks) && forall k | k in ks && k != "other" :: Occurrences(keys, k) >= least
    requires forall k | k in keys :: k in ks
    ensures Others(ks) * least <= |keys|
  {
    SumAtLeast(ks, keys, least);
    OccurrencesTotal(ks, keys);
  }

  lemma ShareOfKey(families: seq<Family>, nodes: seq<GraphNode>, k: string)
    requires ArePartition(families, nodes) && Mixed(nodes) && k in KeysOfFamilies(families) && k != "other"
    ensures Occurrences(FamilyKeys(nodes, RawKeys(nodes)), k) >= MinimumFamilySize(|nodes|)
  {
    var f :| 0 <= f < |families| && KeysOfFamilies(families)[f] == k;
    KeyShare(families, nodes, f);
  }

  lemma FamilyKeysDistinct(families: seq<Family>, nodes: seq<GraphNode>)
    requires ArePartition(families, nodes)
    ensures Distinct(KeysOfFamilies(families))
  {
  }

  lemma FamiliesShare(families: seq<Family>, nodes: seq<GraphNode>, least: nat)
    requires ArePartition(families, nodes) && Mixed(nodes) && least == MinimumFamilySize(|nodes|)
    ensures Others(KeysOfFamilies(families)) * least <= |nodes|
  {
    var ks, keys := KeysOfFamilies(families), FamilyKeys(nodes, RawKeys(nodes));
    forall k | k in ks && k != "other" ensures Occurrences(keys, k) >= least {
      ShareOfKey(families, nodes, k);
    }
    AllListed(families, nodes);
    FamilyKeysDistinct(families, nodes);
    SharesFit(ks, keys, least);
  }

  /** A family's first member, when there is one raw key. */
  lemma FirstMember(families: seq<Family>, nodes: seq<GraphNode>, f: nat)
    requires ArePartition(families, nodes) && !Mixed(nodes) && f < |families|
    ensures families[f].members != [] && families[f].members[0] in nodes
    ensures families[f].key == RawConstellationKey(families[f].members[0])
  {
    assert families[f] in families;
    MemberKey(families, nodes, f, 0);
    FamilyOfNode(nodes, families[f].members[0]);
  }

  lemma OneRawKey(families: seq<Family>, nodes: seq<GraphNode>)
    requires ArePartition(families, nodes) && !Mixed(nodes)
    ensures |families| <= 1
  {
    if |families| > 1 {
      FirstMember(families, nodes, 0);
      FirstMember(families, nodes, 1);
      assert false;
    }
  }

  /** There are never more than 67 families, whatever the nodes. */
  lemma FamiliesFew(families: seq<Family>, nodes: seq<GraphNode>)
    requires ArePartition(families, nodes)
    ensures |families| <= 67 && (!Mixed(nodes) ==> |families| <= 1)
  {
    if Mixed(nodes) {
      var least := MinimumFamilySize(|nodes|);
      FamiliesShare(families, nodes, least);
      OthersButOne(KeysOfFamilies(families));
      FewShares(Others(KeysOfFamilies(families)), least, |nodes|);
    } else {
      OneRawKey(families, nodes);
    }
  }
}
