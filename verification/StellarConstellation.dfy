/**
 The overview constellation: nodes are grouped into families by top-level directory, each family gets an
 angular sector, and its members are spread over the sector in sort order.
 */
module StellarConstellation {
  import opened Numbers
  import opened Options
  import opened Sorting
  import opened StellarKeys
  import opened StellarTargets

  const CONSTELLATION_Y_SCALE := 0.82
  const CONSTELLATION_FAMILY_GAP := 0.13

  /** The numerical and collation functions the layout calls: importance as a pull to the rim, and `localeCompare`. */
  datatype Env = Env(
    m: Math,
    pull: (nat, nat) -> real,
    distance: nat -> real,
    atan2: (real, real) -> real,
    compare: (string, string) -> int)
  {
    function Pull(degree: nat, maxDegree: nat): real { pull(degree, maxDegree) }

    /** `depth ** 0.72`. */
    function Distance(depth: nat): real { distance(depth) }

    function Atan2(y: real, x: real): real { atan2(y, x) }

    /** The angle of a point that is not the centre leads back to the point. */
    ghost predicate AngleLaw(x: real, y: real) {
      m.Hypot(x, y) > 0.0 ==>
        && Scaled(m.Cos(Atan2(y, x)), m.Hypot(x, y)) == x
        && Scaled(m.Sin(Atan2(y, x)), m.Hypot(x, y)) == y
    }

    ghost predicate DistanceLaw(depth: nat) { depth >= 1 ==> Distance(depth) >= 1.0 }

    ghost predicate Lawful() {
      m.Lawful() && (forall depth :: DistanceLaw(depth)) && forall x, y :: AngleLaw(x, y)
    }
  }

  /** `Math.imul(value, 2654435761) >>> 0`, scaled to [0, 1). */
  function StableFraction(value: int): (f: real)
    ensures 0.0 <= f < 1.0
  {
    ((value * 2_654_435_761) % 4_294_967_296) as real / 4_294_967_296.0
  }

  datatype Family = Family(key: string, members: seq<GraphNode>)

  // ----- families

  function RawKeys(nodes: seq<GraphNode>): (r: seq<string>)
    ensures |r| == |nodes| && forall i | 0 <= i < |nodes| :: r[i] == RawConstellationKey(nodes[i])
  {
    seq(|nodes|, i requires 0 <= i < |nodes| => RawConstellationKey(nodes[i]))
  }

  /** `Math.max(4, Math.ceil(n * 0.015))`. */
  function MinimumFamilySize(n: nat): nat {
    var c := Ceil(n as real * 0.015);
    if c >= 4 then c else 4
  }

  /** Small families are collapsed into one, if there is more than one family at all. */
  function FamilyKey(rawKeys: seq<string>, raw: string): string {
    if |set k | k in rawKeys| > 1 && multiset(rawKeys)[raw] < MinimumFamilySize(|rawKeys|) then "other" else raw
  }

  function KeyOf(rawKeys: seq<string>, node: GraphNode): string { FamilyKey(rawKeys, RawConstellationKey(node)) }

  /** The nodes of one family, in input order. */
  function NodesUnder(nodes: seq<GraphNode>, rawKeys: seq<string>, key: string): (r: seq<GraphNode>)
    ensures forall n :: n in r <==> n in nodes && KeyOf(rawKeys, n) == key
  {
    if nodes == [] then []
    else
      var before, last := nodes[..|nodes| - 1], nodes[|nodes| - 1];
      assert nodes == before + [last];
      NodesUnder(before, rawKeys, key) + if KeyOf(rawKeys, last) == key then [last] else []
  }

  /** Each family holds the nodes under its key, and every node has a family. */
  ghost predicate ArePartition(families: seq<Family>, nodes: seq<GraphNode>) {
    && (forall i, j | 0 <= i < j < |families| :: families[i].key != families[j].key)
    && (forall f | f in families ::
          f.members != [] && multiset(f.members) == multiset(NodesUnder(nodes, RawKeys(nodes), f.key)))
    && (forall n | n in nodes :: exists f :: f in families && f.key == KeyOf(RawKeys(nodes), n))
  }

  ghost predicate DistinctIds(nodes: seq<GraphNode>) {
    forall i, j | 0 <= i < j < |nodes| :: nodes[i].id != nodes[j].id
  }

  lemma {:induction false} UnderDistinct(nodes: seq<GraphNode>, rawKeys: seq<string>, key: string)
    requires DistinctIds(nodes)
    ensures Distinct(NodesUnder(nodes, rawKeys, key))
  {
    if nodes != [] {
      var before, last := nodes[..|nodes| - 1], nodes[|nodes| - 1];
      UnderDistinct(before, rawKeys, key);
      forall n | n in before ensures n != last {
        var i :| 0 <= i < |before| && before[i] == n;
        assert nodes[i].id != nodes[|nodes| - 1].id;
      }
    }
  }

  lemma MemberKey(families: seq<Family>, nodes: seq<GraphNode>, f: nat, i: nat)
    requires ArePartition(families, nodes) && f < |families| && i < |families[f].members|
    ensures families[f].members[i] in nodes
    ensures KeyOf(RawKeys(nodes), families[f].members[i]) == families[f].key
  {
    assert families[f] in families;
    SameElements(families[f].members, NodesUnder(nodes, RawKeys(nodes), families[f].key));
  }

  /** In a partition of nodes with distinct ids, a node stands at one place of one family only. */
  lemma OnePlace(families: seq<Family>, nodes: seq<GraphNode>, f: nat, i: nat, g: nat, j: nat)
    requires ArePartition(families, nodes) && DistinctIds(nodes)
    requires f < |families| && i < |families[f].members| && g < |families| && j < |families[g].members|
    requires families[f].members[i].id == families[g].members[j].id
    ensures f == g && i == j
  {
    var a, b := families[f].members[i], families[g].members[j];
    MemberKey(families, nodes, f, i);
    MemberKey(families, nodes, g, j);
    var k :| 0 <= k < |nodes| && nodes[k] == a;
    var l :| 0 <= l < |nodes| && nodes[l] == b;
    assert k == l;
    assert families[f].key == families[g].key;
    assert families[f] in families;
    UnderDistinct(nodes, RawKeys(nodes), families[f].key);
    DistinctPermutation(NodesUnder(nodes, RawKeys(nodes), families[f].key), families[f].members);
  }

  /** By the comparison `c` of two texts, then the larger degree, then the id. */
  predicate Precedes(c: int, a: GraphNode, b: GraphNode) {
    c < 0 || (c == 0 && (a.degree > b.degree || (a.degree == b.degree && a.id <= b.id)))
  }

  lemma PrecedesTransitive(compare: (string, string) -> int, s: string, t: string, u: string, a: GraphNode,
                           b: GraphNode, c: GraphNode)
    requires Collates(compare) && Precedes(compare(s, t), a, b) && Precedes(compare(t, u), b, c)
    ensures Precedes(compare(s, u), a, c)
  {
    CollateSteps(compare, s, t, u);
  }

  predicate MemberBefore(env: Env, a: GraphNode, b: GraphNode) {
    Precedes(env.compare(ConstellationGroupKey(a), ConstellationGroupKey(b)), a, b)
  }

  function MemberOrder(env: Env): (GraphNode, GraphNode) -> bool { (a, b) => MemberBefore(env, a, b) }

  /** The collapsed family last, then the larger family, then the key. */
  predicate FamilyBefore(env: Env, a: Family, b: Family) {
    if a.key == "other" || b.key == "other" then b.key == "other"
    else |a.members| > |b.members| || (|a.members| == |b.members| && env.compare(a.key, b.key) <= 0)
  }

  function FamilyOrder(env: Env): (Family, Family) -> bool { (a, b) => FamilyBefore(env, a, b) }

  /** The families in drawing order, their members in sector order. */
  ghost predicate InOrder(env: Env, families: seq<Family>) {
    Sorted(families, FamilyOrder(env)) && forall f | f in families :: Sorted(f.members, MemberOrder(env))
  }

  lemma MembersSorted(env: Env, s: seq<GraphNode>)
    requires Collates(env.compare)
    ensures Sorted(SortBy(s, MemberOrder(env)), MemberOrder(env))
  {
    forall a, b, c | MemberBefore(env, a, b) && MemberBefore(env, b, c) ensures MemberBefore(env, a, c) {
      PrecedesTransitive(env.compare, ConstellationGroupKey(a), ConstellationGroupKey(b), ConstellationGroupKey(c), a,
                         b, c);
    }
    forall a, b ensures MemberBefore(env, a, b) || MemberBefore(env, b, a) {
      var s, t := ConstellationGroupKey(a), ConstellationGroupKey(b);
      assert env.compare(s, t) > 0 <==> env.compare(t, s) < 0;
      assert env.compare(s, t) < 0 <==> env.compare(t, s) > 0;
    }
    SortBySorted(s, MemberOrder(env));
  }

  lemma FamilyBeforeTotal(env: Env, a: Family, b: Family, c: Family)
    requires Collates(env.compare)
    ensures FamilyBefore(env, a, b) || FamilyBefore(env, b, a)
    ensures FamilyBefore(env, a, b) && FamilyBefore(env, b, c) ==> FamilyBefore(env, a, c)
  {
    assert env.compare(a.key, b.key) > 0 <==> env.compare(b.key, a.key) < 0;
    if env.compare(a.key, b.key) <= 0 && env.compare(b.key, c.key) <= 0 {
      CollateSteps(env.compare, a.key, b.key, c.key);
    }
  }

  lemma FamiliesSorted(env: Env, s: seq<Family>)
    requires Collates(env.compare)
    ensures Sorted(SortBy(s, FamilyOrder(env)), FamilyOrder(env))
  {
    forall a, b, c
      ensures FamilyBefore(env, a, b) || FamilyBefore(env, b, a)
      ensures FamilyBefore(env, a, b) && FamilyBefore(env, b, c) ==> FamilyBefore(env, a, c)
    {
      FamilyBeforeTotal(env, a, b, c);
    }
    SortBySorted(s, FamilyOrder(env));
  }

  /** The groups in the map are the families of the first nodes. */
  ghost predicate GroupsOf(groups: map<string, seq<GraphNode>>, nodes: seq<GraphNode>, rawKeys: seq<string>) {
    && (forall k | k in groups :: groups[k] == NodesUnder(nodes, rawKeys, k) && groups[k] != [])
    && (forall k | k !in groups :: NodesUnder(nodes, rawKeys, k) == [])
  }

  lemma UnderGrows(nodes: seq<GraphNode>, rawKeys: seq<string>, n: GraphNode, key: string)
    ensures NodesUnder(nodes + [n], rawKeys, key)
         == NodesUnder(nodes, rawKeys, key) + if KeyOf(rawKeys, n) == key then [n] else []
  {
    assert (nodes + [n])[..|nodes|] == nodes;
  }

  /** The group under `k` once `n` has been added under its own key. */
  lemma OneMoreUnder(groups: map<string, seq<GraphNode>>, nodes: seq<GraphNode>, rawKeys: seq<string>, n: GraphNode,
                     key: string, k: string)
    requires GroupsOf(groups, nodes, rawKeys) && key == KeyOf(rawKeys, n)
    ensures var now := groups[key := (if key in groups then groups[key] else []) + [n]];
            if k in now then now[k] == NodesUnder(nodes + [n], rawKeys, k) && now[k] != []
            else NodesUnder(nodes + [n], rawKeys, k) == []
  {
    UnderGrows(nodes, rawKeys, n, k);
    if k != key {
      assert NodesUnder(nodes + [n], rawKeys, k) == NodesUnder(nodes, rawKeys, k);
    } else if key !in groups {
      assert NodesUnder(nodes, rawKeys, k) == [];
    }
  }

  lemma OneMoreGrouped(groups: map<string, seq<GraphNode>>, nodes: seq<GraphNode>, rawKeys: seq<string>, n: GraphNode,
                       key: string, now: map<string, seq<GraphNode>>)
    requires GroupsOf(groups, nodes, rawKeys) && key == KeyOf(rawKeys, n)
    requires now == groups[key := (if key in groups then groups[key] else []) + [n]]
    ensures GroupsOf(now, nodes + [n], rawKeys)
  {
    forall k | k in now ensures now[k] == NodesUnder(nodes + [n], rawKeys, k) && now[k] != [] {
      OneMoreUnder(groups, nodes, rawKeys, n, key, k);
    }
    forall k | k !in now ensures NodesUnder(nodes + [n], rawKeys, k) == [] {
      OneMoreUnder(groups, nodes, rawKeys, n, key, k);
    }
  }

  method GroupNodes(nodes: seq<GraphNode>) returns (groups: map<string, seq<GraphNode>>)
    ensures GroupsOf(groups, nodes, RawKeys(nodes))
  {
    var rawKeys := RawKeys(nodes);
    groups := map[];
    for i := 0 to |nodes|
      invariant GroupsOf(groups, nodes[..i], rawKeys)
    {
      PrefixGrows(nodes, i);
      var key := KeyOf(rawKeys, nodes[i]);
      ghost var before := groups;
      groups := groups[key := (if key in groups then groups[key] else []) + [nodes[i]]];
      OneMoreGrouped(before, nodes[..i], rawKeys, nodes[i], key, groups);
    }
    assert nodes[..|nodes|] == nodes;
  }

  method ListFamilies(env: Env, groups: map<string, seq<GraphNode>>) returns (list: seq<Family>)
    ensures forall i, j | 0 <= i < j < |list| :: list[i].key != list[j].key
    ensures forall f | f in list :: f.key in groups && multiset(f.members) == multiset(groups[f.key])
    ensures forall k | k in groups :: exists f :: f in list && f.key == k
    ensures Collates(env.compare) ==> forall f | f in list :: Sorted(f.members, MemberOrder(env))
  {
    list := [];
    var rest := groups.Keys;
    while rest != {}
      invariant rest <= groups.Keys
      invariant forall i, j | 0 <= i < j < |list| :: list[i].key != list[j].key
      invariant forall f | f in list ::
                  f.key in groups && f.key !in rest && multiset(f.members) == multiset(groups[f.key])
      invariant forall k | k in groups && k !in rest :: exists f :: f in list && f.key == k
      invariant Collates(env.compare) ==> forall f | f in list :: Sorted(f.members, MemberOrder(env))
    {
      var k :| k in rest;
      ghost var before := list;
      var family := Family(k, SortBy(groups[k], MemberOrder(env)));
      if Collates(env.compare) {
        MembersSorted(env, groups[k]);
      }
      list := list + [family];
      rest := rest - {k};
      assert forall f | f in before :: f in list;
      assert family in list;
    }
  }

  lemma PartitionFrom(families: seq<Family>, list: seq<Family>, groups: map<string, seq<GraphNode>>,
                      nodes: seq<GraphNode>)
    requires GroupsOf(groups, nodes, RawKeys(nodes)) && multiset(families) == multiset(list)
    requires forall i, j | 0 <= i < j < |list| :: list[i].key != list[j].key
    requires forall f | f in list :: f.key in groups && multiset(f.members) == multiset(groups[f.key])
    requires forall k | k in groups :: exists f :: f in list && f.key == k
    ensures ArePartition(families, nodes)
  {
    SameElements(families, list);
    forall i, j | 0 <= i < j < |list| ensures list[i] != list[j] {
      assert list[i].key != list[j].key;
    }
    DistinctPermutation(list, families);
    forall i, j | 0 <= i < j < |families| ensures families[i].key != families[j].key {
      assert families[i] in list && families[j] in list && families[i] != families[j];
    }
    forall f | f in families
      ensures f.members != [] && multiset(f.members) == multiset(NodesUnder(nodes, RawKeys(nodes), f.key))
    {
      assert f in list;
      SameElements(f.members, groups[f.key]);
    }
    forall n | n in nodes ensures exists f :: f in families && f.key == KeyOf(RawKeys(nodes), n) {
      var key := KeyOf(RawKeys(nodes), n);
      assert n in NodesUnder(nodes, RawKeys(nodes), key);
      var f :| f in list && f.key == key;
      assert f in families;
    }
  }

  /** The families in drawing order, their members in sector order. */
  method Families(env: Env, nodes: seq<GraphNode>) returns (families: seq<Family>)
    ensures ArePartition(families, nodes)
    ensures Collates(env.compare) ==> InOrder(env, families)
  {
    var groups := GroupNodes(nodes);
    var list := ListFamilies(env, groups);
    families := SortBy(list, FamilyOrder(env));
    PartitionFrom(families, list, groups, nodes);
    if Collates(env.compare) {
      FamiliesSorted(env, list);
      SameElements(families, list);
    }
  }

  // ----- sectors

  function Weight(m: Math, f: Family): real { m.Sqrt(|f.members| as real) }

  function TotalWeight(m: Math, families: seq<Family>): real {
    if families == [] then 0.0 else TotalWeight(m, families[..|families| - 1]) + Weight(m, families[|families| - 1])
  }

  function FamilyGap(m: Math, n: nat): real {
    if n > 1 then Min(CONSTELLATION_FAMILY_GAP, m.pi / (n as real * 3.0)) else 0.0
  }

  function DrawableSpan(m: Math, n: nat): real { m.pi * 2.0 - Scaled(FamilyGap(m, n), n as real) }

  /** One family's share of the drawable span. */
  function Share(drawable: real, weight: real, total: real): real {
    if total == 0.0 then 0.0 else drawable * weight / total
  }

  function Span(m: Math, families: seq<Family>, i: nat): real
    requires i < |families|
  {
    Share(DrawableSpan(m, |families|), Weight(m, families[i]), TotalWeight(m, families))
  }

  /** Where the sector of family `i` starts; for `i` past the last family, where the next one would. */
  function SectorStart(m: Math, families: seq<Family>, i: nat): real
    requires i <= |families|
  {
    if i == 0 then -m.pi / 2.0 + FamilyGap(m, |families|) / 2.0
    else SectorStart(m, families, i - 1) + Span(m, families, i - 1) + FamilyGap(m, |families|)
  }

  function SpanSum(m: Math, families: seq<Family>, n: nat): real
    requires n <= |families|
  {
    if n == 0 then 0.0 else SpanSum(m, families, n - 1) + Span(m, families, n - 1)
  }

  lemma ProductPositive(q: real, d: real, p: real)
    requires q * d == p && d > 0.0 && p > 0.0
    ensures q > 0.0
  {
    if q < 0.0 { ScaleLess(q, 0.0, d); }
  }

  lemma GapTotal(gap: real, q: real, n: real, pi: real)
    requires gap <= q && n > 0.0 && q * (n * 3.0) == pi
    ensures Scaled(gap, n) <= pi / 3.0
  {
    if gap < q { ScaleLess(gap, q, n); }
    assert q * (n * 3.0) == 3.0 * (q * n);
  }

  lemma GapBounds(m: Math, n: nat)
    requires m.Lawful()
    ensures FamilyGap(m, n) >= 0.0 && DrawableSpan(m, n) > 0.0
  {
    if n > 1 {
      var d := n as real * 3.0;
      var q := m.pi / d;
      assert q * d == m.pi;
      ProductPositive(q, d, m.pi);
      assert Scaled(FamilyGap(m, n), n as real) <= m.pi / 3.0 by {
        GapTotal(FamilyGap(m, n), q, n as real, m.pi);
      }
    }
  }

  lemma SqrtOfPositive(m: Math, x: real)
    requires m.Lawful() && x > 0.0
    ensures m.Sqrt(x) > 0.0
  {
    var q := m.Sqrt(x);
    assert m.SqrtLaw(x);
    assert q * q == x && q >= 0.0;
  }

  lemma WeightPositive(m: Math, f: Family)
    requires m.Lawful() && f.members != []
    ensures Weight(m, f) > 0.0
  {
    SqrtOfPositive(m, |f.members| as real);
  }

  lemma {:induction false} TotalPositive(m: Math, families: seq<Family>)
    requires m.Lawful() && families != [] && forall f | f in families :: f.members != []
    ensures TotalWeight(m, families) > 0.0
  {
    assert families[|families| - 1] in families;
    WeightPositive(m, families[|families| - 1]);
    if |families| > 1 {
      assert forall f | f in families[..|families| - 1] :: f in families;
      TotalPositive(m, families[..|families| - 1]);
    } else {
      assert families[..0] == [];
    }
  }

  lemma SharePositive(drawable: real, weight: real, total: real)
    requires drawable > 0.0 && weight > 0.0 && total > 0.0
    ensures Share(drawable, weight, total) > 0.0
  {
    ScaleLess(0.0, drawable, weight);
    var q := Share(drawable, weight, total);
    assert q * total == drawable * weight;
    ProductPositive(q, total, drawable * weight);
  }

  lemma SpanPositive(m: Math, families: seq<Family>, i: nat)
    requires m.Lawful() && i < |families| && forall f | f in families :: f.members != []
    ensures Span(m, families, i) > 0.0
  {
    assert families[i] in families;
    WeightPositive(m, families[i]);
    TotalPositive(m, families);
    GapBounds(m, |families|);
    SharePositive(DrawableSpan(m, |families|), Weight(m, families[i]), TotalWeight(m, families));
  }

  lemma ShareAdds(drawable: real, a: real, b: real, total: real)
    requires total > 0.0
    ensures Share(drawable, a, total) + Share(drawable, b, total) == Share(drawable, a + b, total)
  {
    var p, q := drawable * a, drawable * b;
    assert drawable * (a + b) == p + q;
    assert p / total + q / total == (p + q) / total;
  }

  lemma {:induction false} SpanSumShare(m: Math, families: seq<Family>, n: nat)
    requires n <= |families| && TotalWeight(m, families) > 0.0
    ensures SpanSum(m, families, n)
         == Share(DrawableSpan(m, |families|), TotalWeight(m, families[..n]), TotalWeight(m, families))
  {
    var d, t := DrawableSpan(m, |families|), TotalWeight(m, families);
    if n == 0 {
      assert d * 0.0 == 0.0;
    } else {
      SpanSumShare(m, families, n - 1);
      PrefixGrows(families, n - 1);
      ShareAdds(d, TotalWeight(m, families[..n - 1]), Weight(m, families[n - 1]), t);
    }
  }

  lemma ShareOfAll(drawable: real, total: real)
    requires total > 0.0
    ensures Share(drawable, total, total) == drawable
  {
    var q := Share(drawable, total, total);
    assert q * total == drawable * total;
    if q < drawable { ScaleLess(q, drawable, total); }
    if q > drawable { ScaleLess(drawable, q, total); }
  }

  /** The spans and the gaps together make exactly one full turn. */
  lemma FullTurn(m: Math, families: seq<Family>)
    requires m.Lawful() && families != [] && forall f | f in families :: f.members != []
    ensures SpanSum(m, families, |families|) + Scaled(FamilyGap(m, |families|), |families| as real) == m.pi * 2.0
  {
    TotalPositive(m, families);
    SpanSumShare(m, families, |families|);
    assert families[..|families|] == families;
    ShareOfAll(DrawableSpan(m, |families|), TotalWeight(m, families));
  }

  lemma {:induction false} StartBySum(m: Math, families: seq<Family>, i: nat)
    requires i <= |families|
    ensures SectorStart(m, families, i)
         == SectorStart(m, families, 0) + SpanSum(m, families, i) + Scaled(FamilyGap(m, |families|), i as real)
  {
    if i > 0 {
      StartBySum(m, families, i - 1);
      var g := FamilyGap(m, |families|);
      assert Scaled(g, i as real) == Scaled(g, (i - 1) as real) + g by {
        assert i as real == (i - 1) as real + 1.0;
        assert g * i as real == g * (i - 1) as real + g;
      }
    } else {
      assert Scaled(FamilyGap(m, |families|), 0.0) == 0.0;
    }
  }

  /**
   A later sector starts at least the gap after an earlier one ends, and the last one ends before the turn is
   full.
   */
  lemma {:induction false} SectorsDisjoint(m: Math, families: seq<Family>, i: nat, j: nat)
    requires m.Lawful() && i < j <= |families| && forall f | f in families :: f.members != []
    ensures SectorStart(m, families, i) + Span(m, families, i) + FamilyGap(m, |families|) <= SectorStart(m, families, j)
  {
    GapBounds(m, |families|);
    if i + 1 < j {
      SectorsDisjoint(m, families, i, j - 1);
      SpanPositive(m, families, j - 1);
    }
  }

  /** Once round: the start of the sector after the last is the first start and a full turn. */
  lemma SectorsCloseTurn(m: Math, families: seq<Family>)
    requires m.Lawful() && families != [] && forall f | f in families :: f.members != []
    ensures SectorStart(m, families, |families|) == SectorStart(m, families, 0) + m.pi * 2.0
  {
    StartBySum(m, families, |families|);
    FullTurn(m, families);
  }

  // ----- angles

  /** The place of member `index` of `size`, jittered by `fraction`, as a share of the family's span. */
  function OrderedPlace(index: nat, size: nat, fraction: real): real
    requires size > 0
  {
    (index as real + 0.5) / size as real + Scaled(fraction - 0.5, Min(0.015, 0.5 / size as real))
  }

  function NodeAngle(start: real, span: real, index: nat, size: nat, fraction: real): real
    requires size > 0
  {
    start + Scaled(span, 0.06 + 0.88 * OrderedPlace(index, size, fraction))
  }

  lemma Reciprocal(n: real) returns (u: real)
    requires n > 0.0
    ensures u == 1.0 / n && u > 0.0 && u * n == 1.0
  {
    u := 1.0 / n;
    assert u * n == 1.0;
    ProductPositive(u, n, 1.0);
  }

  lemma DividesAs(x: real, n: real, u: real)
    requires n > 0.0 && u * n == 1.0
    ensures x / n == x * u
  {
    var q := x / n;
    assert q * n == x;
    assert (x * u) * n == x * (u * n) == x;
    if q < x * u { ScaleLess(q, x * u, n); }
    if q > x * u { ScaleLess(x * u, q, n); }
  }

  lemma JitterBound(fraction: real, u: real)
    requires 0.0 <= fraction < 1.0 && u > 0.0
    ensures -0.25 * u <= Scaled(fraction - 0.5, Min(0.015, 0.5 * u)) < 0.25 * u
  {
    var w, f := Min(0.015, 0.5 * u), fraction - 0.5;
    ScaledLess(f, 0.5, w);
    ScaledLeq(-0.5, f, w);
    assert Scaled(0.5, w) == 0.5 * w && Scaled(-0.5, w) == -0.5 * w;
  }

  lemma PlaceBounds(index: nat, size: nat, fraction: real, u: real)
    requires index < size && 0.0 <= fraction < 1.0 && u > 0.0 && u * size as real == 1.0
    ensures Scaled(index as real + 0.25, u) <= OrderedPlace(index, size, fraction) < Scaled(index as real + 0.75, u)
  {
    var i, n := index as real, size as real;
    DividesAs(i + 0.5, n, u);
    DividesAs(0.5, n, u);
    JitterBound(fraction, u);
    assert (i + 0.5) * u == i * u + 0.5 * u && (i + 0.25) * u == i * u + 0.25 * u && (i + 0.75) * u == i * u + 0.75 * u;
  }

  lemma PlaceInside(index: nat, size: nat, fraction: real)
    requires index < size && 0.0 <= fraction < 1.0
    ensures 0.0 < OrderedPlace(index, size, fraction) < 1.0
  {
    var i, n := index as real, size as real;
    var u := Reciprocal(n);
    PlaceBounds(index, size, fraction, u);
    ScaledLess(0.0, i + 0.25, u);
    ScaledLess(i + 0.75, n, u);
    assert Scaled(n, u) == 1.0 && Scaled(0.0, u) == 0.0;
  }

  lemma PlaceIncreases(i: nat, j: nat, size: nat, fi: real, fj: real)
    requires i < j < size && 0.0 <= fi < 1.0 && 0.0 <= fj < 1.0
    ensures OrderedPlace(i, size, fi) < OrderedPlace(j, size, fj)
  {
    var u := Reciprocal(size as real);
    PlaceBounds(i, size, fi, u);
    PlaceBounds(j, size, fj, u);
    assert i as real + 1.0 <= j as real;
    ScaledLess(i as real + 0.75, j as real + 0.25, u);
  }

  lemma AngleAt(start: real, span: real, p: real, q: real)
    requires span > 0.0 && p < q
    ensures start + Scaled(span, 0.06 + 0.88 * p) < start + Scaled(span, 0.06 + 0.88 * q)
  {
    ScaledLess(0.06 + 0.88 * p, 0.06 + 0.88 * q, span);
  }

  /** Every member lies strictly inside its family's sector. */
  lemma AngleInSector(start: real, span: real, index: nat, size: nat, fraction: real)
    requires span > 0.0 && index < size && 0.0 <= fraction < 1.0
    ensures start < NodeAngle(start, span, index, size, fraction) < start + span
  {
    PlaceInside(index, size, fraction);
    var p := 0.06 + 0.88 * OrderedPlace(index, size, fraction);
    ScaledLess(0.0, p, span);
    ScaledLess(p, 1.0, span);
    assert Scaled(span, 0.0) == 0.0 && Scaled(span, 1.0) == span;
  }

  /** Despite the jitter the angles grow strictly in sort order. */
  lemma AnglesIncrease(start: real, span: real, i: nat, j: nat, size: nat, fi: real, fj: real)
    requires span > 0.0 && i < j < size && 0.0 <= fi < 1.0 && 0.0 <= fj < 1.0
    ensures NodeAngle(start, span, i, size, fi) < NodeAngle(start, span, j, size, fj)
  {
    PlaceIncreases(i, j, size, fi, fj);
    AngleAt(start, span, OrderedPlace(i, size, fi), OrderedPlace(j, size, fj));
  }

  // ----- the targets

  function MaxDegree(nodes: seq<GraphNode>): nat {
    if nodes == [] then 1
    else
      var before, degree := MaxDegree(nodes[..|nodes| - 1]), nodes[|nodes| - 1].degree;
      if degree > before then degree else before
  }

  function MaxRadius(m: Math, n: nat): real { Max(360.0, Min(760.0, 340.0 + m.Sqrt(n as real) * 12.0)) }

  function HubThreshold(maxDegree: nat): real { Max(18.0, maxDegree as real * 0.18) }

  function NodeRadius(env: Env, degree: nat, maxDegree: nat, maxRadius: real, index: nat): real {
    48.0 + env.Pull(degree, maxDegree) * (maxRadius - 48.0) + (index % 5) as real * 4.0 - 8.0
  }

  /** Where a member of a sector goes. */
  function MemberTarget(env: Env, node: GraphNode, sector: Sector, index: nat, size: nat, maxDegree: nat,
                        maxRadius: real)
    : Target
    requires size > 0
  {
    var angle := NodeAngle(sector.start, sector.span, index, size, StableFraction(node.id));
    var radius := NodeRadius(env, node.degree, maxDegree, maxRadius, index);
    Target(Scaled(env.m.Cos(angle), radius), Scaled(env.m.Sin(angle), radius) * CONSTELLATION_Y_SCALE,
           if node.degree as real >= HubThreshold(maxDegree) then Hub else Context, None, None, sector)
  }

  function SectorOf(m: Math, families: seq<Family>, f: nat): Sector
    requires f < |families|
  {
    Sector(families[f].key, SectorStart(m, families, f), Span(m, families, f))
  }

  /** The targets of one family's members. */
  ghost function FamilyTargets(env: Env, nodes: seq<GraphNode>, families: seq<Family>, f: nat): (r: seq<Target>)
    requires f < |families|
    ensures |r| == |families[f].members|
    ensures forall i | 0 <= i < |r| ::
              r[i] == MemberTarget(env, families[f].members[i], SectorOf(env.m, families, f), i, |families[f].members|,
                                   MaxDegree(nodes), MaxRadius(env.m, |nodes|))
  {
    seq(|families[f].members|, i requires 0 <= i < |families[f].members| =>
      MemberTarget(env, families[f].members[i], SectorOf(env.m, families, f), i, |families[f].members|,
                   MaxDegree(nodes), MaxRadius(env.m, |nodes|)))
  }

  ghost predicate Fits(want: seq<seq<Target>>, families: seq<Family>) {
    |want| == |families| && forall f | 0 <= f < |families| :: |want[f]| == |families[f].members|
  }

  /** The targets of all members, family by family. */
  ghost function AllTargets(env: Env, nodes: seq<GraphNode>, families: seq<Family>): (r: seq<seq<Target>>)
    ensures Fits(r, families)
    ensures forall f | 0 <= f < |families| :: r[f] == FamilyTargets(env, nodes, families, f)
  {
    seq(|families|, f requires 0 <= f < |families| => FamilyTargets(env, nodes, families, f))
  }

  /** Every member of the first `n` families, and of the next one up to `k`, has its target, and no other id has one. */
  ghost predicate Placed(want: seq<seq<Target>>, nodes: seq<GraphNode>, families: seq<Family>,
                         targets: map<int, Target>, n: nat, k: nat)
    requires Fits(want, families)
  {
    && (forall id | id in targets :: exists v :: v in nodes && v.id == id)
    && forall f, i | 0 <= f < |families| && 0 <= i < |families[f].members| && (f < n || (f == n && i < k)) ::
         families[f].members[i].id in targets && targets[families[f].members[i].id] == want[f][i]
  }

  function MemberAngle(m: Math, families: seq<Family>, f: nat, i: nat): real
    requires f < |families| && i < |families[f].members|
  {
    NodeAngle(SectorStart(m, families, f), Span(m, families, f), i, |families[f].members|,
              StableFraction(families[f].members[i].id))
  }

  /** Inside its sector a family fans out in sort order, and the next family starts beyond the sector and the gap. */
  lemma MembersFanOut(m: Math, families: seq<Family>, f: nat, i: nat, j: nat)
    requires m.Lawful() && f < |families| && i < j < |families[f].members|
    requires forall g | g in families :: g.members != []
    ensures SectorStart(m, families, f) < MemberAngle(m, families, f, i) < MemberAngle(m, families, f, j)
    ensures MemberAngle(m, families, f, j) + FamilyGap(m, |families|) < SectorStart(m, families, f + 1)
  {
    var start, span, size := SectorStart(m, families, f), Span(m, families, f), |families[f].members|;
    var fi, fj := StableFraction(families[f].members[i].id), StableFraction(families[f].members[j].id);
    SpanPositive(m, families, f);
    AngleInSector(start, span, i, size, fi);
    AngleInSector(start, span, j, size, fj);
    AnglesIncrease(start, span, i, j, size, fi, fj);
  }
}
