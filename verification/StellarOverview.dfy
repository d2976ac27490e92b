/**
 The overview as it is drawn: what the families, their sectors and their members' rays and radii look like, told from
 the returned targets, and the loops that place them.
 */
module StellarOverview {
  import opened Numbers
  import opened Sorting
  import opened StellarConstellation
  import opened StellarKeys
  import opened StellarTargets

  // ----- what the overview looks like

  /** The greatest degree, and at least one. */
  ghost predicate IsGreatestDegree(nodes: seq<GraphNode>, most: nat) {
    && most >= 1 && (forall n | n in nodes :: n.degree <= most)
    && (most == 1 || exists n :: n in nodes && n.degree == most)
  }

  /** The rim grows with the number of nodes, between 360 and 760. */
  ghost predicate IsRim(m: Math, n: nat, rim: real) {
    && 360.0 <= rim <= 760.0
    && (rim < 340.0 + m.Sqrt(n as real) * 12.0 ==> rim == 760.0)
    && (rim > 340.0 + m.Sqrt(n as real) * 12.0 ==> rim == 360.0)
  }

  /** The gap between two sectors: none beside a single one, and all gaps together at most a sixth of the turn. */
  ghost predicate IsGap(m: Math, n: nat, gap: real) {
    if n <= 1 then gap == 0.0
    else
      && 0.0 <= gap <= 0.13 && Scaled(gap, n as real * 3.0) <= m.pi
      && (gap == 0.13 || Scaled(gap, n as real * 3.0) == m.pi)
  }

  /** The sectors follow each other with the gap between them. */
  ghost predicate FollowOn(sectors: seq<Sector>, gap: real) {
    forall f | 0 <= f < |sectors| - 1 :: sectors[f + 1].start == sectors[f].start + sectors[f].span + gap
  }

  /** The first sector starts half a gap after the top, and a full turn later the gap after the last one ends. */
  ghost predicate CloseTurn(m: Math, sectors: seq<Sector>, gap: real)
    requires sectors != []
  {
    var first, last := sectors[0], sectors[|sectors| - 1];
    first.start == -m.pi / 2.0 + gap / 2.0 && last.start + last.span + gap == first.start + m.pi * 2.0
  }

  /** Every sector is as wide as the square root of its family's size demands. */
  ghost predicate InProportion(m: Math, families: seq<Family>, sectors: seq<Sector>)
    requires |sectors| == |families|
  {
    forall f, g | 0 <= f < |families| && 0 <= g < |families| ::
      Scaled(sectors[f].span, m.Sqrt(|families[g].members| as real))
      == Scaled(sectors[g].span, m.Sqrt(|families[f].members| as real))
  }

  ghost predicate FillTurn(m: Math, families: seq<Family>, sectors: seq<Sector>, gap: real) {
    && |sectors| == |families|
    && (forall f | 0 <= f < |families| :: sectors[f].key == families[f].key && sectors[f].span > 0.0)
    && FollowOn(sectors, gap) && (families != [] ==> CloseTurn(m, sectors, gap))
    && InProportion(m, families, sectors)
  }

  /** The angle leaves six percent of the sector on each side free, and share `p` of the rest behind it. */
  predicate AtShare(angle: real, sector: Sector, p: real) {
    angle == sector.start + Scaled(sector.span, 0.06 + 0.88 * p)
  }

  /** The angle lies in the middle half of place `i` of `n`, and the places in the middle 88 percent of the sector. */
  ghost predicate InPlace(angle: real, sector: Sector, i: nat, n: nat) {
    exists p :: AtShare(angle, sector, p) && i as real + 0.25 <= Scaled(p, n as real) < i as real + 0.75
  }

  /** The target is the point at this angle and radius of a picture squeezed vertically, without depth or lane. */
  ghost predicate StandsOnRay(m: Math, target: Target, sector: Sector, angle: real, radius: real) {
    && target.sector == sector && target.depth.None? && target.laneKey.None?
    && target.x == Scaled(m.Cos(angle), radius)
    && target.y == Scaled(m.Sin(angle), radius) * 0.82
  }

  /** The pull moves a node from 48 towards the rim; its place modulo five sets it off by up to 8. */
  ghost predicate StandsOut(env: Env, node: GraphNode, most: nat, rim: real, i: nat, radius: real) {
    radius == 48.0 + env.Pull(node.degree, most) * (rim - 48.0) + ((i % 5) as real - 2.0) * 4.0
  }

  /** A hub has at least 18 links and at least 18 percent of the most that any node has. */
  predicate IsHub(node: GraphNode, most: nat) { node.degree >= 18 && node.degree as real >= most as real * 0.18 }

  /** The members of a family stand on rays inside its sector, in sort order, as far out as their degrees demand. */
  ghost predicate FansOut(env: Env, family: Family, sector: Sector, targets: map<int, Target>, most: nat, rim: real,
                          angles: seq<real>, radii: seq<real>)
  {
    var members := family.members;
    && |angles| == |radii| == |members|
    && (forall i | 0 <= i < |members| :: sector.start < angles[i] < sector.start + sector.span)
    && (forall i | 0 <= i < |members| :: InPlace(angles[i], sector, i, |members|))
    && (forall i, j | 0 <= i < j < |members| :: angles[i] < angles[j])
    && (forall i | 0 <= i < |members| :: members[i].id in targets)
    && (forall i | 0 <= i < |members| :: StandsOnRay(env.m, targets[members[i].id], sector, angles[i], radii[i]))
    && (forall i | 0 <= i < |members| :: StandsOut(env, members[i], most, rim, i, radii[i]))
    && (forall i | 0 <= i < |members| ::
          targets[members[i].id].role == if IsHub(members[i], most) then Hub else Context)
  }

  ghost predicate IsFan(env: Env, family: Family, sector: Sector, targets: map<int, Target>, most: nat, rim: real) {
    exists angles, radii :: FansOut(env, family, sector, targets, most, rim, angles, radii)
  }

  /** The whole overview, with the greatest degree, the rim, the gap and the sectors it is drawn with. */
  ghost predicate IsOverview(env: Env, nodes: seq<GraphNode>, families: seq<Family>, targets: map<int, Target>,
                             most: nat,
                             rim: real, gap: real, sectors: seq<Sector>)
  {
    && IsGreatestDegree(nodes, most) && IsRim(env.m, |nodes|, rim) && IsGap(env.m, |families|, gap)
    && FillTurn(env.m, families, sectors, gap)
    && forall f | 0 <= f < |families| ::
         IsFan(env, families[f], sectors[f], targets, most, rim)
  }

  // ----- why

  lemma {:induction false} MaxDegreeIsGreatest(nodes: seq<GraphNode>)
    ensures IsGreatestDegree(nodes, MaxDegree(nodes))
  {
    if nodes != [] {
      var before, last := nodes[..|nodes| - 1], nodes[|nodes| - 1];
      assert nodes == before + [last];
      MaxDegreeIsGreatest(before);
      assert last in nodes && forall n | n in before :: n in nodes;
    }
  }

  lemma MaxRadiusIsRim(m: Math, n: nat)
    ensures IsRim(m, n, MaxRadius(m, n))
  {
  }

  lemma Cancel(a: real, b: real, t: real)
    requires t > 0.0 && a * t == b * t
    ensures a == b
  {
    if a < b { ScaleLess(a, b, t); }
    if b < a { ScaleLess(b, a, t); }
  }

  lemma FamilyGapIsGap(m: Math, n: nat)
    requires m.Lawful()
    ensures IsGap(m, n, FamilyGap(m, n))
  {
    GapBounds(m, n);
    if n > 1 {
      var d := n as real * 3.0;
      var q := m.pi / d;
      assert q * d == m.pi;
      if 0.13 < q { ScaleLess(0.13, q, d); }
    }
  }

  lemma SharesInProportion(drawable: real, a: real, b: real, total: real)
    requires total > 0.0
    ensures Scaled(Share(drawable, a, total), b) == Scaled(Share(drawable, b, total), a)
  {
    var p, q := Share(drawable, a, total), Share(drawable, b, total);
    assert p * total == drawable * a && q * total == drawable * b;
    assert (p * b) * total == (p * total) * b == (drawable * a) * b;
    assert (q * a) * total == (q * total) * a == (drawable * b) * a;
    assert (drawable * a) * b == (drawable * b) * a;
    Cancel(p * b, q * a, total);
  }

  ghost function Sectors(m: Math, families: seq<Family>): (r: seq<Sector>)
    ensures |r| == |families| && forall f | 0 <= f < |families| :: r[f] == SectorOf(m, families, f)
  {
    seq(|families|, f requires 0 <= f < |families| => SectorOf(m, families, f))
  }

  lemma SpansInProportion(m: Math, families: seq<Family>, f: nat, g: nat)
    requires m.Lawful() && f < |families| && g < |families| && forall x | x in families :: x.members != []
    ensures Scaled(Span(m, families, f), Weight(m, families[g])) == Scaled(Span(m, families, g), Weight(m, families[f]))
  {
    TotalPositive(m, families);
    SharesInProportion(DrawableSpan(m, |families|), Weight(m, families[f]), Weight(m, families[g]),
                       TotalWeight(m, families));
  }

  lemma SectorsFollowOn(m: Math, families: seq<Family>)
    ensures FollowOn(Sectors(m, families), FamilyGap(m, |families|))
  {
  }

  lemma SectorsClose(m: Math, families: seq<Family>)
    requires m.Lawful() && families != [] && forall f | f in families :: f.members != []
    ensures CloseTurn(m, Sectors(m, families), FamilyGap(m, |families|))
  {
    SectorsCloseTurn(m, families);
  }

  lemma SectorsFillTurn(m: Math, families: seq<Family>)
    requires m.Lawful() && forall f | f in families :: f.members != []
    ensures FillTurn(m, families, Sectors(m, families), FamilyGap(m, |families|))
  {
    var sectors := Sectors(m, families);
    forall f | 0 <= f < |families| ensures sectors[f].key == families[f].key && sectors[f].span > 0.0 {
      SpanPositive(m, families, f);
    }
    SectorsFollowOn(m, families);
    if families != [] { SectorsClose(m, families); }
    forall f, g | 0 <= f < |families| && 0 <= g < |families|
      ensures Scaled(sectors[f].span, m.Sqrt(|families[g].members| as real))
           == Scaled(sectors[g].span, m.Sqrt(|families[f].members| as real))
    {
      SpansInProportion(m, families, f, g);
    }
  }

  lemma PlaceScaled(x: real, p: real, y: real, u: real, n: real)
    requires n > 0.0 && u * n == 1.0 && Scaled(x, u) <= p < Scaled(y, u)
    ensures x <= Scaled(p, n) < y
  {
    ScaleLess(p, y * u, n);
    if x * u < p { ScaleLess(x * u, p, n); }
    assert (x * u) * n == x * (u * n) == x && (y * u) * n == y * (u * n) == y;
  }

  lemma AngleInPlace(sector: Sector, i: nat, n: nat, fraction: real)
    requires i < n && 0.0 <= fraction < 1.0
    ensures InPlace(NodeAngle(sector.start, sector.span, i, n, fraction), sector, i, n)
  {
    var u := Reciprocal(n as real);
    PlaceBounds(i, n, fraction, u);
    var p := OrderedPlace(i, n, fraction);
    PlaceScaled(i as real + 0.25, p, i as real + 0.75, u, n as real);
    assert AtShare(NodeAngle(sector.start, sector.span, i, n, fraction), sector, p);
  }

  /** The members of a family have the targets of their places. */
  ghost predicate AreSeated(env: Env, family: Family, sector: Sector, targets: map<int, Target>, most: nat, rim: real) {
    forall i | 0 <= i < |family.members| ::
      family.members[i].id in targets
      && targets[family.members[i].id]
         == MemberTarget(env, family.members[i], sector, i, |family.members|, most, rim)
  }

  /** The two sequences that describe one family. */
  lemma FamilyFansOut(env: Env, family: Family, sector: Sector, targets: map<int, Target>, most: nat, rim: real)
    requires sector.span > 0.0 && AreSeated(env, family, sector, targets, most, rim)
    ensures IsFan(env, family, sector, targets, most, rim)
  {
    var n := |family.members|;
    var angles := seq(n, i requires 0 <= i < n =>
      NodeAngle(sector.start, sector.span, i, n, StableFraction(family.members[i].id)));
    var radii := seq(n, i requires 0 <= i < n => NodeRadius(env, family.members[i].degree, most, rim, i));
    forall i | 0 <= i < n
      ensures sector.start < angles[i] < sector.start + sector.span && InPlace(angles[i], sector, i, n)
    {
      AngleInSector(sector.start, sector.span, i, n, StableFraction(family.members[i].id));
      AngleInPlace(sector, i, n, StableFraction(family.members[i].id));
    }
    forall i, j | 0 <= i < j < n ensures angles[i] < angles[j] {
      AnglesIncrease(sector.start, sector.span, i, j, n, StableFraction(family.members[i].id),
                     StableFraction(family.members[j].id));
    }
    assert FansOut(env, family, sector, targets, most, rim, angles, radii);
  }

  ghost predicate IsWanted(env: Env, want: seq<seq<Target>>, families: seq<Family>, f: nat, sector: Sector,
                           maxDegree: nat, maxRadius: real)
    requires Fits(want, families) && f < |families|
  {
    var members := families[f].members;
    forall i
      {:trigger MemberTarget(env, members[i], sector, i, |members|, maxDegree, maxRadius)}
      | 0 <= i < |members| ::
      want[f][i] == MemberTarget(env, members[i], sector, i, |members|, maxDegree, maxRadius)
  }

  lemma SeatsOfPlaced(env: Env, want: seq<seq<Target>>, nodes: seq<GraphNode>, families: seq<Family>,
                      targets: map<int, Target>, f: nat, sector: Sector, most: nat, rim: real)
    requires Fits(want, families) && f < |families| && IsWanted(env, want, families, f, sector, most, rim)
    requires Placed(want, nodes, families, targets, |families|, 0)
    ensures AreSeated(env, families[f], sector, targets, most, rim)
  {
    var members := families[f].members;
    forall i | 0 <= i < |members|
      ensures members[i].id in targets
              && targets[members[i].id] == MemberTarget(env, members[i], sector, i, |members|, most, rim)
    {
      assert targets[members[i].id] == want[f][i];
    }
  }

  lemma OverviewFrom(env: Env, nodes: seq<GraphNode>, families: seq<Family>, targets: map<int, Target>, most: nat,
                     rim: real, gap: real, sectors: seq<Sector>)
    requires IsGreatestDegree(nodes, most) && IsRim(env.m, |nodes|, rim) && IsGap(env.m, |families|, gap)
    requires FillTurn(env.m, families, sectors, gap)
    requires forall f | 0 <= f < |families| :: AreSeated(env, families[f], sectors[f], targets, most, rim)
    ensures IsOverview(env, nodes, families, targets, most, rim, gap, sectors)
  {
    forall f | 0 <= f < |families| ensures IsFan(env, families[f], sectors[f], targets, most, rim) {
      FamilyFansOut(env, families[f], sectors[f], targets, most, rim);
    }
  }

  /** Targets placed as wanted make an overview. */
  lemma PlacedIsOverview(env: Env, want: seq<seq<Target>>, nodes: seq<GraphNode>, families: seq<Family>,
                         targets: map<int, Target>, most: nat, rim: real)
    requires env.m.Lawful() && ArePartition(families, nodes) && Fits(want, families)
    requires IsGreatestDegree(nodes, most) && IsRim(env.m, |nodes|, rim)
    requires Placed(want, nodes, families, targets, |families|, 0)
    requires forall f | 0 <= f < |families| ::
               IsWanted(env, want, families, f, SectorOf(env.m, families, f), most, rim)
    ensures IsOverview(env, nodes, families, targets, most, rim, FamilyGap(env.m, |families|), Sectors(env.m, families))
  {
    var sectors := Sectors(env.m, families);
    FamilyGapIsGap(env.m, |families|);
    SectorsFillTurn(env.m, families);
    forall f | 0 <= f < |families| ensures AreSeated(env, families[f], sectors[f], targets, most, rim) {
      SeatsOfPlaced(env, want, nodes, families, targets, f, SectorOf(env.m, families, f), most, rim);
    }
    OverviewFrom(env, nodes, families, targets, most, rim, FamilyGap(env.m, |families|), sectors);
  }

  // ----- placing them

  method GreatestDegree(nodes: seq<GraphNode>) returns (d: nat)
    ensures d == MaxDegree(nodes)
  {
    d := 1;
    for i := 0 to |nodes|
      invariant d == MaxDegree(nodes[..i])
    {
      PrefixGrows(nodes, i);
      if nodes[i].degree > d {
        d := nodes[i].degree;
      }
    }
    assert nodes[..|nodes|] == nodes;
  }

  method SumWeights(m: Math, families: seq<Family>) returns (total: real)
    ensures total == TotalWeight(m, families)
  {
    total := 0.0;
    for i := 0 to |families|
      invariant total == TotalWeight(m, families[..i])
    {
      PrefixGrows(families, i);
      total := total + Weight(m, families[i]);
    }
    assert families[..|families|] == families;
  }

  /** No member placed so far has the id of the member to be placed now. */
  ghost predicate FreshId(families: seq<Family>, f: nat, i: nat)
    requires f < |families| && i < |families[f].members|
  {
    forall g, j | 0 <= g < |families| && 0 <= j < |families[g].members| && (g < f || (g == f && j < i)) ::
      families[g].members[j].id != families[f].members[i].id
  }

  lemma IdIsFresh(nodes: seq<GraphNode>, families: seq<Family>, f: nat, i: nat)
    requires ArePartition(families, nodes) && DistinctIds(nodes)
    requires f < |families| && i < |families[f].members|
    ensures FreshId(families, f, i) && families[f].members[i] in nodes
  {
    MemberKey(families, nodes, f, i);
    forall g, j | 0 <= g < |families| && 0 <= j < |families[g].members| && (g < f || (g == f && j < i))
      ensures families[g].members[j].id != families[f].members[i].id
    {
      if families[g].members[j].id == families[f].members[i].id {
        OnePlace(families, nodes, g, j, f, i);
      }
    }
  }

  lemma PlaceNext(want: seq<seq<Target>>, nodes: seq<GraphNode>, families: seq<Family>, targets: map<int, Target>,
                  f: nat, i: nat)
    requires f < |families| && i < |families[f].members| && Fits(want, families)
    requires FreshId(families, f, i) && families[f].members[i] in nodes
    requires Placed(want, nodes, families, targets, f, i)
    ensures Placed(want, nodes, families, targets[families[f].members[i].id := want[f][i]], f, i + 1)
  {
  }

  method WantedTarget(env: Env, ghost want: seq<seq<Target>>, ghost families: seq<Family>, ghost f: nat, family: Family,
                      i: nat,
                      sector: Sector, maxDegree: nat, maxRadius: real) returns (target: Target)
    requires Fits(want, families) && f < |families| && family == families[f] && i < |family.members|
    requires IsWanted(env, want, families, f, sector, maxDegree, maxRadius)
    ensures target == want[f][i]
  {
    target := MemberTarget(env, family.members[i], sector, i, |family.members|, maxDegree, maxRadius);
  }

  method PlaceFamily(env: Env, ghost want: seq<seq<Target>>, ghost nodes: seq<GraphNode>, ghost families: seq<Family>,
                     ghost f: nat, before: map<int, Target>, family: Family, sector: Sector, maxDegree: nat,
                     maxRadius: real)
    returns (targets: map<int, Target>)
    requires ArePartition(families, nodes) && DistinctIds(nodes) && f < |families| && family == families[f]
    requires Fits(want, families) && Placed(want, nodes, families, before, f, 0)
    requires IsWanted(env, want, families, f, sector, maxDegree, maxRadius)
    ensures Placed(want, nodes, families, targets, f, |family.members|)
  {
    targets := before;
    for i := 0 to |family.members|
      invariant Placed(want, nodes, families, targets, f, i)
    {
      IdIsFresh(nodes, families, f, i);
      PlaceNext(want, nodes, families, targets, f, i);
      var node := family.members[i];
      var target := WantedTarget(env, want, families, f, family, i, sector, maxDegree, maxRadius);
      targets := targets[node.id := target];
    }
  }

  /** Every node is a member of some family. */
  lemma FindMember(nodes: seq<GraphNode>, families: seq<Family>, n: GraphNode) returns (f: nat, i: nat)
    requires ArePartition(families, nodes) && n in nodes
    ensures f < |families| && i < |families[f].members| && families[f].members[i] == n
  {
    var key := KeyOf(RawKeys(nodes), n);
    f :| 0 <= f < |families| && families[f].key == key;
    assert families[f] in families;
    SameElements(families[f].members, NodesUnder(nodes, RawKeys(nodes), key));
    assert n in families[f].members;
    i :| 0 <= i < |families[f].members| && families[f].members[i] == n;
  }

  lemma EveryNodePlaced(want: seq<seq<Target>>, nodes: seq<GraphNode>, families: seq<Family>, targets: map<int, Target>)
    requires ArePartition(families, nodes) && Fits(want, families)
    requires Placed(want, nodes, families, targets, |families|, 0)
    ensures forall n | n in nodes :: n.id in targets
  {
    forall n | n in nodes ensures n.id in targets {
      var f, i := FindMember(nodes, families, n);
    }
  }

  /** The family loop: sector after sector. */
  method PlaceFamilies(env: Env, ghost want: seq<seq<Target>>, nodes: seq<GraphNode>, list: seq<Family>, maxDegree: nat,
                       maxRadius: real)
    returns (targets: map<int, Target>)
    requires ArePartition(list, nodes) && DistinctIds(nodes) && Fits(want, list)
    requires forall f | 0 <= f < |list| :: IsWanted(env, want, list, f, SectorOf(env.m, list, f), maxDegree, maxRadius)
    ensures Placed(want, nodes, list, targets, |list|, 0)
  {
    targets := map[];
    var totalWeight := SumWeights(env.m, list);
    var familyGap := FamilyGap(env.m, |list|);
    var drawableSpan := DrawableSpan(env.m, |list|);
    var familyStart := -env.m.pi / 2.0 + familyGap / 2.0;
    for f := 0 to |list|
      invariant familyStart == SectorStart(env.m, list, f)
      invariant Placed(want, nodes, list, targets, f, 0)
    {
      var familySpan := Share(drawableSpan, Weight(env.m, list[f]), totalWeight);
      var sector := Sector(list[f].key, familyStart, familySpan);
      assert sector == SectorOf(env.m, list, f);
      targets := PlaceFamily(env, want, nodes, list, f, targets, list[f], sector, maxDegree, maxRadius);
      familyStart := familyStart + familySpan + familyGap;
    }
  }

  /** The overview: one target for every node and no other, inside the sector of its family. */
  method ComputeConstellation(env: Env, nodes: seq<GraphNode>)
    returns (targets: map<int, Target>, ghost families: seq<Family>)
    requires DistinctIds(nodes)
    ensures ArePartition(families, nodes) && (Collates(env.compare) ==> InOrder(env, families))
    ensures forall id :: id in targets <==> exists n :: n in nodes && n.id == id
    ensures Placed(AllTargets(env, nodes, families), nodes, families, targets, |families|, 0)
    ensures env.m.Lawful() ==>
              exists most, rim, gap, sectors :: IsOverview(env, nodes, families, targets, most, rim, gap, sectors)
  {
    var maxDegree := GreatestDegree(nodes);
    var maxRadius := MaxRadius(env.m, |nodes|);
    var list := Families(env, nodes);
    ghost var want := AllTargets(env, nodes, list);
    targets := PlaceFamilies(env, want, nodes, list, maxDegree, maxRadius);
    families := list;
    EveryNodePlaced(want, nodes, list, targets);
    if env.m.Lawful() {
      MaxDegreeIsGreatest(nodes);
      MaxRadiusIsRim(env.m, |nodes|);
      PlacedIsOverview(env, want, nodes, list, targets, maxDegree, maxRadius);
    }
  }

  // ----- how far out

  /** The pull is a share, and more links never pull farther out. */
  ghost predicate PullsInward(env: Env) {
    forall d, e, most | d <= e <= most :: 0.0 <= env.Pull(e, most) <= env.Pull(d, most) <= 1.0
  }

  /** The distance from the centre in the picture before it was squeezed. */
  function Reach(m: Math, t: Target): real { m.Hypot(t.x, t.y / 0.82) }

  lemma ReachIsRadius(m: Math, t: Target, sector: Sector, angle: real, radius: real)
    requires m.Lawful() && StandsOnRay(m, t, sector, angle, radius) && radius >= 0.0
    ensures Reach(m, t) == radius
  {
    PolarLength(m, angle, radius);
    assert t.y / 0.82 == Scaled(m.Sin(angle), radius);
  }

  lemma PulledBetween(share: real, room: real)
    requires 0.0 <= share <= 1.0 && room >= 0.0
    ensures 0.0 <= share * room <= room
  {
    assert (1.0 - share) * room >= 0.0;
  }

  lemma PulledFarther(a: real, b: real, room: real)
    requires a <= b && room >= 0.0
    ensures a * room <= b * room
  {
    assert (b - a) * room >= 0.0;
  }

  lemma RingBounds(i: nat)
    ensures -8.0 <= ((i % 5) as real - 2.0) * 4.0 <= 8.0
  {
    var k := i % 5;
    assert 0.0 <= k as real <= 4.0;
  }

  lemma SumBetween(pulled: real, room: real, ring: real)
    requires 0.0 <= pulled <= room && -8.0 <= ring <= 8.0
    ensures 40.0 <= 48.0 + pulled + ring <= room + 56.0
  {
  }

  lemma StandsBetween(env: Env, node: GraphNode, most: nat, rim: real, i: nat, radius: real)
    requires PullsInward(env) && node.degree <= most && rim >= 48.0 && StandsOut(env, node, most, rim, i, radius)
    ensures 40.0 <= radius <= rim + 8.0
  {
    assert 0.0 <= env.Pull(node.degree, most) <= env.Pull(node.degree, most) <= 1.0;
    var share, room := env.Pull(node.degree, most), rim - 48.0;
    PulledBetween(share, room);
    RingBounds(i);
    SumBetween(share * room, room, ((i % 5) as real - 2.0) * 4.0);
  }

  lemma SumNearer(pulled: real, pulledMore: real, ring: real, otherRing: real)
    requires pulled <= pulledMore && ring <= 8.0 && -8.0 <= otherRing
    ensures 48.0 + pulled + ring <= 48.0 + pulledMore + otherRing + 16.0
  {
  }

  lemma StandsNearer(env: Env, a: GraphNode, b: GraphNode, most: nat, rim: real, i: nat, j: nat, p: real, q: real)
    requires PullsInward(env) && b.degree <= a.degree <= most && rim >= 48.0
    requires StandsOut(env, a, most, rim, i, p) && StandsOut(env, b, most, rim, j, q)
    ensures p <= q + 16.0
  {
    assert 0.0 <= env.Pull(a.degree, most) <= env.Pull(b.degree, most);
    var s, t, room := env.Pull(a.degree, most), env.Pull(b.degree, most), rim - 48.0;
    PulledFarther(s, t, room);
    RingBounds(i);
    RingBounds(j);
    SumNearer(s * room, t * room, ((i % 5) as real - 2.0) * 4.0, ((j % 5) as real - 2.0) * 4.0);
  }

  /** Every node of the overview stands between 40 and the rim, give or take 8. */
  lemma BetweenCoreAndRim(env: Env, nodes: seq<GraphNode>, families: seq<Family>, targets: map<int, Target>, most: nat,
                          rim: real, gap: real, sectors: seq<Sector>, n: GraphNode) returns (i: nat)
    requires env.m.Lawful() && PullsInward(env) && ArePartition(families, nodes) && n in nodes
    requires IsOverview(env, nodes, families, targets, most, rim, gap, sectors)
    ensures n.id in targets && 40.0 <= Reach(env.m, targets[n.id]) <= rim + 8.0
    ensures StandsOut(env, n, most, rim, i, Reach(env.m, targets[n.id]))
  {
    var f, k := FindMember(nodes, families, n);
    i := k;
    assert IsFan(env, families[f], sectors[f], targets, most, rim);
    var angles, radii :| FansOut(env, families[f], sectors[f], targets, most, rim, angles, radii);
    StandsBetween(env, n, most, rim, i, radii[i]);
    ReachIsRadius(env.m, targets[n.id], sectors[f], angles[i], radii[i]);
  }

  /** A node with at least as many links as another stands no farther out, but for the rings of 16. */
  lemma LinkedNodesNearer(env: Env, nodes: seq<GraphNode>, families: seq<Family>, targets: map<int, Target>, most: nat,
                          rim: real, gap: real, sectors: seq<Sector>, a: GraphNode, b: GraphNode)
    requires env.m.Lawful() && PullsInward(env) && ArePartition(families, nodes)
    requires IsOverview(env, nodes, families, targets, most, rim, gap, sectors)
    requires a in nodes && b in nodes && a.degree >= b.degree
    ensures a.id in targets && b.id in targets
    ensures Reach(env.m, targets[a.id]) <= Reach(env.m, targets[b.id]) + 16.0
  {
    var i := BetweenCoreAndRim(env, nodes, families, targets, most, rim, gap, sectors, a);
    var j := BetweenCoreAndRim(env, nodes, families, targets, most, rim, gap, sectors, b);
    StandsNearer(env, a, b, most, rim, i, j, Reach(env.m, targets[a.id]), Reach(env.m, targets[b.id]));
  }
}
