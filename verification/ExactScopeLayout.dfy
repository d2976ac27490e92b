/**
 The two-level geometry of an exact scope: clusters are packed within their domain, domains are packed among
 each other, clusters are moved to their domain, and coordinates are rounded to hundredths.
 */
module ExactScopeLayout {
  import opened CirclePacking
  import opened Numbers
  import opened Sorting

  const CLUSTER_GAP := 28.0
  const CLUSTER_SPIRAL_STEP := 44.0
  const DOMAIN_PADDING := 48.0
  const DOMAIN_GAP := 76.0
  const DOMAIN_SPIRAL_STEP := 64.0

  // ----- one domain

  /** Every two of the circles keep `gap` between them. */
  ghost predicate PairwiseApart(m: Math, spots: seq<Spot>, gap: real) {
    forall i, j | 0 <= i < |spots| && 0 <= j < |spots| && i != j :: Apart(m, spots[i], spots[j], gap)
  }

  /** How far the circle reaches from the origin. */
  function Reach(m: Math, s: Spot): real { m.Hypot(s.x, s.y) + s.disc.radius }

  /** The radius leaves the padding around every circle, and is the least whole number that does. */
  ghost predicate TightAround(m: Math, spots: seq<Spot>, radius: real) {
    && (forall i | 0 <= i < |spots| :: Reach(m, spots[i]) + DOMAIN_PADDING <= radius)
    && (exists i :: 0 <= i < |spots| && radius == Ceil(Reach(m, spots[i]) + DOMAIN_PADDING) as real)
  }

  datatype Bounds = Bounds(minX: real, minY: real, maxX: real, maxY: real)

  function BoundsOfOne(s: Spot): Bounds {
    Bounds(s.x - s.disc.radius, s.y - s.disc.radius, s.x + s.disc.radius, s.y + s.disc.radius)
  }

  function Hull(a: Bounds, b: Bounds): Bounds {
    Bounds(Min(a.minX, b.minX), Min(a.minY, b.minY), Max(a.maxX, b.maxX), Max(a.maxY, b.maxY))
  }

  /** The bounding box of the circles. */
  function BoundsOf(spots: seq<Spot>): Bounds
    requires spots != []
  {
    if |spots| == 1 then BoundsOfOne(spots[0])
    else Hull(BoundsOf(spots[..|spots| - 1]), BoundsOfOne(spots[|spots| - 1]))
  }

  /** The box around the circles has its centre at the origin. */
  predicate BoxCentred(spots: seq<Spot>)
    requires spots != []
  {
    BoundsOf(spots).minX + BoundsOf(spots).maxX == 0.0 && BoundsOf(spots).minY + BoundsOf(spots).maxY == 0.0
  }

  function ShiftAll(spots: seq<Spot>, dx: real, dy: real): (r: seq<Spot>)
    ensures |r| == |spots| && forall i | 0 <= i < |spots| ::
              r[i] == spots[i].(x := spots[i].x + dx, y := spots[i].y + dy)
  {
    seq(|spots|, i requires 0 <= i < |spots| => spots[i].(x := spots[i].x + dx, y := spots[i].y + dy))
  }

  lemma {:induction false} ShiftedBounds(spots: seq<Spot>, dx: real, dy: real)
    requires spots != []
    ensures var b := BoundsOf(spots);
            BoundsOf(ShiftAll(spots, dx, dy)) == Bounds(b.minX + dx, b.minY + dy, b.maxX + dx, b.maxY + dy)
  {
    if |spots| > 1 {
      ShiftedBounds(spots[..|spots| - 1], dx, dy);
      assert ShiftAll(spots, dx, dy)[..|spots| - 1] == ShiftAll(spots[..|spots| - 1], dx, dy);
    }
  }

  lemma ShiftedApart(m: Math, spots: seq<Spot>, gap: real, dx: real, dy: real)
    requires PairwiseApart(m, spots, gap)
    ensures PairwiseApart(m, ShiftAll(spots, dx, dy), gap)
  {
    var r := ShiftAll(spots, dx, dy);
    forall i, j | 0 <= i < |r| && 0 <= j < |r| && i != j ensures Apart(m, r[i], r[j], gap) {
      assert Apart(m, spots[i], spots[j], gap);
      assert r[i].x - r[j].x == spots[i].x - spots[j].x && r[i].y - r[j].y == spots[i].y - spots[j].y;
    }
  }

  method BoundingBox(circles: seq<Circle>) returns (b: Bounds)
    requires circles != []
    ensures b == BoundsOf(Positions(circles))
  {
    ghost var spots := Positions(circles);
    b := BoundsOfOne(circles[0].Position());
    assert spots[..1] == [spots[0]];
    for i := 1 to |circles|
      invariant b == BoundsOf(spots[..i])
    {
      PrefixGrows(spots, i);
      var c := circles[i];
      b := Bounds(Min(b.minX, c.x - c.radius), Min(b.minY, c.y - c.radius),
                  Max(b.maxX, c.x + c.radius), Max(b.maxY, c.y + c.radius));
    }
    assert spots[..|circles|] == spots;
  }

  /** Moves every circle by the same amount. */
  method Shift(circles: seq<Circle>, dx: real, dy: real)
    requires Distinct(circles)
    modifies circles
    ensures Positions(circles) == ShiftAll(old(Positions(circles)), dx, dy)
  {
    ghost var was, goal := Positions(circles), ShiftAll(Positions(circles), dx, dy);
    for i := 0 to |circles|
      invariant forall j | 0 <= j < i :: circles[j].Position() == goal[j]
      invariant forall j | i <= j < |circles| :: circles[j].Position() == was[j]
    {
      var c := circles[i];
      c.x, c.y := c.x + dx, c.y + dy;
    }
    assert Positions(circles) == goal;
  }

  /** The farthest reach of the circles. */
  method FarthestReach(m: Math, circles: seq<Circle>) returns (reach: real)
    requires circles != []
    ensures forall i | 0 <= i < |circles| :: Reach(m, Positions(circles)[i]) <= reach
    ensures exists i :: 0 <= i < |circles| && Reach(m, Positions(circles)[i]) == reach
  {
    ghost var spots := Positions(circles);
    reach := m.Hypot(circles[0].x, circles[0].y) + circles[0].radius;
    assert Reach(m, spots[0]) == reach;
    for i := 1 to |circles|
      invariant forall j | 0 <= j < i :: Reach(m, spots[j]) <= reach
      invariant exists j :: 0 <= j < i && Reach(m, spots[j]) == reach
    {
      var c := circles[i];
      assert Reach(m, spots[i]) == m.Hypot(c.x, c.y) + c.radius;
      reach := Max(reach, m.Hypot(c.x, c.y) + c.radius);
    }
  }

  lemma RadiusTight(m: Math, spots: seq<Spot>, reach: real)
    requires m.Lawful() && forall i | 0 <= i < |spots| :: spots[i].disc.radius >= 0.0 && Reach(m, spots[i]) <= reach
    requires exists i :: 0 <= i < |spots| && Reach(m, spots[i]) == reach
    ensures TightAround(m, spots, Ceil(reach + DOMAIN_PADDING) as real)
    ensures Ceil(reach + DOMAIN_PADDING) as real >= 0.0
  {
    var i :| 0 <= i < |spots| && Reach(m, spots[i]) == reach;
    assert m.HypotLaw(spots[i].x, spots[i].y);
  }

  lemma PositionsPairwise(m: Math, circles: seq<Circle>, gap: real)
    requires Distinct(circles)
    requires forall a, b | a in circles && b in circles && a != b :: Apart(m, a.Position(), b.Position(), gap)
    ensures PairwiseApart(m, Positions(circles), gap)
  {
    var spots := Positions(circles);
    forall i, j | 0 <= i < |spots| && 0 <= j < |spots| && i != j ensures Apart(m, spots[i], spots[j], gap) {
      assert circles[i] in circles && circles[j] in circles && circles[i] != circles[j];
    }
  }

  /** The same circles as before, wherever they stand. */
  ghost predicate SameDiscs(spots: seq<Spot>, discs: seq<Disc>) {
    |spots| == |discs| && forall i | 0 <= i < |spots| :: spots[i].disc == discs[i]
  }

  /** The circles stand where packing them along the spiral puts them, in whatever order they are listed. */
  ghost predicate IsSpiral(m: Math, spots: seq<Spot>, gap: real, asked: real) {
    exists packed, step, indices ::
      multiset(spots) == multiset(packed) && IsPacked(m, DiscsOf(spots), gap, asked, packed, step, indices)
  }

  lemma SpiralOfPacked(m: Math, circles: seq<Circle>, gap: real, asked: real)
    requires exists packed, step, indices ::
               multiset(Positions(circles)) == multiset(packed)
               && IsPacked(m, Outlines(circles), gap, asked, packed, step, indices)
    ensures IsSpiral(m, Positions(circles), gap, asked)
  {
    var packed, step, indices :|
      multiset(Positions(circles)) == multiset(packed)
      && IsPacked(m, Outlines(circles), gap, asked, packed, step, indices);
    assert DiscsOf(Positions(circles)) == Outlines(circles);
  }

  method PackApartFrom(m: Math, circles: seq<Circle>, gap: real, step: real)
    requires m.Lawful() && gap >= 0.0 && Distinct(circles)
    requires forall c | c in circles :: c.radius >= 0.0
    modifies circles
    ensures SameDiscs(Positions(circles), old(Outlines(circles)))
    ensures PairwiseApart(m, Positions(circles), gap)
    ensures IsSpiral(m, Positions(circles), gap, step)
  {
    ghost var discs := Outlines(circles);
    PackGraphCircles(m, circles, gap, step);
    PositionsPairwise(m, circles, gap);
    assert Outlines(circles) == discs;
    SpiralOfPacked(m, circles, gap, step);
  }

  lemma ShiftCentres(spots: seq<Spot>, dx: real, dy: real)
    requires spots != []
    requires dx == -(BoundsOf(spots).minX + BoundsOf(spots).maxX) / 2.0
    requires dy == -(BoundsOf(spots).minY + BoundsOf(spots).maxY) / 2.0
    ensures BoxCentred(ShiftAll(spots, dx, dy))
  {
    ShiftedBounds(spots, dx, dy);
  }

  lemma CentredBy(spots: seq<Spot>, b: Bounds, dx: real, dy: real) returns (goal: seq<Spot>)
    requires spots != [] && b == BoundsOf(spots)
    requires dx == -((b.minX + b.maxX) / 2.0) && dy == -((b.minY + b.maxY) / 2.0)
    ensures goal == ShiftAll(spots, dx, dy) && goal != [] && BoxCentred(goal)
  {
    goal := ShiftAll(spots, dx, dy);
    ShiftCentres(spots, dx, dy);
  }

  /** Moves the circles so that the box around them is centred. */
  method Centre(circles: seq<Circle>) returns (ghost dx: real, ghost dy: real)
    requires circles != [] && Distinct(circles)
    modifies circles
    ensures Positions(circles) == ShiftAll(old(Positions(circles)), dx, dy)
    ensures BoxCentred(Positions(circles))
  {
    var b := BoundingBox(circles);
    var centerX, centerY := (b.minX + b.maxX) / 2.0, (b.minY + b.maxY) / 2.0;
    dx, dy := -centerX, -centerY;
    ghost var goal := CentredBy(Positions(circles), b, dx, dy);
    Shift(circles, -centerX, -centerY);
    assert Positions(circles) == goal;
  }

  lemma RadiiOf(circles: seq<Circle>, discs: seq<Disc>)
    requires discs == Outlines(circles) && forall c | c in circles :: c.radius >= 0.0
    ensures forall i | 0 <= i < |discs| :: discs[i].radius >= 0.0
  {
    forall i | 0 <= i < |discs| ensures discs[i].radius >= 0.0 {
      assert circles[i] in circles;
    }
  }

  /**
   The clusters of a domain as they stand around its centre: packed along the spiral, then moved to centre
   their box.
   */
  ghost predicate IsDomain(m: Math, spots: seq<Spot>, radius: real) {
    && spots != [] && BoxCentred(spots) && TightAround(m, spots, radius)
    && exists packed, dx, dy ::
         spots == ShiftAll(packed, dx, dy) && IsSpiral(m, packed, CLUSTER_GAP, CLUSTER_SPIRAL_STEP)
  }

  /** Packs the clusters of one domain around the origin, centres them, and gives the radius of the domain. */
  method PackDomain(m: Math, circles: seq<Circle>) returns (radius: real)
    requires m.Lawful() && circles != [] && Distinct(circles)
    requires forall c | c in circles :: c.radius >= 0.0
    modifies circles
    ensures SameDiscs(Positions(circles), old(Outlines(circles)))
    ensures PairwiseApart(m, Positions(circles), CLUSTER_GAP)
    ensures BoxCentred(Positions(circles))
    ensures TightAround(m, Positions(circles), radius) && radius >= 0.0
    ensures IsDomain(m, Positions(circles), radius)
  {
    ghost var discs := Outlines(circles);
    RadiiOf(circles, discs);
    PackApartFrom(m, circles, CLUSTER_GAP, CLUSTER_SPIRAL_STEP);
    ghost var packed := Positions(circles);
    ghost var dx, dy := Centre(circles);
    ShiftedApart(m, packed, CLUSTER_GAP, dx, dy);
    ghost var spots := Positions(circles);
    assert SameDiscs(spots, discs);
    var reach := FarthestReach(m, circles);
    radius := Ceil(reach + DOMAIN_PADDING) as real;
    RadiusTight(m, spots, reach);
  }

  // ----- the two levels together

  /** A circle of the finished layout. */
  function Rounded(s: Spot): Spot { s.(x := RoundGraphCoordinate(s.x), y := RoundGraphCoordinate(s.y)) }

  /** `inner` moved to where `outer` stands. */
  function Moved(inner: Spot, outer: Spot): Spot { inner.(x := inner.x + outer.x, y := inner.y + outer.y) }

  /** The circle lies inside the other with the padding to spare. */
  predicate InsidePadded(m: Math, inner: Spot, outer: Spot) {
    m.Hypot(inner.x - outer.x, inner.y - outer.y) + inner.disc.radius + DOMAIN_PADDING <= outer.disc.radius
  }

  /** A cluster packed around its domain's centre lies inside the domain wherever that is put. */
  lemma MovedInside(m: Math, inner: Spot, outer: Spot)
    requires Reach(m, inner) + DOMAIN_PADDING <= outer.disc.radius
    ensures InsidePadded(m, Moved(inner, outer), outer)
  {
    assert inner.x + outer.x - outer.x == inner.x && inner.y + outer.y - outer.y == inner.y;
  }

  /** Clusters of two domains that keep the domain gap are farther apart by twice the padding. */
  lemma MovedApart(m: Math, a: Spot, b: Spot, p: Spot, q: Spot)
    requires m.Lawful() && Apart(m, p, q, DOMAIN_GAP)
    requires Reach(m, a) + DOMAIN_PADDING <= p.disc.radius && Reach(m, b) + DOMAIN_PADDING <= q.disc.radius
    ensures Apart(m, Moved(a, p), Moved(b, q), DOMAIN_GAP + 2.0 * DOMAIN_PADDING)
  {
    var x, y := p.x - q.x, p.y - q.y;
    Numbers.MovedApart(m, x, y, a.x, a.y, b.x, b.y);
    assert (x + a.x) - b.x == a.x + p.x - (b.x + q.x) && (y + a.y) - b.y == a.y + p.y - (b.y + q.y);
  }

  /** Rounding both circles to hundredths cannot bring circles with a gap of 28 into contact. */
  lemma RoundedApart(m: Math, a: Spot, b: Spot, gap: real)
    requires m.Lawful() && Apart(m, a, b, gap)
    ensures Apart(m, Rounded(a), Rounded(b), gap - 0.02)
  {
    var ra, rb := Rounded(a), Rounded(b);
    var aX, aY, bX, bY := ra.x - a.x, ra.y - a.y, rb.x - b.x, rb.y - b.y;
    HypotBound(m, aX, aY, 0.005);
    HypotBound(m, bX, bY, 0.005);
    Numbers.MovedApart(m, a.x - b.x, a.y - b.y, aX, aY, bX, bY);
    assert ((a.x - b.x) + aX) - bX == ra.x - rb.x && ((a.y - b.y) + aY) - bY == ra.y - rb.y;
  }

  /** Which domain each cluster belongs to, by index; every domain owns at least one cluster. */
  ghost predicate Owned(owner: seq<nat>, clusters: nat, domains: nat) {
    && |owner| == clusters && (forall k | 0 <= k < clusters :: owner[k] < domains)
    && (forall d: nat | d < domains :: d in owner)
  }

  /** The geometry of a scope: clusters and domains before rounding. */
  datatype Layout = Layout(clusters: seq<Spot>, domains: seq<Spot>)

  ghost predicate WellLaid(m: Math, l: Layout, owner: seq<nat>)
    requires Owned(owner, |l.clusters|, |l.domains|)
  {
    && (forall k | 0 <= k < |l.clusters| :: InsidePadded(m, l.clusters[k], l.domains[owner[k]]))
    && (forall j, k | 0 <= j < |l.clusters| && 0 <= k < |l.clusters| && j != k && owner[j] == owner[k] ::
          Apart(m, l.clusters[j], l.clusters[k], CLUSTER_GAP))
    && (forall j, k | 0 <= j < |l.clusters| && 0 <= k < |l.clusters| && owner[j] != owner[k] ::
          Apart(m, l.clusters[j], l.clusters[k], DOMAIN_GAP + 2.0 * DOMAIN_PADDING))
    && (forall d, e | 0 <= d < |l.domains| && 0 <= e < |l.domains| && d != e ::
          Apart(m, l.domains[d], l.domains[e], DOMAIN_GAP))
  }

  function RoundedAll(spots: seq<Spot>): (r: seq<Spot>)
    ensures |r| == |spots| && forall i | 0 <= i < |spots| :: r[i] == Rounded(spots[i])
  {
    seq(|spots|, i requires 0 <= i < |spots| => Rounded(spots[i]))
  }

  /** In the finished layout no two cluster circles touch: 27.98 is left of the gap of 28. */
  lemma RoundedDisjoint(m: Math, l: Layout, owner: seq<nat>, j: nat, k: nat)
    requires m.Lawful() && Owned(owner, |l.clusters|, |l.domains|) && WellLaid(m, l, owner)
    requires j < |l.clusters| && k < |l.clusters| && j != k
    ensures Apart(m, RoundedAll(l.clusters)[j], RoundedAll(l.clusters)[k], CLUSTER_GAP - 0.02)
  {
    RoundedApart(m, l.clusters[j], l.clusters[k], CLUSTER_GAP);
  }

  // ----- the loops over domains and clusters

  /** The elements that belong to `d`, in order. */
  function Pick<T>(s: seq<T>, owner: seq<nat>, d: nat): seq<T>
    requires |owner| == |s|
  {
    if s == [] then []
    else
      var last := |s| - 1;
      Pick(s[..last], owner[..last], d) + if owner[last] == d then [s[last]] else []
  }

  lemma PickNext<T>(s: seq<T>, owner: seq<nat>, d: nat, k: nat)
    requires |owner| == |s| && k < |s|
    ensures Pick(s[..k + 1], owner[..k + 1], d) == Pick(s[..k], owner[..k], d) + if owner[k] == d then [s[k]] else []
  {
    PrefixGrows(s, k);
    PrefixGrows(owner, k);
  }

  lemma {:induction false} PickSame<T>(s: seq<T>, t: seq<T>, owner: seq<nat>, d: nat)
    requires |owner| == |s| == |t| && forall k | 0 <= k < |s| && owner[k] == d :: s[k] == t[k]
    ensures Pick(s, owner, d) == Pick(t, owner, d)
  {
    if s != [] {
      var last := |s| - 1;
      PickSame(s[..last], t[..last], owner[..last], d);
    }
  }

  lemma {:induction false} PickPositions(circles: seq<Circle>, owner: seq<nat>, d: nat)
    requires |owner| == |circles|
    ensures Positions(Pick(circles, owner, d)) == Pick(Positions(circles), owner, d)
  {
    if circles != [] {
      var last := |circles| - 1;
      PickPositions(circles[..last], owner[..last], d);
      assert Positions(circles)[..last] == Positions(circles[..last]);
    }
  }

  /** The circles of one domain, in order, and their indices. */
  method Members(circles: seq<Circle>, owner: seq<nat>, d: nat) returns (members: seq<nat>, group: seq<Circle>)
    requires |owner| == |circles| && Distinct(circles)
    ensures |group| == |members| && Distinct(group)
    ensures forall i | 0 <= i < |members| ::
              members[i] < |circles| && owner[members[i]] == d && group[i] == circles[members[i]]
    ensures forall k | 0 <= k < |circles| && owner[k] == d :: k in members
    ensures group == Pick(circles, owner, d)
  {
    members, group := [], [];
    for k := 0 to |circles|
      invariant |group| == |members| && Distinct(group)
      invariant forall i | 0 <= i < |members| ::
          members[i] < k && owner[members[i]] == d && group[i] == circles[members[i]]
      invariant forall j | 0 <= j < k && owner[j] == d :: j in members
      invariant group == Pick(circles[..k], owner[..k], d)
    {
      PickNext(circles, owner, d, k);
      if owner[k] == d {
        members, group := members + [k], group + [circles[k]];
      }
    }
    assert circles[..|circles|] == circles && owner[..|circles|] == owner;
  }

  /** The circles of domain `d` fit around the origin with the padding inside `radius`, the gap between them. */
  ghost predicate DomainFits(m: Math, spots: seq<Spot>, owner: seq<nat>, d: nat, radius: real)
    requires |owner| == |spots|
  {
    && (forall k | 0 <= k < |spots| && owner[k] == d :: Reach(m, spots[k]) + DOMAIN_PADDING <= radius)
    && (forall j, k | 0 <= j < |spots| && 0 <= k < |spots| && j != k && owner[j] == owner[k] == d ::
          Apart(m, spots[j], spots[k], CLUSTER_GAP))
  }

  lemma GroupFits(m: Math, spots: seq<Spot>, owner: seq<nat>, d: nat, radius: real, members: seq<nat>,
                  packed: seq<Spot>)
    requires |owner| == |spots| && |members| == |packed|
    requires forall i | 0 <= i < |members| :: members[i] < |spots| && spots[members[i]] == packed[i]
    requires forall k | 0 <= k < |spots| && owner[k] == d :: k in members
    requires PairwiseApart(m, packed, CLUSTER_GAP) && TightAround(m, packed, radius)
    ensures DomainFits(m, spots, owner, d, radius)
  {
    forall k | 0 <= k < |spots| && owner[k] == d ensures Reach(m, spots[k]) + DOMAIN_PADDING <= radius {
      var i :| 0 <= i < |members| && members[i] == k;
      assert Reach(m, packed[i]) + DOMAIN_PADDING <= radius;
    }
    forall j, k | 0 <= j < |spots| && 0 <= k < |spots| && j != k && owner[j] == owner[k] == d
      ensures Apart(m, spots[j], spots[k], CLUSTER_GAP)
    {
      var i :| 0 <= i < |members| && members[i] == j;
      var l :| 0 <= l < |members| && members[l] == k;
      assert Apart(m, packed[i], packed[l], CLUSTER_GAP);
    }
  }

  method PackGroup(m: Math, group: seq<Circle>) returns (radius: real)
    requires m.Lawful() && group != [] && Distinct(group)
    requires forall c | c in group :: c.radius >= 0.0
    modifies group
    ensures forall c | c in group :: c.Outline() == old(c.Outline())
    ensures radius >= 0.0
    ensures PairwiseApart(m, Positions(group), CLUSTER_GAP) && TightAround(m, Positions(group), radius)
    ensures IsDomain(m, Positions(group), radius)
  {
    radius := PackDomain(m, group);
    forall c | c in group ensures c.Outline() == old(c.Outline()) {
      ghost var i :| 0 <= i < |group| && group[i] == c;
      assert Positions(group)[i].disc == old(Outlines(group))[i];
    }
  }

  lemma OthersStay(circles: seq<Circle>, owner: seq<nat>, d: nat, members: seq<nat>, group: seq<Circle>, k: nat)
    requires |owner| == |circles| && Distinct(circles) && |group| == |members|
    requires forall i | 0 <= i < |members| ::
               members[i] < |circles| && owner[members[i]] == d && group[i] == circles[members[i]]
    requires k < |circles| && owner[k] != d
    ensures circles[k] !in group
  {
    forall i | 0 <= i < |group| ensures group[i] != circles[k] {
      assert members[i] != k;
    }
  }

  /** Packs the group; every circle keeps its outline, and those outside the group stay where they are. */
  method PackMembers(m: Math, circles: seq<Circle>, owner: seq<nat>, d: nat, ghost members: seq<nat>,
                     group: seq<Circle>)
    returns (radius: real)
    requires m.Lawful() && |owner| == |circles| && Distinct(circles) && group != [] && Distinct(group)
    requires |group| == |members| && forall i | 0 <= i < |members| ::
               members[i] < |circles| && owner[members[i]] == d && group[i] == circles[members[i]]
    requires forall c | c in circles :: c.radius >= 0.0
    modifies circles
    ensures Outlines(circles) == old(Outlines(circles)) && radius >= 0.0
    ensures forall k | 0 <= k < |circles| && owner[k] != d :: circles[k].Position() == old(circles[k].Position())
    ensures PairwiseApart(m, Positions(group), CLUSTER_GAP) && TightAround(m, Positions(group), radius)
    ensures IsDomain(m, Positions(group), radius)
  {
    radius := PackGroup(m, group);
    forall k | 0 <= k < |circles|
      ensures circles[k].Outline() == old(circles[k].Outline())
      ensures owner[k] != d ==> circles[k].Position() == old(circles[k].Position())
    {
      if owner[k] != d {
        OthersStay(circles, owner, d, members, group, k);
      }
      assert circles[k] in group || circles[k] !in group;
    }
  }

  /** The circles of domain `d` fit its radius and stand as they were packed and centred. */
  ghost predicate DomainDone(m: Math, spots: seq<Spot>, owner: seq<nat>, d: nat, radius: real)
    requires |owner| == |spots|
  {
    DomainFits(m, spots, owner, d, radius) && IsDomain(m, Pick(spots, owner, d), radius)
  }

  lemma GroupStands(m: Math, circles: seq<Circle>, owner: seq<nat>, d: nat, radius: real, members: seq<nat>,
                    group: seq<Circle>)
    requires |owner| == |circles| && |group| == |members| && group == Pick(circles, owner, d)
    requires forall i | 0 <= i < |members| :: members[i] < |circles| && group[i] == circles[members[i]]
    requires forall k | 0 <= k < |circles| && owner[k] == d :: k in members
    requires PairwiseApart(m, Positions(group), CLUSTER_GAP) && IsDomain(m, Positions(group), radius)
    ensures DomainDone(m, Positions(circles), owner, d, radius)
  {
    PickPositions(circles, owner, d);
    GroupFits(m, Positions(circles), owner, d, radius, members, Positions(group));
  }

  /** Packs the clusters of domain `d`; the clusters of the others stay where they are. */
  method PackOneDomain(m: Math, circles: seq<Circle>, owner: seq<nat>, d: nat) returns (radius: real)
    requires m.Lawful() && |owner| == |circles| && Distinct(circles) && d in owner
    requires forall c | c in circles :: c.radius >= 0.0
    modifies circles
    ensures Outlines(circles) == old(Outlines(circles)) && radius >= 0.0
    ensures forall k | 0 <= k < |circles| && owner[k] != d :: circles[k].Position() == old(circles[k].Position())
    ensures DomainDone(m, Positions(circles), owner, d, radius)
  {
    var members, group := Members(circles, owner, d);
    assert group != [];
    radius := PackMembers(m, circles, owner, d, members, group);
    GroupStands(m, circles, owner, d, radius, members, group);
  }

  method NewCircles(discs: seq<Disc>) returns (circles: seq<Circle>)
    ensures Distinct(circles) && fresh(circles) && Outlines(circles) == discs
  {
    circles := [];
    for i := 0 to |discs|
      invariant |circles| == i && Distinct(circles) && fresh(circles)
      invariant forall j | 0 <= j < i :: circles[j].Outline() == discs[j]
    {
      var c := new Circle(discs[i].key, discs[i].radius);
      circles := circles + [c];
    }
    assert Outlines(circles) == discs;
  }

  /** The first `n` domains are packed: their radii are known and their clusters fit. */
  ghost predicate DomainsPacked(m: Math, spots: seq<Spot>, owner: seq<nat>, radii: seq<real>, n: nat) {
    && |owner| == |spots| && |radii| == n
    && forall d | 0 <= d < n :: radii[d] >= 0.0 && DomainFits(m, spots, owner, d, radii[d])
  }

  /** And each of them stands as it was packed and centred. */
  ghost predicate DomainsStand(m: Math, spots: seq<Spot>, owner: seq<nat>, radii: seq<real>, n: nat) {
    && |owner| == |spots| && |radii| == n
    && forall d | 0 <= d < n :: IsDomain(m, Pick(spots, owner, d), radii[d])
  }

  lemma OneMorePacked(m: Math, spots: seq<Spot>, after: seq<Spot>, owner: seq<nat>, radii: seq<real>, radius: real)
    requires DomainsPacked(m, spots, owner, radii, |radii|) && |after| == |spots|
    requires forall k | 0 <= k < |spots| && owner[k] != |radii| :: after[k] == spots[k]
    requires DomainFits(m, after, owner, |radii|, radius) && radius >= 0.0
    ensures DomainsPacked(m, after, owner, radii + [radius], |radii| + 1)
  {
    forall d | 0 <= d <= |radii| ensures DomainFits(m, after, owner, d, (radii + [radius])[d]) {
      if d < |radii| {
        assert DomainFits(m, spots, owner, d, radii[d]);
      }
    }
  }

  lemma OneMoreStands(m: Math, spots: seq<Spot>, after: seq<Spot>, owner: seq<nat>, radii: seq<real>, radius: real)
    requires DomainsStand(m, spots, owner, radii, |radii|) && |after| == |spots|
    requires forall k | 0 <= k < |spots| && owner[k] != |radii| :: after[k] == spots[k]
    requires IsDomain(m, Pick(after, owner, |radii|), radius)
    ensures DomainsStand(m, after, owner, radii + [radius], |radii| + 1)
  {
    forall d | 0 <= d <= |radii| ensures IsDomain(m, Pick(after, owner, d), (radii + [radius])[d]) {
      if d < |radii| {
        PickSame(spots, after, owner, d);
      }
    }
  }

  /** Packs the clusters of every domain around the origin. */
  method PackDomains(m: Math, circles: seq<Circle>, owner: seq<nat>, domains: nat) returns (radii: seq<real>)
    requires m.Lawful() && Owned(owner, |circles|, domains) && Distinct(circles)
    requires forall i | 0 <= i < |circles| :: Outlines(circles)[i].radius >= 0.0
    modifies circles
    ensures Outlines(circles) == old(Outlines(circles))
    ensures DomainsPacked(m, Positions(circles), owner, radii, domains)
    ensures DomainsStand(m, Positions(circles), owner, radii, domains)
  {
    radii := [];
    ghost var outlines := Outlines(circles);
    for d := 0 to domains
      invariant Outlines(circles) == outlines
      invariant DomainsPacked(m, Positions(circles), owner, radii, d)
      invariant DomainsStand(m, Positions(circles), owner, radii, d)
    {
      ghost var before := Positions(circles);
      forall c | c in circles ensures c.radius >= 0.0 {
        ghost var i :| 0 <= i < |circles| && circles[i] == c;
        assert outlines[i] == c.Outline();
      }
      var radius := PackOneDomain(m, circles, owner, d);
      OneMorePacked(m, before, Positions(circles), owner, radii, radius);
      OneMoreStands(m, before, Positions(circles), owner, radii, radius);
      radii := radii + [radius];
    }
  }

  /** Every cluster moved to where its domain stands. */
  function MovedAll(spots: seq<Spot>, owner: seq<nat>, domains: seq<Spot>): (r: seq<Spot>)
    requires Owned(owner, |spots|, |domains|)
    ensures |r| == |spots| && forall k | 0 <= k < |spots| :: r[k] == Moved(spots[k], domains[owner[k]])
  {
    seq(|spots|, k requires 0 <= k < |spots| => Moved(spots[k], domains[owner[k]]))
  }

  /** Clusters that fit their domains, moved to domains that are packed, make a layout as promised. */
  lemma MovedWellLaid(m: Math, spots: seq<Spot>, owner: seq<nat>, radii: seq<real>, domains: seq<Spot>)
    requires m.Lawful() && Owned(owner, |spots|, |domains|)
    requires DomainsPacked(m, spots, owner, radii, |domains|)
    requires forall d | 0 <= d < |domains| :: domains[d].disc.radius == radii[d]
    requires PairwiseApart(m, domains, DOMAIN_GAP)
    ensures WellLaid(m, Layout(MovedAll(spots, owner, domains), domains), owner)
  {
    var r := MovedAll(spots, owner, domains);
    forall k | 0 <= k < |r| ensures InsidePadded(m, r[k], domains[owner[k]]) {
      assert DomainFits(m, spots, owner, owner[k], radii[owner[k]]);
      MovedInside(m, spots[k], domains[owner[k]]);
    }
    forall j, k | 0 <= j < |r| && 0 <= k < |r| && j != k && owner[j] == owner[k]
      ensures Apart(m, r[j], r[k], CLUSTER_GAP)
    {
      assert DomainFits(m, spots, owner, owner[k], radii[owner[k]]);
      assert Apart(m, spots[j], spots[k], CLUSTER_GAP);
      assert r[j].x - r[k].x == spots[j].x - spots[k].x && r[j].y - r[k].y == spots[j].y - spots[k].y;
    }
    forall j, k | 0 <= j < |r| && 0 <= k < |r| && owner[j] != owner[k]
      ensures Apart(m, r[j], r[k], DOMAIN_GAP + 2.0 * DOMAIN_PADDING)
    {
      assert DomainFits(m, spots, owner, owner[j], radii[owner[j]]);
      assert DomainFits(m, spots, owner, owner[k], radii[owner[k]]);
      MovedApart(m, spots[j], spots[k], domains[owner[j]], domains[owner[k]]);
    }
  }

  /** Moves the clusters, domain by domain, to where their domains stand. */
  method MoveClusters(circles: seq<Circle>, owner: seq<nat>, domains: seq<Spot>)
    requires Owned(owner, |circles|, |domains|) && Distinct(circles)
    modifies circles
    ensures Positions(circles) == MovedAll(old(Positions(circles)), owner, domains)
  {
    ghost var was, goal := Positions(circles), MovedAll(Positions(circles), owner, domains);
    for d := 0 to |domains|
      invariant forall k | 0 <= k < |circles| ::
          circles[k].Position() == if owner[k] < d then goal[k] else was[k]
    {
      for k := 0 to |circles|
        invariant forall j | 0 <= j < |circles| ::
            circles[j].Position() == if owner[j] < d || (owner[j] == d && j < k) then goal[j] else was[j]
      {
        if owner[k] == d {
          var c := circles[k];
          c.x, c.y := c.x + domains[d].x, c.y + domains[d].y;
        }
      }
    }
    assert Positions(circles) == goal;
  }

  function DomainDiscs(keys: seq<string>, radii: seq<real>): (r: seq<Disc>)
    requires |keys| == |radii|
    ensures |r| == |keys| && forall d | 0 <= d < |r| :: r[d] == Disc(keys[d], radii[d])
  {
    seq(|keys|, d requires 0 <= d < |keys| => Disc(keys[d], radii[d]))
  }

  lemma RadiiOfDomains(circles: seq<Circle>, radii: seq<real>)
    requires |circles| == |radii| && forall d | 0 <= d < |radii| :: circles[d].radius == radii[d] >= 0.0
    ensures forall c | c in circles :: c.radius >= 0.0
  {
  }

  /**
   Where everything stands: the domains follow the spiral among each other, and every domain's clusters are those of
   `local`, packed around its centre with the radius that encloses them, moved to where the domain stands.
   */
  ghost predicate LaidOut(m: Math, l: Layout, owner: seq<nat>, local: seq<Spot>)
    requires Owned(owner, |l.clusters|, |l.domains|)
  {
    && |local| == |l.clusters| && l.clusters == MovedAll(local, owner, l.domains)
    && IsSpiral(m, l.domains, DOMAIN_GAP, DOMAIN_SPIRAL_STEP)
    && forall d | 0 <= d < |l.domains| :: IsDomain(m, Pick(local, owner, d), l.domains[d].disc.radius)
  }

  /** Packs the domains among each other. */
  method PlaceDomains(m: Math, keys: seq<string>, radii: seq<real>) returns (domains: seq<Spot>)
    requires m.Lawful() && |keys| == |radii| && forall d | 0 <= d < |radii| :: radii[d] >= 0.0
    ensures SameDiscs(domains, DomainDiscs(keys, radii))
    ensures PairwiseApart(m, domains, DOMAIN_GAP) && IsSpiral(m, domains, DOMAIN_GAP, DOMAIN_SPIRAL_STEP)
  {
    var circles := NewCircles(DomainDiscs(keys, radii));
    RadiiOfDomains(circles, radii);
    PackApartFrom(m, circles, DOMAIN_GAP, DOMAIN_SPIRAL_STEP);
    domains := Positions(circles);
  }

  /** What is known of the two levels before the clusters are moved to their domains. */
  ghost predicate BothPacked(m: Math, packed: seq<Spot>, owner: seq<nat>, radii: seq<real>, domains: seq<Spot>) {
    && |owner| == |packed| && Owned(owner, |packed|, |domains|)
    && DomainsPacked(m, packed, owner, radii, |domains|) && DomainsStand(m, packed, owner, radii, |domains|)
    && (forall d | 0 <= d < |domains| :: domains[d].disc.radius == radii[d])
    && PairwiseApart(m, domains, DOMAIN_GAP) && IsSpiral(m, domains, DOMAIN_GAP, DOMAIN_SPIRAL_STEP)
  }

  lemma LayoutFinished(m: Math, packed: seq<Spot>, owner: seq<nat>, radii: seq<real>, domains: seq<Spot>, l: Layout)
    requires m.Lawful() && BothPacked(m, packed, owner, radii, domains)
    requires l == Layout(MovedAll(packed, owner, domains), domains)
    ensures WellLaid(m, l, owner) && exists local :: LaidOut(m, l, owner, local)
  {
    MovedWellLaid(m, packed, owner, radii, domains);
    assert LaidOut(m, l, owner, packed);
  }

  /** Packs new circles for the clusters, domain by domain. */
  method PackClusters(m: Math, clusters: seq<Disc>, owner: seq<nat>, domains: nat)
    returns (circles: seq<Circle>, radii: seq<real>)
    requires m.Lawful() && Owned(owner, |clusters|, domains)
    requires forall i | 0 <= i < |clusters| :: clusters[i].radius >= 0.0
    ensures Distinct(circles) && fresh(circles) && SameDiscs(Positions(circles), clusters)
    ensures DomainsPacked(m, Positions(circles), owner, radii, domains)
    ensures DomainsStand(m, Positions(circles), owner, radii, domains)
  {
    circles := NewCircles(clusters);
    radii := PackDomains(m, circles, owner, domains);
    assert Outlines(circles) == clusters;
  }

  /** Packs both levels. */
  method PackBoth(m: Math, clusters: seq<Disc>, owner: seq<nat>, domainKeys: seq<string>)
    returns (circles: seq<Circle>, domains: seq<Spot>, ghost radii: seq<real>)
    requires m.Lawful() && Owned(owner, |clusters|, |domainKeys|)
    requires forall i | 0 <= i < |clusters| :: clusters[i].radius >= 0.0
    ensures Distinct(circles) && fresh(circles) && SameDiscs(Positions(circles), clusters)
    ensures |domains| == |domainKeys| && forall d | 0 <= d < |domainKeys| :: domains[d].disc.key == domainKeys[d]
    ensures BothPacked(m, Positions(circles), owner, radii, domains)
  {
    var known;
    circles, known := PackClusters(m, clusters, owner, |domainKeys|);
    domains := PlaceDomains(m, domainKeys, known);
    radii := known;
  }

  /**
   The whole geometry before rounding, for domains that each own a cluster: every cluster inside its domain
   with the padding to spare, the gaps between clusters and between domains kept, and both levels packed along the
   spiral.
   */
  method LayoutScope(m: Math, clusters: seq<Disc>, owner: seq<nat>, domainKeys: seq<string>) returns (l: Layout)
    requires m.Lawful() && Owned(owner, |clusters|, |domainKeys|)
    requires forall i | 0 <= i < |clusters| :: clusters[i].radius >= 0.0
    ensures SameDiscs(l.clusters, clusters)
    ensures |l.domains| == |domainKeys| && forall d | 0 <= d < |domainKeys| :: l.domains[d].disc.key == domainKeys[d]
    ensures WellLaid(m, l, owner)
    ensures exists local :: LaidOut(m, l, owner, local)
  {
    var circles, domains;
    ghost var radii;
    circles, domains, radii := PackBoth(m, clusters, owner, domainKeys);
    ghost var packed := Positions(circles);
    MoveClusters(circles, owner, domains);
    l := Layout(Positions(circles), domains);
    LayoutFinished(m, packed, owner, radii, domains, l);
  }

  // ----- a node inside its cluster

  /** How far from its cluster's centre a node goes; structural nodes stay in the inner third. */
  function NodeRadius(m: Math, cluster: Spot, radialUnit: real, structural: bool): real {
    m.Sqrt(radialUnit) * Max(0.0, cluster.disc.radius - 18.0) * (if structural then 0.34 else 1.0)
  }

  /** A displacement from the cluster's centre, rounded. */
  function Displaced(cluster: Spot, dx: real, dy: real): Spot {
    cluster.(x := RoundGraphCoordinate(cluster.x + dx), y := RoundGraphCoordinate(cluster.y + dy))
  }

  function FullTurn(m: Math, unit: real): real { unit * m.pi * 2.0 }

  function Polar(m: Math, cluster: Spot, angle: real, radius: real): Spot {
    Displaced(cluster, Scaled(m.Cos(angle), radius), Scaled(m.Sin(angle), radius))
  }

  /** The distance from a point to the cluster's centre. */
  function FromCentre(m: Math, cluster: Spot, p: Spot): real { m.Hypot(p.x - cluster.x, p.y - cluster.y) }

  /** Where a node of the cluster goes: `radialUnit` and `angularUnit` are the two hashes scaled to [0, 1). */
  function NodePosition(m: Math, cluster: Spot, radialUnit: real, angularUnit: real, structural: bool): Spot {
    Polar(m, cluster, FullTurn(m, angularUnit), NodeRadius(m, cluster, radialUnit, structural))
  }

  lemma UnitSqrt(m: Math, u: real)
    requires m.Lawful() && 0.0 <= u < 1.0
    ensures 0.0 <= m.Sqrt(u) <= 1.0
  {
    assert m.SqrtLaw(u);
    if m.Sqrt(u) > 1.0 {
      ProductGrows(1.0, m.Sqrt(u));
    }
  }

  lemma ProductBetween(q: real, r: real)
    requires 0.0 <= q <= 1.0 && r >= 0.0
    ensures 0.0 <= q * r <= r
  {
    if 0.0 < r {
      if q < 1.0 { ScaleLess(q, 1.0, r); }
      if 0.0 < q { ScaleLess(0.0, q, r); }
    }
  }

  lemma ScaledDown(q: real, r: real, scale: real)
    requires 0.0 <= q <= 1.0 && r >= 0.0 && 0.0 <= scale <= 1.0
    ensures 0.0 <= q * r * scale <= r
  {
    ProductBetween(q, r);
    ProductBetween(scale, q * r);
    assert q * r * scale == scale * (q * r);
  }

  lemma NodeRadiusBound(m: Math, cluster: Spot, radialUnit: real, structural: bool)
    requires m.Lawful() && 0.0 <= radialUnit < 1.0 && cluster.disc.radius >= 18.0
    ensures 0.0 <= NodeRadius(m, cluster, radialUnit, structural) <= cluster.disc.radius - 18.0
  {
    UnitSqrt(m, radialUnit);
    ScaledDown(m.Sqrt(radialUnit), Max(0.0, cluster.disc.radius - 18.0), if structural then 0.34 else 1.0);
  }

  lemma DisplacedNear(m: Math, cluster: Spot, dx: real, dy: real)
    requires m.Lawful()
    ensures FromCentre(m, cluster, Displaced(cluster, dx, dy)) <= m.Hypot(dx, dy) + 0.02
  {
    var ex := RoundGraphCoordinate(cluster.x + dx) - (cluster.x + dx);
    var ey := RoundGraphCoordinate(cluster.y + dy) - (cluster.y + dy);
    HypotBound(m, ex, ey, 0.005);
    Triangle(m, dx, dy, ex, ey);
    assert dx + ex == RoundGraphCoordinate(cluster.x + dx) - cluster.x;
    assert dy + ey == RoundGraphCoordinate(cluster.y + dy) - cluster.y;
  }

  lemma AtAngle(m: Math, cluster: Spot, angle: real, radius: real)
    requires m.Lawful() && radius >= 0.0
    ensures FromCentre(m, cluster, Polar(m, cluster, angle, radius)) <= radius + 0.02
  {
    PolarLength(m, angle, radius);
    DisplacedNear(m, cluster, Scaled(m.Cos(angle), radius), Scaled(m.Sin(angle), radius));
  }

  /** A positioned node lies inside its cluster's circle, 17.98 away from the rim at least. */
  lemma NodeInsideCluster(m: Math, cluster: Spot, radialUnit: real, angularUnit: real, structural: bool)
    requires m.Lawful() && 0.0 <= radialUnit < 1.0 && cluster.disc.radius >= 18.0
    ensures FromCentre(m, cluster, NodePosition(m, cluster, radialUnit, angularUnit, structural))
         <= cluster.disc.radius - 17.98
  {
    NodeRadiusBound(m, cluster, radialUnit, structural);
    AtAngle(m, cluster, FullTurn(m, angularUnit), NodeRadius(m, cluster, radialUnit, structural));
  }

  /** The room a node has around its cluster's centre: structural nodes stay in the inner third. */
  function Room(cluster: Spot, structural: bool): real {
    (cluster.disc.radius - 18.0) * (if structural then 0.34 else 1.0)
  }

  /** `r` takes the share of the room that fills the disc evenly: the share of the area is the hash. */
  ghost predicate FillsEvenly(r: real, room: real, radialUnit: real) {
    r >= 0.0 && r * r == radialUnit * (room * room)
  }

  lemma SquareOfProduct(q: real, room: real, u: real)
    requires q * q == u
    ensures (q * room) * (q * room) == u * (room * room)
  {
    assert (q * room) * (q * room) == (q * q) * (room * room);
  }

  lemma NodeRadiusFills(m: Math, cluster: Spot, radialUnit: real, structural: bool)
    requires m.Lawful() && 0.0 <= radialUnit < 1.0 && cluster.disc.radius >= 18.0
    ensures FillsEvenly(NodeRadius(m, cluster, radialUnit, structural), Room(cluster, structural), radialUnit)
  {
    NodeRadiusBound(m, cluster, radialUnit, structural);
    assert m.SqrtLaw(radialUnit);
    var q, inner, third := m.Sqrt(radialUnit), cluster.disc.radius - 18.0, if structural then 0.34 else 1.0;
    SquareOfProduct(q, inner * third, radialUnit);
    assert q * inner * third == q * (inner * third);
  }

  lemma NearDisplaced(m: Math, cluster: Spot, dx: real, dy: real)
    requires m.Lawful()
    ensures FromCentre(m, cluster, Displaced(cluster, dx, dy)) >= m.Hypot(dx, dy) - 0.02
  {
    var p := Displaced(cluster, dx, dy);
    var ex, ey := cluster.x + dx - p.x, cluster.y + dy - p.y;
    HypotBound(m, ex, ey, 0.005);
    Triangle(m, p.x - cluster.x, p.y - cluster.y, ex, ey);
    assert (p.x - cluster.x) + ex == dx && (p.y - cluster.y) + ey == dy;
  }

  /** The point is the one displaced from the cluster's centre, rounded to hundredths. */
  predicate RoundedFrom(cluster: Spot, p: Spot, dx: real, dy: real) {
    && -0.005 < p.x - (cluster.x + dx) <= 0.005 && -0.005 < p.y - (cluster.y + dy) <= 0.005
    && (p.x * 100.0).Floor as real == p.x * 100.0 && (p.y * 100.0).Floor as real == p.y * 100.0
  }

  lemma DisplacedRounded(cluster: Spot, dx: real, dy: real)
    ensures RoundedFrom(cluster, Displaced(cluster, dx, dy), dx, dy)
  {
  }

  /** The point is the one at this angle and distance from the cluster's centre, rounded to hundredths. */
  predicate RoundedPolar(m: Math, cluster: Spot, p: Spot, angle: real, r: real) {
    RoundedFrom(cluster, p, Scaled(m.Cos(angle), r), Scaled(m.Sin(angle), r))
  }

  lemma PolarRounded(m: Math, cluster: Spot, angle: real, r: real)
    ensures RoundedPolar(m, cluster, Polar(m, cluster, angle, r), angle, r)
  {
    DisplacedRounded(cluster, Scaled(m.Cos(angle), r), Scaled(m.Sin(angle), r));
  }

  /** How far the point at an angle and a distance is from the centre after the rounding. */
  lemma PolarDistance(m: Math, cluster: Spot, angle: real, r: real)
    requires m.Lawful() && r >= 0.0
    ensures -0.02 <= FromCentre(m, cluster, Polar(m, cluster, angle, r)) - r <= 0.02
  {
    AtAngle(m, cluster, angle, r);
    PolarLength(m, angle, r);
    NearDisplaced(m, cluster, Scaled(m.Cos(angle), r), Scaled(m.Sin(angle), r));
  }

  /** The point stands in this direction, as far out as fills the room evenly, but for the rounding. */
  ghost predicate StandsEvenly(m: Math, cluster: Spot, p: Spot, angle: real, room: real, radialUnit: real, r: real) {
    && FillsEvenly(r, room, radialUnit) && RoundedPolar(m, cluster, p, angle, r)
    && -0.02 <= FromCentre(m, cluster, p) - r <= 0.02
  }

  lemma PolarStandsEvenly(m: Math, cluster: Spot, angle: real, room: real, radialUnit: real, r: real)
    requires m.Lawful() && FillsEvenly(r, room, radialUnit)
    ensures StandsEvenly(m, cluster, Polar(m, cluster, angle, r), angle, room, radialUnit, r)
  {
    PolarDistance(m, cluster, angle, r);
    PolarRounded(m, cluster, angle, r);
  }

  /**
   A node stands at the angle that is its hash's share of the turn, at the distance that fills the room evenly; within
   the rounding that is how far it is from the centre.
   */
  lemma NodesFillCluster(m: Math, cluster: Spot, radialUnit: real, angularUnit: real, structural: bool, angle: real)
    requires m.Lawful() && 0.0 <= radialUnit < 1.0 && cluster.disc.radius >= 18.0
    requires angle == angularUnit * m.pi * 2.0
    ensures var p := NodePosition(m, cluster, radialUnit, angularUnit, structural);
            exists r :: StandsEvenly(m, cluster, p, angle, Room(cluster, structural), radialUnit, r)
  {
    var r := NodeRadius(m, cluster, radialUnit, structural);
    NodeRadiusFills(m, cluster, radialUnit, structural);
    NodeRadiusBound(m, cluster, radialUnit, structural);
    assert angle == FullTurn(m, angularUnit);
    var p := NodePosition(m, cluster, radialUnit, angularUnit, structural);
    assert p == Polar(m, cluster, angle, r);
    PolarStandsEvenly(m, cluster, angle, Room(cluster, structural), radialUnit, r);
    assert StandsEvenly(m, cluster, p, angle, Room(cluster, structural), radialUnit, r);
  }
}
