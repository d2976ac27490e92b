/**
 Packing circles around the origin. `Pack` is the packing with a plain scan over everything placed so far;
 the method keeps a spatial index and updates the circles in place, and is proved to place them exactly
 where `Pack` says.
 */
module CirclePacking {
  import opened Numbers
  import opened Options
  import opened Sorting

  const MIN_SPATIAL_CELL_SIZE := 128.0
  const MAX_ATTEMPTS: nat := 50_000

  datatype Disc = Disc(key: string, radius: real)

  datatype Spot = Spot(disc: Disc, x: real, y: real)

  /** `Math.round(value * 100) / 100`: halves round up. */
  function RoundGraphCoordinate(value: real): (r: real)
    ensures -0.005 < r - value <= 0.005
    ensures (r * 100.0).Floor as real == r * 100.0
  {
    (value * 100.0 + 0.5).Floor as real / 100.0
  }

  // ----- the packing with a plain scan

  /** Larger circles first; the key decides between equal radii. */
  predicate PacksBefore(a: Disc, b: Disc) {
    a.radius > b.radius || (a.radius == b.radius && StringLeq(a.key, b.key))
  }

  function PackingOrder(discs: seq<Disc>): seq<Disc> { SortBy(discs, PacksBefore) }

  function TypicalDiameter(order: seq<Disc>, gap: real): real {
    (if order == [] then 0.0 else order[|order| / 2].radius) * 2.0 + gap
  }

  function CellSize(order: seq<Disc>, gap: real): (r: real)
    ensures r >= MIN_SPATIAL_CELL_SIZE
  {
    Max(MIN_SPATIAL_CELL_SIZE, TypicalDiameter(order, gap))
  }

  function EffectiveStep(order: seq<Disc>, gap: real, step: real): real {
    var typical := TypicalDiameter(order, gap);
    if typical > MIN_SPATIAL_CELL_SIZE * 2.0 then Max(step, typical * 0.5) else step
  }

  function GoldenAngle(m: Math): real { m.pi * (3.0 - m.Sqrt(5.0)) }

  /** The point of the spiral with this number. */
  function Candidate(m: Math, disc: Disc, step: real, index: nat): Spot {
    var distance := Scaled(step, m.Sqrt(index as real));
    var angle := Scaled(index as real, GoldenAngle(m));
    Spot(disc, Scaled(m.Cos(angle), distance), Scaled(m.Sin(angle), distance))
  }

  /** The two circles keep `gap` between them. */
  predicate Apart(m: Math, a: Spot, b: Spot, gap: real) {
    m.Hypot(a.x - b.x, a.y - b.y) >= a.disc.radius + b.disc.radius + gap
  }

  predicate ClearOfAll(m: Math, placed: seq<Spot>, s: Spot, gap: real) {
    forall p | p in placed :: Apart(m, s, p, gap)
  }

  ghost predicate AllApart(m: Math, spots: seq<Spot>, gap: real) {
    forall i, j | 0 <= i < j < |spots| :: Apart(m, spots[j], spots[i], gap)
  }

  /** The spiral on which places for `disc` are tried. */
  function Spiral(m: Math, disc: Disc, step: real): nat -> Spot { (k: nat) => Candidate(m, disc, step, k) }

  /** The first clear candidate among the next `attempts` of the spiral, and how far the spiral was followed. */
  function Search(m: Math, placed: seq<Spot>, spiral: nat -> Spot, gap: real, index: nat, attempts: nat)
    : (r: (nat, Option<Spot>))
    ensures r.1.Some? ==> ClearOfAll(m, placed, r.1.value, gap) && exists k: nat :: r.1.value == spiral(k)
    decreases attempts
  {
    if attempts == 0 then (index, None)
    else
      var s := spiral(index + 1);
      if ClearOfAll(m, placed, s, gap) then (index + 1, Some(s))
      else Search(m, placed, spiral, gap, index + 1, attempts - 1)
  }

  datatype Packing = Packing(spots: seq<Spot>, outer: real, index: nat)

  /** Where the next circle goes: the first clear candidate, or beyond the outer radius if none is found. */
  function NextSpot(m: Math, p: Packing, disc: Disc, gap: real, step: real, attempts: nat): (r: (nat, Spot))
    ensures r.1.disc == disc
  {
    if p.spots == [] then (p.index, Spot(disc, 0.0, 0.0))
    else
      var (index, found) := Search(m, p.spots, Spiral(m, disc, step), gap, p.index, attempts);
      match found
      case Some(s) => (index, s)
      case None => (index, Spot(disc, p.outer + disc.radius + gap, 0.0))
  }

  /** Adds a circle; the first one sets the outer radius. */
  function Add(m: Math, p: Packing, s: Spot, index: nat): Packing {
    Packing(p.spots + [s],
            if p.spots == [] then s.disc.radius else Max(p.outer, m.Hypot(s.x, s.y) + s.disc.radius),
            index)
  }

  function PlaceNext(m: Math, p: Packing, disc: Disc, gap: real, step: real, attempts: nat): Packing {
    var (index, s) := NextSpot(m, p, disc, gap, step, attempts);
    Add(m, p, s, index)
  }

  function Place(m: Math, order: seq<Disc>, gap: real, step: real, attempts: nat): (r: Packing)
    ensures |r.spots| == |order|
    ensures forall i | 0 <= i < |order| :: r.spots[i].disc == order[i]
  {
    if order == [] then Packing([], 0.0, 0)
    else PlaceNext(m, Place(m, order[..|order| - 1], gap, step, attempts), order[|order| - 1], gap, step, attempts)
  }

  /** The positions in packing order. */
  function Pack(m: Math, discs: seq<Disc>, gap: real, step: real): seq<Spot> {
    var order := PackingOrder(discs);
    Place(m, order, gap, EffectiveStep(order, gap, step), MAX_ATTEMPTS).spots
  }

  // ----- its separation

  /** The outer radius reaches past every placed circle. */
  ghost predicate Enclosed(m: Math, spots: seq<Spot>, outer: real) {
    forall p | p in spots :: m.Hypot(p.x, p.y) + p.disc.radius <= outer
  }

  lemma FallbackClear(m: Math, spots: seq<Spot>, outer: real, disc: Disc, gap: real)
    requires m.Lawful() && Enclosed(m, spots, outer)
    ensures ClearOfAll(m, spots, Spot(disc, outer + disc.radius + gap, 0.0), gap)
  {
    var s := Spot(disc, outer + disc.radius + gap, 0.0);
    forall p | p in spots ensures Apart(m, s, p, gap) {
      HypotCoordinates(m, s.x - p.x, s.y - p.y);
      HypotCoordinates(m, p.x, p.y);
    }
  }

  lemma NextSpotClear(m: Math, p: Packing, disc: Disc, gap: real, step: real, attempts: nat)
    requires m.Lawful() && Enclosed(m, p.spots, p.outer)
    ensures ClearOfAll(m, p.spots, NextSpot(m, p, disc, gap, step, attempts).1, gap)
  {
    FallbackClear(m, p.spots, p.outer, disc, gap);
  }

  lemma AddApart(m: Math, p: Packing, s: Spot, index: nat, gap: real)
    requires AllApart(m, p.spots, gap) && ClearOfAll(m, p.spots, s, gap)
    ensures AllApart(m, Add(m, p, s, index).spots, gap)
  {
    var spots := Add(m, p, s, index).spots;
    forall i, j | 0 <= i < j < |spots| ensures Apart(m, spots[j], spots[i], gap) {
      if j == |p.spots| {
        assert p.spots[i] in p.spots;
      }
    }
  }

  lemma AddEnclosed(m: Math, p: Packing, s: Spot, index: nat)
    requires m.Lawful() && Enclosed(m, p.spots, p.outer)
    requires p.spots == [] ==> s.x == 0.0 && s.y == 0.0
    ensures Enclosed(m, Add(m, p, s, index).spots, Add(m, p, s, index).outer)
  {
    HypotAxis(m, 0.0);
    forall q | q in Add(m, p, s, index).spots
      ensures m.Hypot(q.x, q.y) + q.disc.radius <= Add(m, p, s, index).outer
    {
      assert q in p.spots || q == s;
    }
  }

  lemma {:induction false} PlaceApart(m: Math, order: seq<Disc>, gap: real, step: real, attempts: nat)
    requires m.Lawful()
    ensures var p := Place(m, order, gap, step, attempts); AllApart(m, p.spots, gap) && Enclosed(m, p.spots, p.outer)
  {
    if order != [] {
      PlaceApart(m, order[..|order| - 1], gap, step, attempts);
      var p, disc := Place(m, order[..|order| - 1], gap, step, attempts), order[|order| - 1];
      var (index, s) := NextSpot(m, p, disc, gap, step, attempts);
      NextSpotClear(m, p, disc, gap, step, attempts);
      AddApart(m, p, s, index, gap);
      AddEnclosed(m, p, s, index);
    }
  }

  /** Every two packed circles are at least the gap apart, whatever the radii, the gap and the spiral step. */
  lemma PackApart(m: Math, discs: seq<Disc>, gap: real, step: real)
    requires m.Lawful()
    ensures AllApart(m, Pack(m, discs, gap, step), gap)
  {
    var order := PackingOrder(discs);
    PlaceApart(m, order, gap, EffectiveStep(order, gap, step), MAX_ATTEMPTS);
  }

  // ----- where the circles stand

  /** Candidate `k` for a circle is closer to one of the earlier circles than the gap allows. */
  ghost predicate Blocked(m: Math, earlier: seq<Spot>, disc: Disc, gap: real, step: real, k: nat) {
    !ClearOfAll(m, earlier, Candidate(m, disc, step, k), gap)
  }

  /** No circle reaches farther from the origin than `reach`, and one reaches as far. */
  ghost predicate ReachesTo(m: Math, spots: seq<Spot>, reach: real) {
    && (forall p | p in spots :: m.Hypot(p.x, p.y) + p.disc.radius <= reach)
    && exists p :: p in spots && m.Hypot(p.x, p.y) + p.disc.radius == reach
  }

  /** The circle stands at candidate `at`, the first one behind candidate `before` that is clear. */
  ghost predicate AtFirstClear(m: Math, earlier: seq<Spot>, s: Spot, gap: real, step: real, attempts: nat, before: nat,
                               at: nat)
  {
    && before < at <= before + attempts
    && s == Candidate(m, s.disc, step, at) && ClearOfAll(m, earlier, s, gap)
    && forall k | before < k < at :: Blocked(m, earlier, s.disc, gap, step, k)
  }

  /** All candidates that may be tried are blocked, and the circle stands on the axis beyond all earlier ones. */
  ghost predicate BeyondAll(m: Math, earlier: seq<Spot>, s: Spot, gap: real, step: real, attempts: nat, before: nat,
                            at: nat)
  {
    && at == before + attempts
    && (forall k | before < k <= at :: Blocked(m, earlier, s.disc, gap, step, k))
    && s.y == 0.0 && ReachesTo(m, earlier, s.x - s.disc.radius - gap)
  }

  /**
   The first circle is at the origin; every other one is at the first clear candidate behind the one where the circle
   before it was found, or beyond all earlier ones. `indices` says how far the spiral has been followed.
   */
  ghost predicate FollowsSpiral(m: Math, spots: seq<Spot>, gap: real, step: real, attempts: nat, indices: seq<nat>) {
    && |indices| == |spots|
    && (spots != [] ==> spots[0].x == 0.0 == spots[0].y && indices[0] == 0)
    && forall i | 1 <= i < |spots| ::
         || AtFirstClear(m, spots[..i], spots[i], gap, step, attempts, indices[i - 1], indices[i])
         || BeyondAll(m, spots[..i], spots[i], gap, step, attempts, indices[i - 1], indices[i])
  }

  /** No point of the spiral behind `from` and before `to` is clear. */
  ghost predicate NoneClear(m: Math, placed: seq<Spot>, spiral: nat -> Spot, gap: real, from: nat, to: nat) {
    forall k | from < k < to :: !ClearOfAll(m, placed, spiral(k), gap)
  }

  /** `found` is the first clear point behind `index`, at `at`; without one, all those up to `at` are blocked. */
  ghost predicate Tells(m: Math, placed: seq<Spot>, spiral: nat -> Spot, gap: real, index: nat, attempts: nat, at: nat,
                        found: Option<Spot>)
  {
    if found.Some? then
      && index < at <= index + attempts && found.value == spiral(at)
      && ClearOfAll(m, placed, spiral(at), gap) && NoneClear(m, placed, spiral, gap, index, at)
    else
      at == index + attempts && NoneClear(m, placed, spiral, gap, index, at + 1)
  }

  lemma OneMoreBlocked(m: Math, placed: seq<Spot>, spiral: nat -> Spot, gap: real, index: nat, to: nat)
    requires !ClearOfAll(m, placed, spiral(index + 1), gap) && NoneClear(m, placed, spiral, gap, index + 1, to)
    ensures NoneClear(m, placed, spiral, gap, index, to)
  {
  }

  lemma LaterTells(m: Math, placed: seq<Spot>, spiral: nat -> Spot, gap: real, index: nat, attempts: nat, at: nat,
                   found: Option<Spot>)
    requires attempts > 0 && !ClearOfAll(m, placed, spiral(index + 1), gap)
    requires Tells(m, placed, spiral, gap, index + 1, attempts - 1, at, found)
    ensures Tells(m, placed, spiral, gap, index, attempts, at, found)
  {
    OneMoreBlocked(m, placed, spiral, gap, index, if found.Some? then at else at + 1);
  }

  /** What the search for a place tells: the first clear candidate, or that all are blocked. */
  lemma {:induction false} SearchTells(m: Math, placed: seq<Spot>, spiral: nat -> Spot, gap: real, index: nat,
                                       attempts: nat)
    ensures var (at, found) := Search(m, placed, spiral, gap, index, attempts);
            Tells(m, placed, spiral, gap, index, attempts, at, found)
    decreases attempts
  {
    if attempts > 0 && !ClearOfAll(m, placed, spiral(index + 1), gap) {
      SearchTells(m, placed, spiral, gap, index + 1, attempts - 1);
      var (at, found) := Search(m, placed, spiral, gap, index + 1, attempts - 1);
      LaterTells(m, placed, spiral, gap, index, attempts, at, found);
    }
  }

  lemma SpiralOfCandidates(m: Math, disc: Disc, step: real)
    ensures forall k: nat :: Spiral(m, disc, step)(k) == Candidate(m, disc, step, k)
  {
  }

  /** One more circle goes to its place. */
  lemma NextFollows(m: Math, p: Packing, disc: Disc, gap: real, step: real, attempts: nat)
    requires p.spots != [] && ReachesTo(m, p.spots, p.outer)
    ensures var (at, s) := NextSpot(m, p, disc, gap, step, attempts);
            || AtFirstClear(m, p.spots, s, gap, step, attempts, p.index, at)
            || BeyondAll(m, p.spots, s, gap, step, attempts, p.index, at)
  {
    SearchTells(m, p.spots, Spiral(m, disc, step), gap, p.index, attempts);
    SpiralOfCandidates(m, disc, step);
  }

  lemma AddReaches(m: Math, p: Packing, s: Spot, index: nat)
    requires m.Lawful()
    requires if p.spots == [] then s.x == 0.0 == s.y else ReachesTo(m, p.spots, p.outer)
    ensures ReachesTo(m, Add(m, p, s, index).spots, Add(m, p, s, index).outer)
  {
    var q := Add(m, p, s, index);
    assert q.spots == p.spots + [s] && s in q.spots;
    HypotAxis(m, 0.0);
    if p.spots != [] {
      var far :| far in p.spots && m.Hypot(far.x, far.y) + far.disc.radius == p.outer;
      assert far in q.spots;
    }
  }

  lemma OneMoreFollows(m: Math, spots: seq<Spot>, s: Spot, gap: real, step: real, attempts: nat, indices: seq<nat>,
                       at: nat)
    requires FollowsSpiral(m, spots, gap, step, attempts, indices) && spots != []
    requires || AtFirstClear(m, spots, s, gap, step, attempts, indices[|indices| - 1], at)
             || BeyondAll(m, spots, s, gap, step, attempts, indices[|indices| - 1], at)
    ensures FollowsSpiral(m, spots + [s], gap, step, attempts, indices + [at])
  {
    var all, ks := spots + [s], indices + [at];
    forall i | 1 <= i < |all|
      ensures || AtFirstClear(m, all[..i], all[i], gap, step, attempts, ks[i - 1], ks[i])
              || BeyondAll(m, all[..i], all[i], gap, step, attempts, ks[i - 1], ks[i])
    {
      if i < |spots| {
        assert all[..i] == spots[..i];
      } else {
        assert all[..i] == spots;
      }
    }
  }

  lemma {:induction false} PlaceFollows(m: Math, order: seq<Disc>, gap: real, step: real, attempts: nat)
    returns (indices: seq<nat>)
    requires m.Lawful()
    ensures var p := Place(m, order, gap, step, attempts);
            && FollowsSpiral(m, p.spots, gap, step, attempts, indices)
            && p.index == (if indices == [] then 0 else indices[|indices| - 1])
            && (order != [] ==> ReachesTo(m, p.spots, p.outer))
  {
    if order == [] {
      indices := [];
    } else {
      var before, disc := order[..|order| - 1], order[|order| - 1];
      var earlier := PlaceFollows(m, before, gap, step, attempts);
      var p := Place(m, before, gap, step, attempts);
      var (at, s) := NextSpot(m, p, disc, gap, step, attempts);
      AddReaches(m, p, s, at);
      indices := earlier + [at];
      if p.spots != [] {
        NextFollows(m, p, disc, gap, step, attempts);
        OneMoreFollows(m, p.spots, s, gap, step, attempts, earlier, at);
      }
    }
  }

  // ----- that this says it all

  lemma SameReach(m: Math, spots: seq<Spot>, a: real, b: real)
    requires ReachesTo(m, spots, a) && ReachesTo(m, spots, b)
    ensures a == b
  {
  }

  /** Two ways to stand right are one. */
  lemma OnePlaceOnly(m: Math, earlier: seq<Spot>, s: Spot, t: Spot, gap: real, step: real, attempts: nat, before: nat,
                     i: nat, j: nat)
    requires s.disc == t.disc
    requires || AtFirstClear(m, earlier, s, gap, step, attempts, before, i)
             || BeyondAll(m, earlier, s, gap, step, attempts, before, i)
    requires || AtFirstClear(m, earlier, t, gap, step, attempts, before, j)
             || BeyondAll(m, earlier, t, gap, step, attempts, before, j)
    ensures s == t && i == j
  {
    if AtFirstClear(m, earlier, s, gap, step, attempts, before, i) {
      assert !Blocked(m, earlier, s.disc, gap, step, i);
    }
    if AtFirstClear(m, earlier, t, gap, step, attempts, before, j) {
      assert !Blocked(m, earlier, t.disc, gap, step, j);
    }
    if !AtFirstClear(m, earlier, s, gap, step, attempts, before, i) {
      SameReach(m, earlier, s.x - s.disc.radius - gap, t.x - t.disc.radius - gap);
    }
  }

  lemma FollowedBefore(m: Math, s: seq<Spot>, gap: real, step: real, attempts: nat, i: seq<nat>)
    requires s != [] && FollowsSpiral(m, s, gap, step, attempts, i)
    ensures FollowsSpiral(m, s[..|s| - 1], gap, step, attempts, i[..|s| - 1])
  {
    var n := |s| - 1;
    forall k | 1 <= k < n
      ensures || AtFirstClear(m, s[..n][..k], s[..n][k], gap, step, attempts, i[..n][k - 1], i[..n][k])
              || BeyondAll(m, s[..n][..k], s[..n][k], gap, step, attempts, i[..n][k - 1], i[..n][k])
    {
      assert s[..n][..k] == s[..k];
    }
  }

  /** Circles of one order that follow the spiral stand at the same places. */
  lemma {:induction false} SpiralDetermines(m: Math, s: seq<Spot>, t: seq<Spot>, gap: real, step: real, attempts: nat,
                                            i: seq<nat>, j: seq<nat>)
    requires |s| == |t| && forall k | 0 <= k < |s| :: s[k].disc == t[k].disc
    requires FollowsSpiral(m, s, gap, step, attempts, i) && FollowsSpiral(m, t, gap, step, attempts, j)
    ensures s == t && i == j
    decreases |s|
  {
    if s != [] {
      var n := |s| - 1;
      FollowedBefore(m, s, gap, step, attempts, i);
      FollowedBefore(m, t, gap, step, attempts, j);
      SpiralDetermines(m, s[..n], t[..n], gap, step, attempts, i[..n], j[..n]);
      if n > 0 {
        assert i[n - 1] == i[..n][n - 1] && j[n - 1] == j[..n][n - 1];
        OnePlaceOnly(m, s[..n], s[n], t[n], gap, step, attempts, i[n - 1], i[n], j[n]);
      }
      assert s == s[..n] + [s[n]] && t == t[..n] + [t[n]] && i == i[..n] + [i[n]] && j == j[..n] + [j[n]];
    }
  }

  lemma PacksBeforeTotal(discs: seq<Disc>)
    ensures TotalOn(PacksBefore, discs)
  {
    StringLeqOrder();
  }

  function DiscsOf(spots: seq<Spot>): (r: seq<Disc>)
    ensures |r| == |spots| && forall i | 0 <= i < |r| :: r[i] == spots[i].disc
  {
    seq(|spots|, i requires 0 <= i < |spots| => spots[i].disc)
  }

  /** The step of the spiral: as asked for, or half the median circle's diameter with its gap where that is large. */
  predicate IsStep(order: seq<Disc>, gap: real, asked: real, step: real) {
    var half := (if order == [] then 0.0 else order[|order| / 2].radius) + gap / 2.0;
    step == if half > 128.0 && half > asked then half else asked
  }

  /** The circles, larger ones first and by key among equals, follow the spiral, each with 50,000 attempts. */
  ghost predicate IsPacked(m: Math, discs: seq<Disc>, gap: real, asked: real, spots: seq<Spot>, step: real,
                           indices: seq<nat>)
  {
    && multiset(DiscsOf(spots)) == multiset(discs) && Sorted(DiscsOf(spots), PacksBefore)
    && IsStep(DiscsOf(spots), gap, asked, step)
    && FollowsSpiral(m, spots, gap, step, 50_000, indices)
  }

  /** The packing is the one that follows the spiral. */
  lemma PackFollowsSpiral(m: Math, discs: seq<Disc>, gap: real, asked: real)
    requires m.Lawful()
    ensures exists step, indices :: IsPacked(m, discs, gap, asked, Pack(m, discs, gap, asked), step, indices)
  {
    var order := PackingOrder(discs);
    PacksBeforeTotal(discs);
    SortBySorted(discs, PacksBefore);
    var step := EffectiveStep(order, gap, asked);
    var indices := PlaceFollows(m, order, gap, step, MAX_ATTEMPTS);
    assert DiscsOf(Pack(m, discs, gap, asked)) == order;
    assert IsPacked(m, discs, gap, asked, Pack(m, discs, gap, asked), step, indices);
  }

  lemma EqualDiscs(s: seq<Spot>, t: seq<Spot>)
    requires DiscsOf(s) == DiscsOf(t)
    ensures |s| == |t| && forall k | 0 <= k < |s| :: s[k].disc == t[k].disc
  {
    forall k | 0 <= k < |s| ensures s[k].disc == t[k].disc {
      assert DiscsOf(s)[k] == DiscsOf(t)[k];
    }
  }

  /** With distinct keys no other spots follow it. */
  lemma OnlyPackingFollows(m: Math, discs: seq<Disc>, gap: real, asked: real, spots: seq<Spot>, step: real,
                           indices: seq<nat>)
    requires m.Lawful() && forall a, b | a in discs && b in discs && a.key == b.key :: a == b
    requires IsPacked(m, discs, gap, asked, spots, step, indices)
    ensures spots == Pack(m, discs, gap, asked)
  {
    PackFollowsSpiral(m, discs, gap, asked);
    var t := Pack(m, discs, gap, asked);
    var step', j :| IsPacked(m, discs, gap, asked, t, step', j);
    SameElements(DiscsOf(spots), discs);
    StringLeqOrder();
    SortedUnique(DiscsOf(spots), DiscsOf(t), PacksBefore);
    EqualDiscs(spots, t);
    SpiralDetermines(m, spots, t, gap, step, 50_000, indices, j);
  }

  /** Candidate `k` is as far out as the step times the root of `k`, so the spiral leads outwards. */
  lemma CandidateReach(m: Math, disc: Disc, step: real, k: nat)
    requires m.Lawful() && step > 0.0
    ensures var c := Candidate(m, disc, step, k); m.Hypot(c.x, c.y) == Scaled(step, m.Sqrt(k as real))
  {
    assert m.SqrtLaw(k as real);
    ScaledLeq(0.0, m.Sqrt(k as real), step);
    PolarLength(m, Scaled(k as real, GoldenAngle(m)), Scaled(step, m.Sqrt(k as real)));
  }

  /** With distinct keys the packing depends only on which circles there are, not on the order they come in. */
  lemma PackDeterministic(m: Math, discs: seq<Disc>, discs': seq<Disc>, gap: real, step: real)
    requires multiset(discs) == multiset(discs')
    requires forall a, b | a in discs && b in discs && a.key == b.key :: a == b
    ensures Pack(m, discs, gap, step) == Pack(m, discs', gap, step)
  {
    PacksBeforeTotal(discs);
    PacksBeforeTotal(discs');
    SortBySorted(discs, PacksBefore);
    SortBySorted(discs', PacksBefore);
    SameElements(PackingOrder(discs), discs);
    StringLeqOrder();
    SortedUnique(PackingOrder(discs), PackingOrder(discs'), PacksBefore);
  }

  // ----- the spatial index

  predicate InCells(x: real, y: real, radius: real, size: real, cell: (int, int))
    requires size > 0.0
  {
    && ((x - radius) / size).Floor <= cell.0 <= ((x + radius) / size).Floor
    && ((y - radius) / size).Floor <= cell.1 <= ((y + radius) / size).Floor
  }

  lemma FloorMonotone(a: real, b: real, size: real)
    requires a <= b && size > 0.0
    ensures (a / size).Floor <= (b / size).Floor
  {
    var p, q := a / size, b / size;
    assert p * size == a && q * size == b;
    if p > q {
      ScaleLess(q, p, size);
    }
  }

  lemma SharedInterval(a: real, ra: real, b: real, rb: real, size: real) returns (cell: int)
    requires ra >= 0.0 && rb >= 0.0 && size > 0.0 && Abs(a - b) < ra + rb
    ensures ((a - ra) / size).Floor <= cell <= ((a + ra) / size).Floor
    ensures ((b - rb) / size).Floor <= cell <= ((b + rb) / size).Floor
  {
    var p := Max(a - ra, b - rb);
    cell := (p / size).Floor;
    FloorMonotone(a - ra, p, size);
    FloorMonotone(b - rb, p, size);
    FloorMonotone(p, a + ra, size);
    FloorMonotone(p, b + rb, size);
  }

  /** Two circles closer than the gap have a cell in common, so the index cannot miss one of them. */
  lemma CloseShareCell(m: Math, s: Spot, p: Spot, gap: real, size: real) returns (cell: (int, int))
    requires m.Lawful() && size > 0.0 && gap >= 0.0 && s.disc.radius >= 0.0 && p.disc.radius >= 0.0
    requires !Apart(m, s, p, gap)
    ensures InCells(s.x, s.y, s.disc.radius + gap, size, cell)
    ensures InCells(p.x, p.y, p.disc.radius, size, cell)
  {
    HypotCoordinates(m, s.x - p.x, s.y - p.y);
    var i := SharedInterval(s.x, s.disc.radius + gap, p.x, p.disc.radius, size);
    var j := SharedInterval(s.y, s.disc.radius + gap, p.y, p.disc.radius, size);
    cell := (i, j);
  }

  // ----- the packing in place

  /** A cluster or a domain as the packing sees it. */
  class Circle {
    const key: string
    var radius: real
    var x: real
    var y: real

    constructor (key: string, radius: real)
      ensures this.key == key && this.radius == radius && this.x == 0.0 && this.y == 0.0
    {
      this.key, this.radius, this.x, this.y := key, radius, 0.0, 0.0;
    }

    function Outline(): Disc
      reads this`radius
    {
      Disc(key, radius)
    }

    function Position(): Spot
      reads this
    {
      Spot(Outline(), x, y)
    }
  }

  /** The circles that the index lists in a cell. */
  function Listed(cells: map<(int, int), set<Circle>>, cell: (int, int)): set<Circle> {
    if cell in cells then cells[cell] else {}
  }

  /** The same with one circle more, if the circle touches the cell. */
  function With(cells: map<(int, int), set<Circle>>, cell: (int, int), item: Circle, touches: bool): set<Circle> {
    if touches then Listed(cells, cell) + {item} else Listed(cells, cell)
  }

  function Outlines(items: seq<Circle>): (r: seq<Disc>)
    reads items
    ensures |r| == |items| && forall i | 0 <= i < |items| :: r[i] == items[i].Outline()
  {
    seq(|items|, i requires 0 <= i < |items| reads items => items[i].Outline())
  }

  function Positions(items: seq<Circle>): (r: seq<Spot>)
    reads items
    ensures |r| == |items| && forall i | 0 <= i < |items| :: r[i] == items[i].Position()
  {
    seq(|items|, i requires 0 <= i < |items| reads items => items[i].Position())
  }

  datatype Entry = Entry(disc: Disc, item: Circle)

  predicate EntryBefore(a: Entry, b: Entry) { PacksBefore(a.disc, b.disc) }

  function EntryDiscs(entries: seq<Entry>): (r: seq<Disc>)
    ensures |r| == |entries| && forall i | 0 <= i < |entries| :: r[i] == entries[i].disc
  {
    seq(|entries|, i requires 0 <= i < |entries| => entries[i].disc)
  }

  lemma DiscsOfFirst(e: Entry, rest: seq<Entry>)
    ensures EntryDiscs([e] + rest) == [e.disc] + EntryDiscs(rest)
  {
  }

  lemma {:induction false} InsertEntry(e: Entry, entries: seq<Entry>)
    ensures EntryDiscs(Insert(e, entries, EntryBefore)) == Insert(e.disc, EntryDiscs(entries), PacksBefore)
  {
    if entries != [] && !EntryBefore(e, entries[0]) {
      InsertEntry(e, entries[1..]);
      assert EntryDiscs(entries)[1..] == EntryDiscs(entries[1..]);
      DiscsOfFirst(entries[0], Insert(e, entries[1..], EntryBefore));
    } else {
      DiscsOfFirst(e, entries);
    }
  }

  lemma SortOfFirst<T>(x: T, rest: seq<T>, before: (T, T) -> bool)
    ensures SortBy([x] + rest, before) == Insert(x, SortBy(rest, before), before)
  {
    assert ([x] + rest)[1..] == rest;
  }

  lemma {:induction false} SortEntries(entries: seq<Entry>)
    ensures EntryDiscs(SortBy(entries, EntryBefore)) == SortBy(EntryDiscs(entries), PacksBefore)
  {
    if entries != [] {
      var e, rest := entries[0], entries[1..];
      SortEntries(rest);
      InsertEntry(e, SortBy(rest, EntryBefore));
      assert entries == [e] + rest;
      DiscsOfFirst(e, rest);
      SortOfFirst(e, rest, EntryBefore);
      SortOfFirst(e.disc, EntryDiscs(rest), PacksBefore);
    }
  }

  ghost predicate EntriesOf(entries: seq<Entry>, items: seq<Circle>)
    reads items
  {
    |entries| == |items| && forall k | 0 <= k < |items| :: entries[k] == Entry(items[k].Outline(), items[k])
  }

  /** Sorting the entries sorts the circles. */
  lemma EntriesSorted(entries: seq<Entry>, items: seq<Circle>, order: seq<Circle>)
    requires Distinct(items) && EntriesOf(entries, items)
    requires |order| == |items|
    requires forall k | 0 <= k < |order| :: order[k] == SortBy(entries, EntryBefore)[k].item
    ensures multiset(order) == multiset(items) && Distinct(order)
    ensures Outlines(order) == PackingOrder(Outlines(items))
  {
    var sorted := SortBy(entries, EntryBefore);
    MapPermuted(sorted, entries, order, items, (e: Entry) => e.item);
    DistinctPermutation(items, order);
    SameElements(sorted, entries);
    forall i | 0 <= i < |order| ensures order[i].Outline() == sorted[i].disc {
      assert sorted[i] in entries;
    }
    assert EntryDiscs(entries) == Outlines(items);
    SortEntries(entries);
    assert Outlines(order) == EntryDiscs(sorted);
  }

  /** The circles in packing order. */
  method Ordered(items: seq<Circle>) returns (order: seq<Circle>)
    requires Distinct(items)
    ensures multiset(order) == multiset(items) && Distinct(order)
    ensures forall c :: c in order <==> c in items
    ensures Outlines(order) == PackingOrder(Outlines(items))
  {
    var entries: seq<Entry> := [];
    for i := 0 to |items|
      invariant |entries| == i
      invariant forall k | 0 <= k < i :: entries[k] == Entry(items[k].Outline(), items[k])
    {
      entries := entries + [Entry(items[i].Outline(), items[i])];
    }
    var sorted := SortBy(entries, EntryBefore);
    order := [];
    for i := 0 to |sorted|
      invariant |order| == i
      invariant forall k | 0 <= k < i :: order[k] == sorted[k].item
    {
      order := order + [sorted[i].item];
    }
    EntriesSorted(entries, items, order);
    SameElements(order, items);
  }

  /** The closure state of one packing run: what is placed, and the cells each placed circle touches. */
  class Packer {
    const m: Math
    const gap: real
    const cellSize: real
    var placed: seq<Circle>
    var cells: map<(int, int), set<Circle>>
    var outerRadius: real
    var spiralIndex: nat

    constructor (m: Math, gap: real, cellSize: real)
      requires cellSize > 0.0
      ensures this.m == m && this.gap == gap && this.cellSize == cellSize
      ensures placed == [] && Valid() && Current() == Packing([], 0.0, 0)
    {
      this.m, this.gap, this.cellSize := m, gap, cellSize;
      placed, cells, outerRadius, spiralIndex := [], map[], 0.0, 0;
    }

    /** The run so far, as the plain scan records it. */
    ghost function Current(): Packing
      reads this, placed
    {
      Packing(Positions(placed), outerRadius, spiralIndex)
    }

    ghost predicate Indexed(c: Circle)
      requires cellSize > 0.0
      reads this, c
    {
      forall cell | InCells(c.x, c.y, c.radius, cellSize, cell) :: cell in cells && c in cells[cell]
    }

    /** Every placed circle is listed in every cell it touches, and the cells list nothing else. */
    ghost predicate Valid()
      reads this, placed
    {
      && cellSize > 0.0
      && (forall cell | cell in cells :: forall c | c in cells[cell] :: c in placed)
      && (forall c | c in placed :: c.radius >= 0.0)
      && (forall c {:trigger Indexed(c)} | c in placed :: Indexed(c))
    }

    lemma IndexedNow(item: Circle, was: map<(int, int), set<Circle>>)
      requires cellSize > 0.0 && item in placed
      requires forall c | c in placed :: c.radius >= 0.0
      requires forall cell | cell in was :: forall c | c in was[cell] :: c in placed
      requires forall c, cell | c in placed && c != item && InCells(c.x, c.y, c.radius, cellSize, cell) ::
                 cell in was && c in was[cell]
      requires forall cell :: cell in cells <==>
                              cell in was || InCells(item.x, item.y, item.radius, cellSize, cell)
      requires forall cell :: Listed(cells, cell) ==
                              With(was, cell, item, InCells(item.x, item.y, item.radius, cellSize, cell))
      ensures Valid()
    {
      forall cell, c | cell in cells && c in cells[cell] ensures c in placed {
        assert c in Listed(cells, cell);
        assert c == item || c in Listed(was, cell);
      }
      forall c | c in placed ensures Indexed(c) {
        forall cell | InCells(c.x, c.y, c.radius, cellSize, cell) ensures cell in cells && c in cells[cell] {
          assert c in Listed(cells, cell);
        }
      }
    }

    /** Lists `item`, just appended to `placed`, in the cells it touches and nowhere else; no other entry changes. */
    method IndexItem(item: Circle)
      requires cellSize > 0.0 && item in placed
      requires forall c | c in placed :: c.radius >= 0.0
      requires forall cell | cell in cells :: forall c | c in cells[cell] :: c in placed
      requires forall c | c in placed && c != item :: Indexed(c)
      modifies this`cells
      ensures Valid()
      ensures forall cell :: cell in cells <==>
                             cell in old(cells) || InCells(item.x, item.y, item.radius, cellSize, cell)
      ensures forall cell :: Listed(cells, cell) ==
                             With(old(cells), cell, item, InCells(item.x, item.y, item.radius, cellSize, cell))
    {
      var minX := ((item.x - item.radius) / cellSize).Floor;
      var maxX := ((item.x + item.radius) / cellSize).Floor;
      var minY := ((item.y - item.radius) / cellSize).Floor;
      var maxY := ((item.y + item.radius) / cellSize).Floor;
      var cellX := minX;
      while cellX <= maxX
        invariant minX <= cellX
        invariant forall i, j :: (i, j) in cells <==>
                                 (i, j) in old(cells) || (minX <= i < cellX && i <= maxX && minY <= j <= maxY)
        invariant forall i, j :: Listed(cells, (i, j)) ==
                                 With(old(cells), (i, j), item,
                                      minX <= i < cellX && i <= maxX && minY <= j <= maxY)
      {
        var cellY := minY;
        while cellY <= maxY
          invariant minY <= cellY
          invariant forall i, j :: (i, j) in cells <==>
                                   || (i, j) in old(cells)
                                   || (minX <= i < cellX && minY <= j <= maxY)
                                   || (i == cellX && minY <= j < cellY && j <= maxY)
          invariant forall i, j :: Listed(cells, (i, j)) ==
                                   With(old(cells), (i, j), item,
                                        || (minX <= i < cellX && minY <= j <= maxY)
                                        || (i == cellX && minY <= j < cellY && j <= maxY))
        {
          var cell := (cellX, cellY);
          cells := cells[cell := (if cell in cells then cells[cell] else {}) + {item}];
          cellY := cellY + 1;
        }
        cellX := cellX + 1;
      }
      forall cell: (int, int)
        ensures cell in cells <==> cell in old(cells) || InCells(item.x, item.y, item.radius, cellSize, cell)
        ensures Listed(cells, cell) ==
                With(old(cells), cell, item, InCells(item.x, item.y, item.radius, cellSize, cell))
      {
        var (i, j) := cell;
        assert cell == (i, j);
      }
      IndexedNow(item, old(cells));
    }

    /** The circles listed in the cells that a circle of radius `reach` around the point touches. */
    method Nearby(x: real, y: real, reach: real) returns (nearby: set<Circle>)
      requires Valid()
      ensures forall c | c in nearby :: c in placed
      ensures forall cell | InCells(x, y, reach, cellSize, cell) && cell in cells :: cells[cell] <= nearby
    {
      nearby := {};
      var minX := ((x - reach) / cellSize).Floor;
      var maxX := ((x + reach) / cellSize).Floor;
      var minY := ((y - reach) / cellSize).Floor;
      var maxY := ((y + reach) / cellSize).Floor;
      var cellX := minX;
      while cellX <= maxX
        invariant minX <= cellX
        invariant forall c | c in nearby :: c in placed
        invariant forall i, j | minX <= i < cellX && i <= maxX && minY <= j <= maxY && (i, j) in cells ::
                    cells[(i, j)] <= nearby
      {
        var cellY := minY;
        while cellY <= maxY
          invariant minY <= cellY
          invariant forall c | c in nearby :: c in placed
          invariant forall i, j | minX <= i < cellX && i <= maxX && minY <= j <= maxY && (i, j) in cells ::
                      cells[(i, j)] <= nearby
          invariant forall j | minY <= j < cellY && j <= maxY && (cellX, j) in cells :: cells[(cellX, j)] <= nearby
        {
          if (cellX, cellY) in cells {
            nearby := nearby + cells[(cellX, cellY)];
          }
          cellY := cellY + 1;
        }
        cellX := cellX + 1;
      }
    }

    /** Whether one of the nearby circles is too close. */
    method SomeOverlap(all: set<Circle>, s: Spot) returns (overlaps: bool)
      ensures overlaps <==> exists c :: c in all && !Apart(m, s, c.Position(), gap)
    {
      var nearby := all;
      overlaps := false;
      while nearby != {} && !overlaps
        invariant nearby <= all
        invariant overlaps ==> exists c :: c in all && !Apart(m, s, c.Position(), gap)
        invariant !overlaps ==> forall c | c in all && c !in nearby :: Apart(m, s, c.Position(), gap)
        decreases |nearby|
      {
        var other :| other in nearby;
        nearby := nearby - {other};
        if m.Hypot(s.x - other.x, s.y - other.y) < s.disc.radius + other.radius + gap {
          overlaps := true;
        }
      }
    }

    lemma MissesNothing(s: Spot, c: Circle, all: set<Circle>)
      requires Valid() && m.Lawful() && gap >= 0.0 && s.disc.radius >= 0.0 && c in placed
      requires forall cell | InCells(s.x, s.y, s.disc.radius + gap, cellSize, cell) && cell in cells ::
                 cells[cell] <= all
      requires forall d | d in all :: Apart(m, s, d.Position(), gap)
      ensures Apart(m, s, c.Position(), gap)
    {
      assert Indexed(c);
      if !Apart(m, s, c.Position(), gap) {
        var cell := CloseShareCell(m, s, c.Position(), gap, cellSize);
      }
    }

    lemma ScanAgrees(s: Spot, all: set<Circle>, overlaps: bool)
      requires Valid() && m.Lawful() && gap >= 0.0 && s.disc.radius >= 0.0
      requires forall c | c in all :: c in placed
      requires forall cell | InCells(s.x, s.y, s.disc.radius + gap, cellSize, cell) && cell in cells ::
                 cells[cell] <= all
      requires overlaps <==> exists c :: c in all && !Apart(m, s, c.Position(), gap)
      ensures overlaps <==> !ClearOfAll(m, Positions(placed), s, gap)
    {
      if overlaps {
        var c :| c in all && !Apart(m, s, c.Position(), gap);
        assert c in placed;
        var k :| 0 <= k < |placed| && placed[k] == c;
        assert Positions(placed)[k] == c.Position();
      } else {
        forall p | p in Positions(placed) ensures Apart(m, s, p, gap) {
          var k :| 0 <= k < |placed| && Positions(placed)[k] == p;
          MissesNothing(s, placed[k], all);
        }
      }
    }

    /** The indexed test answers exactly as a scan over everything placed would. */
    method OverlapsPlaced(s: Spot) returns (overlaps: bool)
      requires Valid() && m.Lawful() && gap >= 0.0 && s.disc.radius >= 0.0
      ensures overlaps <==> !ClearOfAll(m, Positions(placed), s, gap)
    {
      var nearby := Nearby(s.x, s.y, s.disc.radius + gap);
      overlaps := SomeOverlap(nearby, s);
      ScanAgrees(s, nearby, overlaps);
    }

    /** `spiral` lists the candidates for `disc`. */
    ghost predicate IsSpiral(spiral: nat -> Spot, disc: Disc, step: real) {
      forall k {:trigger Candidate(m, disc, step, k)} :: spiral(k) == Candidate(m, disc, step, k)
    }

    ghost predicate Clear(s: Spot)
      reads this, placed
    {
      ClearOfAll(m, Positions(placed), s, gap)
    }

    /** One candidate of the search, and whether it is clear. */
    method TryCandidate(disc: Disc, step: real, index: nat, ghost spiral: nat -> Spot) returns (s: Spot, clear: bool)
      requires Valid() && m.Lawful() && gap >= 0.0 && disc.radius >= 0.0 && IsSpiral(spiral, disc, step)
      ensures s == spiral(index) && clear == Clear(s)
    {
      s := Candidate(m, disc, step, index);
      var overlaps := OverlapsPlaced(s);
      clear := !overlaps;
    }

    /** Follows the spiral from `index` to the first clear candidate, for at most `attempts` candidates. */
    method FollowSpiral(disc: Disc, step: real, index: nat, attempts: nat, ghost spiral: nat -> Spot)
      returns (last: nat, found: Option<Spot>)
      requires Valid() && m.Lawful() && gap >= 0.0 && disc.radius >= 0.0 && IsSpiral(spiral, disc, step)
      ensures index <= last <= index + attempts
      ensures forall k: nat | index < k < last :: !Clear(spiral(k))
      ensures found.Some? ==> index < last && found.value == spiral(last) && Clear(found.value)
      ensures found.None? ==> last == index + attempts && (index < last ==> !Clear(spiral(last)))
    {
      last, found := index, None;
      var attempt := 0;
      while attempt < attempts && found == None
        invariant 0 <= attempt <= attempts && last == index + attempt
        invariant forall k: nat | index < k < last :: !Clear(spiral(k))
        invariant found.Some? ==> index < last && found.value == spiral(last) && Clear(found.value)
        invariant found.None? && index < last ==> !Clear(spiral(last))
      {
        last := last + 1;
        var s, clear := TryCandidate(disc, step, last, spiral);
        if clear {
          found := Some(s);
        }
        attempt := attempt + 1;
      }
    }

    /** The first clear candidate is what the plain search finds. */
    lemma {:induction false} SearchFinds(spiral: nat -> Spot, index: nat, attempts: nat, last: nat, found: Option<Spot>)
      requires index <= last <= index + attempts
      requires forall k: nat | index < k < last :: !Clear(spiral(k))
      requires found.Some? ==> index < last && found.value == spiral(last) && Clear(found.value)
      requires found.None? ==> last == index + attempts && (index < last ==> !Clear(spiral(last)))
      ensures (last, found) == Search(m, Positions(placed), spiral, gap, index, attempts)
      decreases attempts
    {
      if attempts > 0 {
        if found.None? || index + 1 < last {
          assert !Clear(spiral(index + 1));
          SearchFinds(spiral, index + 1, attempts - 1, last, found);
        }
      }
    }

    method SearchSpiral(disc: Disc, step: real, attempts: nat) returns (last: nat, found: Option<Spot>)
      requires Valid() && m.Lawful() && gap >= 0.0 && disc.radius >= 0.0
      ensures (last, found) == Search(m, Positions(placed), Spiral(m, disc, step), gap, spiralIndex, attempts)
    {
      ghost var spiral := Spiral(m, disc, step);
      last, found := FollowSpiral(disc, step, spiralIndex, attempts, spiral);
      SearchFinds(spiral, spiralIndex, attempts, last, found);
    }

    /** Moves `item` to its spot, and records it as placed. */
    method Settle(item: Circle, x: real, y: real)
      requires Valid() && item !in placed && item.radius >= 0.0
      modifies this`placed, this`cells, item`x, item`y
      ensures placed == old(placed) + [item] && Valid()
      ensures item.x == x && item.y == y
      ensures Positions(placed) == old(Positions(placed)) + [Spot(item.Outline(), x, y)]
    {
      item.x, item.y := x, y;
      placed := placed + [item];
      forall c | c in placed && c != item ensures Indexed(c) {
        assert c in old(placed) && old(Indexed(c));
      }
      IndexItem(item);
    }

    /** The spot of the next circle: the origin for the first, else along the spiral, else beyond everything. */
    method FindSpot(disc: Disc, step: real, attempts: nat) returns (index: nat, spot: Spot)
      requires Valid() && m.Lawful() && gap >= 0.0 && disc.radius >= 0.0
      ensures (index, spot) == NextSpot(m, Current(), disc, gap, step, attempts)
    {
      if |placed| == 0 {
        return spiralIndex, Spot(disc, 0.0, 0.0);
      }
      var last, found := SearchSpiral(disc, step, attempts);
      index := last;
      spot := match found
        case Some(s) => s
        case None => Spot(disc, outerRadius + disc.radius + gap, 0.0);
    }

    method Record(index: nat, outer: real)
      requires Valid()
      modifies this`spiralIndex, this`outerRadius
      ensures Valid() && Current() == old(Current()).(index := index, outer := outer)
    {
      spiralIndex, outerRadius := index, outer;
      forall c | c in placed ensures Indexed(c) {
        assert old(Indexed(c));
        assert forall cell | InCells(c.x, c.y, c.radius, cellSize, cell) :: cell in cells && c in cells[cell];
      }
    }

    /** One round of the packing loop does what the plain scan does with the next circle. */
    method PlaceOne(item: Circle, step: real, attempts: nat)
      requires Valid() && m.Lawful() && gap >= 0.0 && item !in placed && item.radius >= 0.0
      modifies this, item`x, item`y
      ensures Valid() && placed == old(placed) + [item]
      ensures Current() == PlaceNext(m, old(Current()), old(item.Outline()), gap, step, attempts)
    {
      var index, spot := FindSpot(item.Outline(), step, attempts);
      var outer := if |placed| == 0 then item.radius else Max(outerRadius, m.Hypot(spot.x, spot.y) + item.radius);
      Settle(item, spot.x, spot.y);
      Record(index, outer);
    }
  }

  lemma {:induction false} PositionsPermuted(s: seq<Circle>, t: seq<Circle>)
    requires multiset(s) == multiset(t)
    ensures multiset(Positions(s)) == multiset(Positions(t))
    decreases |s|
  {
    if s == [] {
      SameElements(s, t);
    } else {
      var i := TakeOut(s, t);
      var rest := t[..i] + t[i + 1..];
      PositionsPermuted(s[1..], rest);
      assert Positions(s) == [s[0].Position()] + Positions(s[1..]);
      assert Positions(rest) == Positions(t)[..i] + Positions(t)[i + 1..];
      assert Positions(t) == Positions(t)[..i] + ([s[0].Position()] + Positions(t)[i + 1..]);
    }
  }

  lemma ApartEitherWay(m: Math, s: Spot, t: Spot, gap: real)
    requires m.Lawful() && Apart(m, s, t, gap)
    ensures Apart(m, t, s, gap)
  {
    HypotEven(m, s.x - t.x, s.y - t.y);
    assert -(s.x - t.x) == t.x - s.x && -(s.y - t.y) == t.y - s.y;
  }

  lemma PositionsApart(m: Math, items: seq<Circle>, order: seq<Circle>, gap: real)
    requires m.Lawful() && multiset(order) == multiset(items)
    requires AllApart(m, Positions(order), gap)
    ensures forall a, b | a in items && b in items && a != b :: Apart(m, a.Position(), b.Position(), gap)
  {
    SameElements(order, items);
    forall a, b | a in items && b in items && a != b ensures Apart(m, a.Position(), b.Position(), gap) {
      var i :| 0 <= i < |order| && order[i] == a;
      var j :| 0 <= j < |order| && order[j] == b;
      if i > j {
        assert Apart(m, Positions(order)[i], Positions(order)[j], gap);
      } else {
        assert Apart(m, Positions(order)[j], Positions(order)[i], gap);
        ApartEitherWay(m, b.Position(), a.Position(), gap);
      }
    }
  }

  lemma FromOrder(m: Math, items: seq<Circle>, order: seq<Circle>, discs: seq<Disc>, gap: real, spiralStep: real)
    requires m.Lawful() && multiset(order) == multiset(items)
    requires Positions(order) == Pack(m, discs, gap, spiralStep)
    ensures multiset(Positions(items)) == multiset(Pack(m, discs, gap, spiralStep))
    ensures forall a, b | a in items && b in items && a != b :: Apart(m, a.Position(), b.Position(), gap)
  {
    PositionsPermuted(order, items);
    PackApart(m, discs, gap, spiralStep);
    PositionsApart(m, items, order, gap);
  }

  lemma PlaceOneMore(m: Math, outlines: seq<Disc>, k: nat, gap: real, step: real, attempts: nat)
    requires k < |outlines|
    ensures Place(m, outlines[..k + 1], gap, step, attempts)
         == PlaceNext(m, Place(m, outlines[..k], gap, step, attempts), outlines[k], gap, step, attempts)
  {
    PrefixGrows(outlines, k);
  }

  lemma NotYetPlaced(order: seq<Circle>, k: nat)
    requires Distinct(order) && k < |order|
    ensures order[k] !in order[..k] && order[k] in order
    ensures order[..k + 1] == order[..k] + [order[k]]
  {
    PrefixGrows(order, k);
  }

  /** The packing loop over the sorted circles. */
  method PlaceInOrder(m: Math, order: seq<Circle>, ghost items: seq<Circle>, outlines: seq<Disc>, gap: real, step: real,
                      attempts: nat)
    requires m.Lawful() && gap >= 0.0 && Distinct(order) && outlines == Outlines(order)
    requires forall c | c in order :: c in items
    requires forall c | c in order :: c.radius >= 0.0
    modifies items
    ensures forall c | c in items :: c.radius == old(c.radius)
    ensures Positions(order) == Place(m, outlines, gap, step, attempts).spots
  {
    var packer := new Packer(m, gap, CellSize(outlines, gap));
    for k := 0 to |order|
      invariant packer.Valid() && packer.placed == order[..k]
      invariant forall c | c in items :: c.radius == old(c.radius)
      invariant packer.Current() == Place(m, outlines[..k], gap, step, attempts)
    {
      PlaceOneMore(m, outlines, k, gap, step, attempts);
      NotYetPlaced(order, k);
      assert order[k].Outline() == outlines[k];
      packer.PlaceOne(order[k], step, attempts);
    }
    assert outlines[..|order|] == outlines && order[..|order|] == order;
  }

  /**
   Packs the circles: each is moved to the spot that the plain scan gives it, so all of them end up at least
   the gap apart. Radii and keys stay.
   */
  method PackGraphCircles(m: Math, items: seq<Circle>, gap: real, spiralStep: real)
    requires m.Lawful() && gap >= 0.0 && Distinct(items)
    requires forall c | c in items :: c.radius >= 0.0
    modifies items
    ensures forall c | c in items :: c.radius == old(c.radius)
    ensures multiset(Positions(items)) == multiset(Pack(m, old(Outlines(items)), gap, spiralStep))
    ensures exists spots, step, indices ::
              multiset(Positions(items)) == multiset(spots)
              && IsPacked(m, old(Outlines(items)), gap, spiralStep, spots, step, indices)
    ensures forall a, b | a in items && b in items && a != b :: Apart(m, a.Position(), b.Position(), gap)
  {
    var order := Ordered(items);
    ghost var discs := Outlines(items);
    var outlines := Outlines(order);
    PlaceInOrder(m, order, items, outlines, gap, EffectiveStep(outlines, gap, spiralStep), MAX_ATTEMPTS);
    FromOrder(m, items, order, discs, gap, spiralStep);
    PackFollowsSpiral(m, discs, gap, spiralStep);
  }
}
