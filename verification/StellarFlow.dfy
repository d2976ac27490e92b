/**
 The directed half of the focused layout: the links between visible nodes, the role and depth of a node
 from its two distances to the focus, the grid of a layer, and the depth shown on an edge.
 */
module StellarFlow {
  import opened Numbers
  import opened Options
  import opened StellarConstellation
  import opened StellarDepths
  import opened StellarKeys
  import opened StellarTargets

  const FLOW_COLUMN_GAP := 156.0

  datatype Edge = Edge(source: int, target: int)

  // ----- links

  /** Both ends are drawn and differ. */
  predicate Visible(ids: set<int>, e: Edge) { e.source in ids && e.target in ids && e.source != e.target }

  ghost predicate IsLink(ids: set<int>, edges: seq<Edge>, u: int, v: int) {
    Edge(u, v) in edges && Visible(ids, Edge(u, v))
  }

  function AddLink(adjacency: Adjacency, u: int, v: int): (r: Adjacency)
    ensures forall a, b :: IsStep(r, a, b) <==> IsStep(adjacency, a, b) || (a == u && b == v)
  {
    adjacency[u := Neighbors(adjacency, u) + [v]]
  }

  function OutgoingLinks(ids: set<int>, edges: seq<Edge>): (r: Adjacency)
    ensures forall u, v :: IsStep(r, u, v) <==> IsLink(ids, edges, u, v)
  {
    if edges == [] then map[]
    else
      var before, last := edges[..|edges| - 1], edges[|edges| - 1];
      assert edges == before + [last];
      if Visible(ids, last) then AddLink(OutgoingLinks(ids, before), last.source, last.target)
      else OutgoingLinks(ids, before)
  }

  function IncomingLinks(ids: set<int>, edges: seq<Edge>): (r: Adjacency)
    ensures forall u, v :: IsStep(r, u, v) <==> IsLink(ids, edges, v, u)
  {
    if edges == [] then map[]
    else
      var before, last := edges[..|edges| - 1], edges[|edges| - 1];
      assert edges == before + [last];
      if Visible(ids, last) then AddLink(IncomingLinks(ids, before), last.target, last.source)
      else IncomingLinks(ids, before)
  }

  method BuildLinks(ids: set<int>, edges: seq<Edge>) returns (outgoing: Adjacency, incoming: Adjacency)
    ensures outgoing == OutgoingLinks(ids, edges) && incoming == IncomingLinks(ids, edges)
  {
    outgoing, incoming := map[], map[];
    for i := 0 to |edges|
      invariant outgoing == OutgoingLinks(ids, edges[..i]) && incoming == IncomingLinks(ids, edges[..i])
    {
      var edge := edges[i];
      assert edges[..i + 1] == edges[..i] + [edge];
      if Visible(ids, edge) {
        outgoing := AddLink(outgoing, edge.source, edge.target);
        incoming := AddLink(incoming, edge.target, edge.source);
      }
    }
    assert edges[..|edges|] == edges;
  }

  // ----- roles

  datatype Flow = Flow(role: Role, depth: nat)

  function DepthOf(depths: map<int, nat>, v: int): Option<nat> { if v in depths then Some(depths[v]) else None }

  /** The role a node gets from its incoming and outgoing distance; the focus itself gets none. */
  function FlowOf(incomingDepth: Option<nat>, outgoingDepth: Option<nat>): Option<Flow> {
    var flow :=
      if incomingDepth.Some? && outgoingDepth.Some? then
        if incomingDepth == outgoingDepth then Some(Flow(Bidirectional, incomingDepth.value))
        else if incomingDepth.value < outgoingDepth.value then Some(Flow(Incoming, incomingDepth.value))
        else Some(Flow(Outgoing, outgoingDepth.value))
      else if incomingDepth.Some? then Some(Flow(Incoming, incomingDepth.value))
      else if outgoingDepth.Some? then Some(Flow(Outgoing, outgoingDepth.value))
      else None;
    if flow.Some? && flow.value.depth == 0 then None else flow
  }

  /** What breadth-first search promises: the distances up to four, and nothing else. */
  ghost predicate KnowsAll(depths: map<int, nat>, adjacency: Adjacency, start: int) {
    && (forall v | v in depths :: depths[v] <= MAX_FLOW_DEPTH && IsDistance(adjacency, start, v, depths[v]))
    && (forall v, d: nat | d <= MAX_FLOW_DEPTH && IsDistance(adjacency, start, v, d) :: v in depths && depths[v] == d)
  }

  /** `v` is at most `d` steps away. */
  ghost predicate Within(adjacency: Adjacency, start: int, v: int, d: nat) {
    exists e: nat :: e <= d && IsDistance(adjacency, start, v, e)
  }

  lemma OnlyStartAtZero(adjacency: Adjacency, start: int, v: int)
    ensures IsDistance(adjacency, start, v, 0) <==> v == start
  {
  }

  lemma KnownDepth(depths: map<int, nat>, adjacency: Adjacency, start: int, v: int, d: nat)
    requires KnowsAll(depths, adjacency, start) && d <= MAX_FLOW_DEPTH
    ensures IsDistance(adjacency, start, v, d) <==> DepthOf(depths, v) == Some(d)
    ensures Within(adjacency, start, v, d) <==> v in depths && depths[v] <= d
  {
    if v in depths && depths[v] <= d {
      assert IsDistance(adjacency, start, v, depths[v]);
    }
  }

  /**
   A node other than the focus is outgoing at the depth of its outgoing distance when the incoming one is larger,
   incoming when the outgoing one is larger, bidirectional when they are equal; distances beyond four count as none.
   */
  lemma RoleByDistance(inDepths: map<int, nat>, outDepths: map<int, nat>, incoming: Adjacency, outgoing: Adjacency,
                       focus: int, v: int, d: nat)
    requires KnowsAll(inDepths, incoming, focus) && KnowsAll(outDepths, outgoing, focus)
    requires v != focus && d <= MAX_FLOW_DEPTH
    ensures FlowOf(DepthOf(inDepths, v), DepthOf(outDepths, v)) == Some(Flow(Outgoing, d))
       <==> IsDistance(outgoing, focus, v, d) && !Within(incoming, focus, v, d)
    ensures FlowOf(DepthOf(inDepths, v), DepthOf(outDepths, v)) == Some(Flow(Incoming, d))
       <==> IsDistance(incoming, focus, v, d) && !Within(outgoing, focus, v, d)
    ensures FlowOf(DepthOf(inDepths, v), DepthOf(outDepths, v)) == Some(Flow(Bidirectional, d))
       <==> IsDistance(incoming, focus, v, d) && IsDistance(outgoing, focus, v, d)
  {
    KnownDepth(inDepths, incoming, focus, v, d);
    KnownDepth(outDepths, outgoing, focus, v, d);
    OnlyStartAtZero(incoming, focus, v);
    OnlyStartAtZero(outgoing, focus, v);
  }

  /** A node has no role exactly when it is the focus or four steps lead to it neither way; a depth is 1 to 4. */
  lemma NoRoleBeyondFour(inDepths: map<int, nat>, outDepths: map<int, nat>, incoming: Adjacency, outgoing: Adjacency,
                         focus: int, v: int)
    requires KnowsAll(inDepths, incoming, focus) && KnowsAll(outDepths, outgoing, focus)
    ensures FlowOf(DepthOf(inDepths, v), DepthOf(outDepths, v)) == None
       <==> v == focus || (!Within(incoming, focus, v, MAX_FLOW_DEPTH) && !Within(outgoing, focus, v, MAX_FLOW_DEPTH))
    ensures var flow := FlowOf(DepthOf(inDepths, v), DepthOf(outDepths, v));
            flow.Some? ==> 1 <= flow.value.depth <= MAX_FLOW_DEPTH && Directed(flow.value.role)
  {
    KnownDepth(inDepths, incoming, focus, v, MAX_FLOW_DEPTH);
    KnownDepth(outDepths, outgoing, focus, v, MAX_FLOW_DEPTH);
    OnlyStartAtZero(incoming, focus, v);
    OnlyStartAtZero(outgoing, focus, v);
  }

  // ----- the grid of a layer

  function Columns(m: Math, count: nat): (c: nat)
    ensures c >= 1
  {
    var c := Ceil(m.Sqrt(count as real / 2.0));
    if c >= 1 then c else 1
  }

  /** `Math.ceil(count / columns)`. */
  function Rows(count: nat, columns: nat): nat
    requires columns >= 1
  {
    (count + columns - 1) / columns
  }

  function ColumnSpacing(columns: nat): real {
    if columns <= 1 then 0.0 else Min(30.0, 130.0 / (columns - 1) as real)
  }

  function RowSpacing(rows: nat): real {
    if rows <= 1 then 0.0 else Max(18.0, Min(60.0, 760.0 / (rows - 1) as real))
  }

  /** A line of cells centred on zero. */
  function Centred(cell: nat, cells: nat, spacing: real): real {
    Scaled(cell as real - (cells - 1) as real / 2.0, spacing)
  }

  function LaneX(m: Math, index: nat, count: nat): real {
    var columns := Columns(m, count);
    Centred(index % columns, columns, ColumnSpacing(columns))
  }

  function LaneY(m: Math, index: nat, count: nat): real {
    var columns := Columns(m, count);
    var rows := Rows(count, columns);
    Centred(index / columns, rows, RowSpacing(rows))
  }

  lemma SpacingFits(columns: nat)
    requires columns > 1
    ensures 0.0 < ColumnSpacing(columns) && Scaled((columns - 1) as real, ColumnSpacing(columns)) <= 130.0
  {
    var n := (columns - 1) as real;
    var q := 130.0 / n;
    assert q * n == 130.0;
    ProductPositive(q, n, 130.0);
    if ColumnSpacing(columns) < q {
      ScaleLess(ColumnSpacing(columns), q, n);
    }
    assert Scaled(n, ColumnSpacing(columns)) == ColumnSpacing(columns) * n;
  }

  lemma CentredBound(cell: nat, cells: nat, spacing: real)
    requires cell < cells && spacing > 0.0
    ensures -Scaled((cells - 1) as real, spacing) / 2.0 <= Centred(cell, cells, spacing)
    ensures Centred(cell, cells, spacing) <= Scaled((cells - 1) as real, spacing) / 2.0
  {
    var half := (cells - 1) as real / 2.0;
    ScaledLeq(-half, cell as real - half, spacing);
    ScaledLeq(cell as real - half, half, spacing);
    assert Scaled(half, spacing) == Scaled((cells - 1) as real, spacing) / 2.0;
    assert Scaled(-half, spacing) == -Scaled(half, spacing);
  }

  /** However large a layer is, its grid is at most 130 wide. */
  lemma LaneXBound(m: Math, index: nat, count: nat)
    ensures -65.0 <= LaneX(m, index, count) <= 65.0
  {
    var columns := Columns(m, count);
    if columns > 1 {
      SpacingFits(columns);
      CentredBound(index % columns, columns, ColumnSpacing(columns));
    } else {
      assert Centred(index % columns, columns, 0.0) == 0.0;
    }
  }

  lemma HalfExtent(rows: nat)
    requires rows > 1
    ensures 18.0 <= RowSpacing(rows) <= 60.0
    ensures Scaled((rows - 1) as real, RowSpacing(rows)) <= Max(760.0, 18.0 * (rows - 1) as real)
  {
    var n := (rows - 1) as real;
    var q := 760.0 / n;
    assert q * n == 760.0;
    if 60.0 < q { ScaleLess(60.0, q, n); }
    if 18.0 < q { ScaleLess(18.0, q, n); }
    assert Scaled(n, RowSpacing(rows)) == RowSpacing(rows) * n;
  }

  lemma ProductLeq(a: nat, b: nat, k: nat)
    requires a <= b
    ensures a * k <= b * k
  {
  }

  lemma RowInRange(index: nat, count: nat, columns: nat)
    requires index < count && columns >= 1
    ensures index / columns < Rows(count, columns)
  {
    var row, rows := index / columns, Rows(count, columns);
    assert index == row * columns + index % columns;
    assert count + columns - 1 == rows * columns + (count + columns - 1) % columns;
    if row >= rows {
      ProductLeq(rows, row, columns);
    }
  }

  /** Rows are 18 to 60 apart, and a layer is no taller than 760 unless rows 18 apart need more. */
  lemma LaneYBound(m: Math, index: nat, count: nat)
    requires index < count
    ensures var rows := Rows(count, Columns(m, count));
            -Max(380.0, 9.0 * (rows - 1) as real) <= LaneY(m, index, count) <= Max(380.0, 9.0 * (rows - 1) as real)
  {
    var columns := Columns(m, count);
    var rows := Rows(count, columns);
    RowInRange(index, count, columns);
    if rows > 1 {
      HalfExtent(rows);
      CentredBound(index / columns, rows, RowSpacing(rows));
    } else {
      assert Centred(index / columns, rows, 0.0) == 0.0;
    }
  }

  lemma CentredDistinct(a: nat, b: nat, cells: nat, spacing: real)
    requires a != b && spacing > 0.0
    ensures Centred(a, cells, spacing) != Centred(b, cells, spacing)
  {
    var half := (cells - 1) as real / 2.0;
    if a < b {
      ScaledLess(a as real - half, b as real - half, spacing);
    } else {
      ScaledLess(b as real - half, a as real - half, spacing);
    }
  }

  lemma RowsDiffer(i: nat, j: nat, columns: nat)
    requires i < j && columns >= 1 && i % columns == j % columns
    ensures i / columns != j / columns
  {
    assert i == i / columns * columns + i % columns;
    assert j == j / columns * columns + j % columns;
  }

  /** No two places of a layer coincide. */
  lemma LanesDistinct(m: Math, i: nat, j: nat, count: nat)
    requires i < j < count
    ensures LaneX(m, i, count) != LaneX(m, j, count) || LaneY(m, i, count) != LaneY(m, j, count)
  {
    var columns := Columns(m, count);
    var rows := Rows(count, columns);
    if i % columns != j % columns {
      if columns > 1 {
        SpacingFits(columns);
        CentredDistinct(i % columns, j % columns, columns, ColumnSpacing(columns));
      }
    } else {
      RowsDiffer(i, j, columns);
      CentredDistinct(i / columns, j / columns, rows, RowSpacing(rows));
    }
  }

  // ----- positions

  /** Incoming layers go left, outgoing ones right; bidirectional nodes alternate between the two sides. */
  function FlowX(env: Env, flow: Flow, index: nat, laneX: real): real {
    var column := env.Distance(flow.depth) * FLOW_COLUMN_GAP;
    match flow.role
    case Incoming => -column + laneX
    case Outgoing => column + laneX
    case Bidirectional => (if index % 2 == 0 then -1.0 else 1.0) * (80.0 + flow.depth as real * 28.0) + laneX
    case _ => laneX
  }

  function FlowTarget(env: Env, flow: Flow, index: nat, count: nat, node: GraphNode, sector: Sector): Target {
    Target(FlowX(env, flow, index, LaneX(env.m, index, count)), LaneY(env.m, index, count),
           flow.role, Some(flow.depth), Some(FlowLaneKey(node)), sector)
  }

  /** Incoming nodes are strictly left of the focus and outgoing ones strictly right; no directed node covers it. */
  lemma SidesOfFocus(env: Env, flow: Flow, index: nat, count: nat)
    requires env.DistanceLaw(flow.depth) && flow.depth >= 1
    ensures var x := FlowX(env, flow, index, LaneX(env.m, index, count));
            && (flow.role == Incoming ==> x <= -91.0)
            && (flow.role == Outgoing ==> x >= 91.0)
            && (flow.role == Bidirectional ==> if index % 2 == 0 then x <= -43.0 else x >= 43.0)
  {
    LaneXBound(env.m, index, count);
  }

  /** Two nodes of one layer never share a position. */
  lemma SeatsDistinct(env: Env, flow: Flow, i: nat, j: nat, count: nat)
    requires i < j < count && Directed(flow.role) && env.DistanceLaw(flow.depth) && flow.depth >= 1
    ensures FlowX(env, flow, i, LaneX(env.m, i, count)) != FlowX(env, flow, j, LaneX(env.m, j, count))
            || LaneY(env.m, i, count) != LaneY(env.m, j, count)
  {
    LanesDistinct(env.m, i, j, count);
    SidesOfFocus(env, flow, i, count);
    SidesOfFocus(env, flow, j, count);
  }

  // ----- the depth shown on an edge

  /** The depth of an edge between two laid-out nodes, or nothing for a cross-link. */
  function StellarFlowEdgeDepth(sourceId: int, targetId: int, targets: map<int, Target>): Option<nat> {
    if sourceId !in targets || targetId !in targets then None
    else
      var source, target := targets[sourceId], targets[targetId];
      if source.role == Focus then
        if target.depth == Some(1) && (target.role == Outgoing || target.role == Bidirectional) then Some(1) else None
      else if target.role == Focus then
        if source.depth == Some(1) && (source.role == Incoming || source.role == Bidirectional) then Some(1) else None
      else if source.depth == None || target.depth == None then None
      else if (source.role == Outgoing || source.role == Bidirectional)
              && (target.role == Outgoing || target.role == Bidirectional)
              && target.depth.value == source.depth.value + 1 then target.depth
      else if (source.role == Incoming || source.role == Bidirectional)
              && (target.role == Incoming || target.role == Bidirectional)
              && source.depth.value == target.depth.value + 1 then source.depth
      else None
  }

  /** What a layout says about one node agrees with the distances to and from the focus. */
  ghost predicate Truthful(targets: map<int, Target>, incoming: Adjacency, outgoing: Adjacency, focus: int, v: int)
    requires v in targets
  {
    var t := targets[v];
    && (t.role == Focus <==> v == focus)
    && (t.role == Focus ==> t.depth == Some(0))
    && (t.depth.Some? && (t.role == Outgoing || t.role == Bidirectional)
        ==> IsDistance(outgoing, focus, v, t.depth.value))
    && (t.depth.Some? && (t.role == Incoming || t.role == Bidirectional)
        ==> IsDistance(incoming, focus, v, t.depth.value))
  }

  /** A shortest walk of `d` steps from `start` whose last step is from `u` to `v`. */
  ghost predicate EndsShortestWalk(adjacency: Adjacency, start: int, u: int, v: int, d: nat) {
    && d >= 1
    && IsDistance(adjacency, start, v, d)
    && exists path :: WalkFromTo(adjacency, path, start, v, d) && path[d - 1] == u
  }

  lemma StepEndsWalk(adjacency: Adjacency, start: int, u: int, v: int, d: nat)
    requires d >= 1 && IsDistance(adjacency, start, u, d - 1) && IsDistance(adjacency, start, v, d)
    requires IsStep(adjacency, u, v)
    ensures EndsShortestWalk(adjacency, start, u, v, d)
  {
    var before := WalkOfReach(adjacency, start, u, d - 1);
    var path := before + [v];
    assert forall i | 0 <= i < d :: path[i] == before[i];
    assert WalkFromTo(adjacency, path, start, v, d);
  }

  lemma EdgeDepthCases(targets: map<int, Target>, incoming: Adjacency, outgoing: Adjacency, focus: int, u: int, v: int,
                       d: nat)
    requires u in targets && v in targets && IsStep(outgoing, u, v) && IsStep(incoming, v, u)
    requires Truthful(targets, incoming, outgoing, focus, u) && Truthful(targets, incoming, outgoing, focus, v)
    requires StellarFlowEdgeDepth(u, v, targets) == Some(d)
    ensures EndsShortestWalk(outgoing, focus, u, v, d) || EndsShortestWalk(incoming, focus, v, u, d)
  {
    OnlyStartAtZero(outgoing, focus, focus);
    OnlyStartAtZero(incoming, focus, focus);
    if d >= 1 && IsDistance(outgoing, focus, v, d) && IsDistance(outgoing, focus, u, d - 1) {
      StepEndsWalk(outgoing, focus, u, v, d);
    } else {
      StepEndsWalk(incoming, focus, v, u, d);
    }
  }

  /** An edge that is given a depth lies on a shortest walk of that length, away from the focus or towards it. */
  lemma EdgeDepthIsDistance(targets: map<int, Target>, ids: set<int>, edges: seq<Edge>, focus: int, u: int, v: int,
                            d: nat)
    requires u in targets && v in targets && IsLink(ids, edges, u, v)
    requires Truthful(targets, IncomingLinks(ids, edges), OutgoingLinks(ids, edges), focus, u)
    requires Truthful(targets, IncomingLinks(ids, edges), OutgoingLinks(ids, edges), focus, v)
    requires StellarFlowEdgeDepth(u, v, targets) == Some(d)
    ensures EndsShortestWalk(OutgoingLinks(ids, edges), focus, u, v, d)
            || EndsShortestWalk(IncomingLinks(ids, edges), focus, v, u, d)
  {
    EdgeDepthCases(targets, IncomingLinks(ids, edges), OutgoingLinks(ids, edges), focus, u, v, d);
  }

  function Reversed(path: seq<int>): (r: seq<int>)
    ensures |r| == |path| && forall i | 0 <= i < |path| :: r[i] == path[|path| - 1 - i]
  {
    seq(|path|, i requires 0 <= i < |path| => path[|path| - 1 - i])
  }

  ghost predicate Mirrors(a: Adjacency, b: Adjacency) { forall u, v :: IsStep(a, u, v) <==> IsStep(b, v, u) }

  /** A walk, read backwards, is a walk along the mirrored links. */
  lemma ReversedWalk(a: Adjacency, b: Adjacency, path: seq<int>, start: int, v: int, n: nat)
    requires Mirrors(a, b) && WalkFromTo(a, path, start, v, n)
    ensures WalkFromTo(b, Reversed(path), v, start, n)
  {
    var r := Reversed(path);
    forall i | 0 <= i < |r| - 1 ensures IsStep(b, r[i], r[i + 1]) {
      assert IsStep(a, path[n - 1 - i], path[n - 1 - i + 1]);
    }
  }

  lemma ReachesBack(a: Adjacency, b: Adjacency, start: int, v: int, n: nat)
    requires Mirrors(a, b) && Reaches(a, start, v, n)
    ensures Reaches(b, v, start, n)
  {
    var path := WalkOfReach(a, start, v, n);
    ReversedWalk(a, b, path, start, v, n);
    ReachOfWalk(b, Reversed(path), v, start, n);
  }

  /** A node's incoming distance is the length of its shortest walks along the edges to the focus. */
  lemma IncomingDistanceIsOutward(ids: set<int>, edges: seq<Edge>, focus: int, v: int, d: nat)
    ensures IsDistance(IncomingLinks(ids, edges), focus, v, d) <==> IsDistance(OutgoingLinks(ids, edges), v, focus, d)
  {
    var incoming, outgoing := IncomingLinks(ids, edges), OutgoingLinks(ids, edges);
    assert Mirrors(incoming, outgoing) && Mirrors(outgoing, incoming);
    forall n: nat ensures Reaches(incoming, focus, v, n) <==> Reaches(outgoing, v, focus, n) {
      if Reaches(incoming, focus, v, n) {
        ReachesBack(incoming, outgoing, focus, v, n);
      }
      if Reaches(outgoing, v, focus, n) {
        ReachesBack(outgoing, incoming, v, focus, n);
      }
    }
  }
}
