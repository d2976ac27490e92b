/** How far out the directed layers of a focused layout stand, and which edges are shown with a depth. */
module StellarReach {
  import opened Numbers
  import opened Options
  import opened StellarConstellation
  import opened StellarDepths
  import opened StellarFlow
  import opened StellarKeys
  import opened StellarLayout
  import opened StellarTargets

  // ----- columns

  /** `depth ** 0.72` grows with the depth. */
  ghost predicate DistanceGrows(env: Env) {
    forall d: nat, e: nat | d < e :: env.Distance(d) < env.Distance(e)
  }

  /** Where the column of a layer stands; a bidirectional layer has one on each side. */
  function ColumnX(env: Env, flow: Flow, left: bool): real {
    match flow.role
    case Incoming => -156.0 * env.Distance(flow.depth)
    case Outgoing => 156.0 * env.Distance(flow.depth)
    case _ => if left then -80.0 - 28.0 * flow.depth as real else 80.0 + 28.0 * flow.depth as real
  }

  /** How many nodes share the layer of `v`. */
  function LayerSize(f: Finished, v: int): nat
    requires v in f.roles && FlowKey(f.roles[v]) in f.sorted
  {
    |f.sorted[FlowKey(f.roles[v])]|
  }

  lemma UnitRoot(q: real)
    requires q >= 0.0 && q * q == 1.0
    ensures q == 1.0
  {
    if q > 1.0 { ScaleLess(1.0, q, q); }
    if 0.0 < q < 1.0 { ScaleLess(q, 1.0, q); }
  }

  lemma LoneColumn(m: Math, index: nat, count: nat)
    requires m.Lawful() && count <= 2
    ensures LaneX(m, index, count) == 0.0
  {
    var half := count as real / 2.0;
    SqrtGrows(m, half, 1.0);
    assert m.SqrtLaw(1.0);
    UnitRoot(m.Sqrt(1.0));
    assert m.SqrtLaw(half);
    assert Columns(m, count) == 1;
    assert Centred(index % 1, 1, 0.0) == 0.0;
  }

  /** The grid of a layer is laid over its column. */
  lemma OverColumn(env: Env, flow: Flow, index: nat, laneX: real)
    requires Directed(flow.role)
    ensures FlowX(env, flow, index, laneX) == ColumnX(env, flow, index % 2 == 0) + laneX
  {
  }

  lemma LaneOffset(m: Math, index: nat, count: nat)
    requires m.Lawful()
    ensures -65.0 <= LaneX(m, index, count) <= 65.0 && (count <= 2 ==> LaneX(m, index, count) == 0.0)
  {
    LaneXBound(m, index, count);
    if count <= 2 {
      LoneColumn(m, index, count);
    }
  }

  /** Every node of a layer stands within 65 of a column, and in it when there are at most two. */
  lemma StandsInColumn(f: Finished, v: int) returns (left: bool)
    requires f.env.m.Lawful() && IsFlowLayout(f)
    requires v in f.roles && v in IdsOf(f.nodes) && Directed(f.roles[v].role)
    ensures FlowKey(f.roles[v]) in f.sorted && v in f.targets
    ensures -65.0 <= f.targets[v].x - ColumnX(f.env, f.roles[v], left) <= 65.0
    ensures LayerSize(f, v) <= 2 ==> f.targets[v].x == ColumnX(f.env, f.roles[v], left)
  {
    var i, node := SeatOf(f, v);
    left := i % 2 == 0;
    LaneOffset(f.env.m, i, LayerSize(f, v));
    OverColumn(f.env, f.roles[v], i, LaneX(f.env.m, i, LayerSize(f, v)));
  }

  /** A deeper layer of one side stands farther out: its column by 156 a step, its nodes but for the grids' width. */
  lemma FartherOut(f: Finished, v: int, w: int)
    requires f.env.m.Lawful() && DistanceGrows(f.env) && IsFlowLayout(f)
    requires v in f.roles && w in f.roles && v in IdsOf(f.nodes) && w in IdsOf(f.nodes)
    requires f.roles[v].role == f.roles[w].role && f.roles[v].depth < f.roles[w].depth
    requires f.roles[v].role == Incoming || f.roles[v].role == Outgoing
    ensures v in f.targets && w in f.targets
    ensures FlowKey(f.roles[v]) in f.sorted && FlowKey(f.roles[w]) in f.sorted
    ensures var apart := 156.0 * (f.env.Distance(f.roles[w].depth) - f.env.Distance(f.roles[v].depth));
            && apart > 0.0
            && (f.roles[v].role == Outgoing ==> f.targets[w].x >= f.targets[v].x + apart - 130.0)
            && (f.roles[v].role == Incoming ==> f.targets[w].x <= f.targets[v].x - apart + 130.0)
            && (LayerSize(f, v) <= 2 && LayerSize(f, w) <= 2 ==>
                  f.targets[w].x - f.targets[v].x == if f.roles[v].role == Outgoing then apart else -apart)
  {
    var a := StandsInColumn(f, v);
    var b := StandsInColumn(f, w);
  }

  // ----- the edges with a depth

  /** `x` is `d` steps away along `near`, at most four, and no nearer along `far`. */
  ghost predicate OnSide(near: Adjacency, far: Adjacency, focus: int, x: int, d: nat) {
    && d <= MAX_FLOW_DEPTH && IsDistance(near, focus, x, d)
    && forall e: nat | e < d :: !IsDistance(far, focus, x, e)
  }

  lemma OnlyFocusAtZero(near: Adjacency, far: Adjacency, focus: int, x: int, d: nat)
    ensures x == focus && OnSide(near, far, focus, x, d) ==> d == 0
    ensures OnSide(near, far, focus, focus, 0)
    ensures x != focus ==> !OnSide(near, far, focus, x, 0)
  {
    OnlyStartAtZero(near, focus, x);
    OnlyStartAtZero(near, focus, focus);
    if x == focus && OnSide(near, far, focus, x, d) {
      DistanceUnique(near, focus, x, 0, d);
    }
  }

  lemma SideOfFlow(f: Finished, incoming: Adjacency, outgoing: Adjacency, x: int, d: nat)
    requires TrueRoles(f.roles, IdsOf(f.nodes), f.focus, incoming, outgoing)
    requires x in IdsOf(f.nodes) && x != f.focus
    ensures OnSide(outgoing, incoming, f.focus, x, d)
       <==> x in f.roles && f.roles[x].depth == d && f.roles[x].role in {Outgoing, Bidirectional}
    ensures OnSide(incoming, outgoing, f.focus, x, d)
       <==> x in f.roles && f.roles[x].depth == d && f.roles[x].role in {Incoming, Bidirectional}
  {
  }

  /** What the layout shows of a node says on which side it is. */
  lemma ShownOnSide(f: Finished, incoming: Adjacency, outgoing: Adjacency, x: int, d: nat)
    requires IsFlowLayout(f) && TrueRoles(f.roles, IdsOf(f.nodes), f.focus, incoming, outgoing)
    requires x in f.targets && x != f.focus
    ensures OnSide(outgoing, incoming, f.focus, x, d)
       <==> f.targets[x].depth == Some(d) && (f.targets[x].role == Outgoing || f.targets[x].role == Bidirectional)
    ensures OnSide(incoming, outgoing, f.focus, x, d)
       <==> f.targets[x].depth == Some(d) && (f.targets[x].role == Incoming || f.targets[x].role == Bidirectional)
  {
    ShownRoles(f, x);
    SideOfFlow(f, incoming, outgoing, x, d);
  }

  /** One end of the edge is a step nearer than the other, both on the same side of the focus. */
  ghost predicate LeadsOn(near: Adjacency, far: Adjacency, focus: int, u: int, v: int, d: nat) {
    d >= 1 && OnSide(near, far, focus, u, d - 1) && OnSide(near, far, focus, v, d)
  }

  /** The target is shown on the side of `role`, `d` steps out; the focus is on both sides, no step out. */
  predicate ShownAt(t: Target, role: Role, d: nat) {
    (t.role == Focus && d == 0) || (t.depth == Some(d) && (t.role == role || t.role == Bidirectional))
  }

  lemma SideIsShown(f: Finished, incoming: Adjacency, outgoing: Adjacency, x: int, d: nat)
    requires IsFlowLayout(f) && TrueRoles(f.roles, IdsOf(f.nodes), f.focus, incoming, outgoing)
    requires x in f.targets
    ensures OnSide(outgoing, incoming, f.focus, x, d) <==> ShownAt(f.targets[x], Outgoing, d)
    ensures OnSide(incoming, outgoing, f.focus, x, d) <==> ShownAt(f.targets[x], Incoming, d)
  {
    OnlyFocusAtZero(outgoing, incoming, f.focus, x, d);
    OnlyFocusAtZero(incoming, outgoing, f.focus, x, d);
    ShownRoles(f, x);
    if x != f.focus {
      ShownOnSide(f, incoming, outgoing, x, d);
    }
  }

  /** A depth is shown just on the focus and on directed nodes, and there it is at least one. */
  predicate WellShown(t: Target) {
    match t.role
    case Focus => t.depth == Some(0)
    case Context => t.depth == None
    case Hub => t.depth == None
    case _ => t.depth.Some? && t.depth.value >= 1
  }

  lemma LayoutWellShown(f: Finished, incoming: Adjacency, outgoing: Adjacency, x: int)
    requires IsFlowLayout(f) && TrueRoles(f.roles, IdsOf(f.nodes), f.focus, incoming, outgoing)
    requires x in f.targets
    ensures WellShown(f.targets[x])
  {
    ShownRoles(f, x);
  }

  lemma DepthOfShown(u: int, v: int, targets: map<int, Target>, d: nat)
    requires u in targets && v in targets && WellShown(targets[u]) && WellShown(targets[v])
    requires targets[u].role != Focus || targets[v].role != Focus
    ensures StellarFlowEdgeDepth(u, v, targets) == Some(d)
       <==> d >= 1 && (|| (ShownAt(targets[u], Outgoing, d - 1) && ShownAt(targets[v], Outgoing, d))
                       || (ShownAt(targets[v], Incoming, d - 1) && ShownAt(targets[u], Incoming, d)))
  {
  }

  /**
   An edge is shown with depth `d` exactly when it leads from `d - 1` to `d` steps away from the focus, or from `d` to
   `d - 1` steps towards it, between nodes that are no nearer the other way round.
   */
  lemma EdgeDepthExactly(f: Finished, incoming: Adjacency, outgoing: Adjacency, u: int, v: int, d: nat)
    requires IsFlowLayout(f) && TrueRoles(f.roles, IdsOf(f.nodes), f.focus, incoming, outgoing)
    requires u in f.targets && v in f.targets && u != v
    ensures StellarFlowEdgeDepth(u, v, f.targets) == Some(d)
       <==> LeadsOn(outgoing, incoming, f.focus, u, v, d) || LeadsOn(incoming, outgoing, f.focus, v, u, d)
  {
    OneFocus(f, incoming, outgoing, u);
    OneFocus(f, incoming, outgoing, v);
    LayoutWellShown(f, incoming, outgoing, u);
    LayoutWellShown(f, incoming, outgoing, v);
    DepthOfShown(u, v, f.targets, d);
    SideIsShown(f, incoming, outgoing, u, d);
    SideIsShown(f, incoming, outgoing, v, d);
    if d > 0 {
      SideIsShown(f, incoming, outgoing, u, d - 1);
      SideIsShown(f, incoming, outgoing, v, d - 1);
    }
  }

  lemma NeighbourAtOne(near: Adjacency, far: Adjacency, focus: int, x: int)
    requires IsStep(near, focus, x) && x != focus
    ensures OnSide(near, far, focus, focus, 0) && OnSide(near, far, focus, x, 1)
  {
    OnlyFocusAtZero(near, far, focus, x, 0);
    OnlyStartAtZero(near, focus, x);
    OnlyStartAtZero(far, focus, x);
    assert Reaches(near, focus, focus, 0);
    assert Reaches(near, focus, x, 1);
  }

  /** So every edge that leaves or enters the focus has depth one. */
  lemma FocusEdgesHaveDepth(f: Finished, edges: seq<Edge>, u: int, v: int)
    requires var ids := IdsOf(f.nodes);
             IsFlowLayout(f) && TrueRoles(f.roles, ids, f.focus, IncomingLinks(ids, edges), OutgoingLinks(ids, edges))
    requires IsLink(IdsOf(f.nodes), edges, u, v) && (u == f.focus || v == f.focus)
    ensures StellarFlowEdgeDepth(u, v, f.targets) == Some(1)
  {
    var ids := IdsOf(f.nodes);
    var incoming, outgoing := IncomingLinks(ids, edges), OutgoingLinks(ids, edges);
    EdgeDepthExactly(f, incoming, outgoing, u, v, 1);
    if u == f.focus {
      NeighbourAtOne(outgoing, incoming, f.focus, v);
    } else {
      NeighbourAtOne(incoming, outgoing, f.focus, u);
    }
  }
}
