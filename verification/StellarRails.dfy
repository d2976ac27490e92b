/**
 A graph of thirteen nodes whose focused layout has twelve rails: from the focus one chain leads out, one leads
 in, and one leads both ways, each four nodes long.
 */
module StellarRails {
  import opened Counting
  import opened Options
  import opened StellarDepths
  import opened StellarFlow
  import opened StellarKeys
  import opened StellarLanes
  import opened StellarLayout
  import opened StellarProperties
  import opened StellarTargets

  // ----- levels

  ghost predicate HasPredecessor(adjacency: Adjacency, level: int -> Option<nat>, v: int, n: nat) {
    exists u :: level(u) == Some(n) && IsStep(adjacency, u, v)
  }

  /** A step leads to a vertex with a level, at most one higher. */
  ghost predicate StepsClimb(adjacency: Adjacency, level: int -> Option<nat>) {
    forall u, v | IsStep(adjacency, u, v) && level(u).Some? ::
      level(v).Some? && level(v).value <= level(u).value + 1
  }

  /** A level for every vertex that can be reached: 0 for the start, and one more than that of some predecessor. */
  ghost predicate AreLevels(adjacency: Adjacency, start: int, level: int -> Option<nat>) {
    && (forall v :: level(v) == Some(0) <==> v == start)
    && StepsClimb(adjacency, level)
    && (forall v, n: nat {:trigger HasPredecessor(adjacency, level, v, n)} |
          level(v) == Some(n + 1) :: HasPredecessor(adjacency, level, v, n))
  }

  lemma StepClimbs(adjacency: Adjacency, level: int -> Option<nat>, u: int, v: int)
    requires StepsClimb(adjacency, level) && IsStep(adjacency, u, v) && level(u).Some?
    ensures level(v).Some? && level(v).value <= level(u).value + 1
  {
  }

  lemma {:induction false} LevelIsLeast(adjacency: Adjacency, start: int, level: int -> Option<nat>, v: int, n: nat)
    requires level(start) == Some(0) && StepsClimb(adjacency, level) && Reaches(adjacency, start, v, n)
    ensures level(v).Some? && level(v).value <= n
    decreases n
  {
    if n > 0 {
      var u :| Reaches(adjacency, start, u, n - 1) && IsStep(adjacency, u, v);
      LevelIsLeast(adjacency, start, level, u, n - 1);
      StepClimbs(adjacency, level, u, v);
    }
  }

  lemma {:induction false} LevelIsReached(adjacency: Adjacency, start: int, level: int -> Option<nat>, v: int)
    requires AreLevels(adjacency, start, level) && level(v).Some?
    ensures Reaches(adjacency, start, v, level(v).value)
    decreases level(v).value
  {
    if level(v).value > 0 {
      assert HasPredecessor(adjacency, level, v, level(v).value - 1);
      var u :| level(u) == Some(level(v).value - 1) && IsStep(adjacency, u, v);
      LevelIsReached(adjacency, start, level, u);
    }
  }

  lemma LevelIsDistance(adjacency: Adjacency, start: int, level: int -> Option<nat>, v: int)
    requires AreLevels(adjacency, start, level) && level(v).Some?
    ensures IsDistance(adjacency, start, v, level(v).value)
    ensures forall d: nat | IsDistance(adjacency, start, v, d) :: d == level(v).value
  {
    LevelIsReached(adjacency, start, level, v);
    forall e: nat | e < level(v).value ensures !Reaches(adjacency, start, v, e) {
      if Reaches(adjacency, start, v, e) {
        LevelIsLeast(adjacency, start, level, v, e);
      }
    }
    forall d: nat | IsDistance(adjacency, start, v, d) ensures d == level(v).value {
      DistanceUnique(adjacency, start, v, d, level(v).value);
    }
  }

  /** Levels are distances. */
  lemma LevelsAreDistances(adjacency: Adjacency, start: int, level: int -> Option<nat>, v: int, d: nat)
    requires AreLevels(adjacency, start, level)
    ensures IsDistance(adjacency, start, v, d) <==> level(v) == Some(d)
  {
    if level(v).Some? {
      LevelIsDistance(adjacency, start, level, v);
    } else if Reaches(adjacency, start, v, d) {
      LevelIsLeast(adjacency, start, level, v, d);
    }
  }

  // ----- the graph

  /** Nodes 1 to 4 follow the focus 0, nodes 5 to 8 lead to it, and 9 to 12 are linked both ways. */
  const RAIL_EDGES: seq<Edge> := [
    Edge(0, 1), Edge(1, 2), Edge(2, 3), Edge(3, 4),
    Edge(5, 0), Edge(6, 5), Edge(7, 6), Edge(8, 7),
    Edge(0, 9), Edge(9, 10), Edge(10, 11), Edge(11, 12),
    Edge(9, 0), Edge(10, 9), Edge(11, 10), Edge(12, 11)]

  predicate FollowsOut(u: int, v: int) { 0 <= u <= 3 && v == u + 1 }

  predicate LeadsIn(u: int, v: int) { (u == 5 && v == 0) || (6 <= u <= 8 && v == u - 1) }

  predicate GoesAway(u: int, v: int) { (u == 0 && v == 9) || (9 <= u <= 11 && v == u + 1) }

  lemma EdgesListed(u: int, v: int)
    ensures Edge(u, v) in RAIL_EDGES <==> FollowsOut(u, v) || LeadsIn(u, v) || GoesAway(u, v) || GoesAway(v, u)
  {
    var e := Edge(u, v);
    if FollowsOut(u, v) {
      assert RAIL_EDGES[u] == e;
    } else if LeadsIn(u, v) {
      assert RAIL_EDGES[u - 1] == e;
    } else if GoesAway(u, v) {
      assert RAIL_EDGES[v - 1] == e;
    } else if GoesAway(v, u) {
      assert RAIL_EDGES[u + 3] == e;
    }
  }

  function OutLevel(v: int): Option<nat> {
    if 0 <= v <= 4 then Some(v) else if 9 <= v <= 12 then Some(v - 8) else None
  }

  function InLevel(v: int): Option<nat> {
    if v == 0 then Some(0) else if 5 <= v <= 8 then Some(v - 4) else if 9 <= v <= 12 then Some(v - 8) else None
  }

  ghost predicate RailIds(ids: set<int>) { forall v :: v in ids <==> 0 <= v <= 12 }

  /** The steps along the edges, and against them. */
  predicate StepOut(u: int, v: int) { FollowsOut(u, v) || LeadsIn(u, v) || GoesAway(u, v) || GoesAway(v, u) }

  predicate StepIn(u: int, v: int) { StepOut(v, u) }

  lemma OutLevels(links: Adjacency)
    requires forall u, v :: IsStep(links, u, v) <==> StepOut(u, v)
    ensures AreLevels(links, 0, OutLevel)
  {
    forall v, n: nat | OutLevel(v) == Some(n + 1) ensures HasPredecessor(links, OutLevel, v, n) {
      var u := if v == 9 then 0 else v - 1;
      assert StepOut(u, v) && OutLevel(u) == Some(n);
    }
  }

  lemma InLevels(links: Adjacency)
    requires forall u, v :: IsStep(links, u, v) <==> StepIn(u, v)
    ensures AreLevels(links, 0, InLevel)
  {
    forall v, n: nat | InLevel(v) == Some(n + 1) ensures HasPredecessor(links, InLevel, v, n) {
      var u := if v == 5 || v == 9 then 0 else v - 1;
      assert StepIn(u, v) && InLevel(u) == Some(n);
    }
  }

  lemma RailLinks(ids: set<int>, edges: seq<Edge>)
    requires RailIds(ids) && edges == RAIL_EDGES
    ensures AreLevels(OutgoingLinks(ids, edges), 0, OutLevel)
    ensures AreLevels(IncomingLinks(ids, edges), 0, InLevel)
  {
    forall u, v ensures IsLink(ids, edges, u, v) <==> StepOut(u, v) {
      EdgesListed(u, v);
    }
    OutLevels(OutgoingLinks(ids, edges));
    InLevels(IncomingLinks(ids, edges));
  }

  /** The role and depth of a node of the graph. */
  function RailFlow(v: int): Flow
    requires 1 <= v <= 12
  {
    if v <= 4 then Flow(Outgoing, v) else if v <= 8 then Flow(Incoming, v - 4) else Flow(Bidirectional, v - 8)
  }

  lemma FlowOfRail(flow: Flow, v: int, incoming: Adjacency, outgoing: Adjacency)
    requires 1 <= v <= 12 && Directed(flow.role)
    requires AreLevels(outgoing, 0, OutLevel) && AreLevels(incoming, 0, InLevel)
    requires TrueFlow(flow, 0, v, incoming, outgoing)
    ensures flow == RailFlow(v)
  {
    LevelsAreDistances(incoming, 0, InLevel, v, flow.depth);
    LevelsAreDistances(outgoing, 0, OutLevel, v, flow.depth);
    assert IsDistance(incoming, 0, v, flow.depth) ==> Within(incoming, 0, v, flow.depth);
    assert IsDistance(outgoing, 0, v, flow.depth) ==> Within(outgoing, 0, v, flow.depth);
  }

  lemma RailHasFlow(v: int, incoming: Adjacency, outgoing: Adjacency)
    requires 1 <= v <= 12
    requires AreLevels(outgoing, 0, OutLevel) && AreLevels(incoming, 0, InLevel)
    ensures Within(incoming, 0, v, MAX_FLOW_DEPTH) || Within(outgoing, 0, v, MAX_FLOW_DEPTH)
  {
    var d := RailFlow(v).depth;
    LevelsAreDistances(incoming, 0, InLevel, v, d);
    LevelsAreDistances(outgoing, 0, OutLevel, v, d);
  }

  /** A layout of the graph around node 0. */
  ghost predicate IsRailLayout(f: Finished, edges: seq<Edge>) {
    var ids := IdsOf(f.nodes);
    && RailIds(ids) && f.focus == 0 && edges == RAIL_EDGES
    && IsFlowLayout(f) && TrueRoles(f.roles, ids, 0, IncomingLinks(ids, edges), OutgoingLinks(ids, edges))
  }

  /** In any layout of the graph around node 0 the others are shown with these roles and depths. */
  lemma RailShown(f: Finished, edges: seq<Edge>, v: int)
    requires IsRailLayout(f, edges) && 1 <= v <= 12
    ensures v in f.targets && f.targets[v].role == RailFlow(v).role && f.targets[v].depth == Some(RailFlow(v).depth)
  {
    var incoming, outgoing := IncomingLinks(IdsOf(f.nodes), edges), OutgoingLinks(IdsOf(f.nodes), edges);
    RailLinks(IdsOf(f.nodes), edges);
    RailHasFlow(v, incoming, outgoing);
    assert v in IdsOf(f.nodes);
    FlowOfRail(f.roles[v], v, incoming, outgoing);
    ShownRoles(f, v);
  }

  // ----- its rails

  function RailId(v: int): LaneId
    requires 1 <= v <= 12
  {
    LaneId(RailFlow(v).role, RailFlow(v).depth, None)
  }

  ghost predicate IsListed(layers: seq<LaneSummary>, id: LaneId) {
    exists i :: 0 <= i < |layers| && LayerId(layers[i]) == id
  }

  lemma RailListed(targets: map<int, Target>, ids: seq<int>, layers: seq<LaneSummary>, v: int)
    requires Lists(ids, targets) && AreLayerSummaries(layers, Values(targets, ids))
    requires 1 <= v <= 12 && v in targets
    requires targets[v].role == RailFlow(v).role && targets[v].depth == Some(RailFlow(v).depth)
    ensures IsListed(layers, RailId(v))
  {
    assert v in ids;
    var k :| 0 <= k < |ids| && ids[k] == v;
    assert Values(targets, ids)[k] in Values(targets, ids);
    assert InGroups(ByLayer, targets[v]);
    var s :| s in layers && LayerId(s) == IdIn(ByLayer, targets[v]);
    var i :| 0 <= i < |layers| && layers[i] == s;
  }

  lemma AllRailsListed(layers: seq<LaneSummary>)
    requires forall v | 1 <= v <= 12 :: IsListed(layers, RailId(v))
    requires forall i, j | 0 <= i < j < |layers| :: Above(layers[i], layers[j])
    ensures |layers| >= 12
  {
    var listed := seq(|layers|, i requires 0 <= i < |layers| => LayerId(layers[i]));
    var rails := seq(12, v requires 0 <= v < 12 => RailId(v + 1));
    forall i, j | 0 <= i < j < |listed| ensures listed[i] != listed[j] {
      assert Above(layers[i], layers[j]);
    }
    forall r | r in rails ensures r in listed {
      var k :| 0 <= k < 12 && rails[k] == r;
      assert IsListed(layers, RailId(k + 1));
      var i :| 0 <= i < |layers| && LayerId(layers[i]) == RailId(k + 1);
      assert listed[i] == r;
    }
    DistinctAmong(listed, rails);
  }

  lemma AtLeastTwelveRails(f: Finished, edges: seq<Edge>, ids: seq<int>, layers: seq<LaneSummary>)
    requires IsRailLayout(f, edges)
    requires Lists(ids, f.targets) && AreLayerSummaries(layers, Values(f.targets, ids))
    ensures |layers| >= 12
  {
    forall v | 1 <= v <= 12 ensures IsListed(layers, RailId(v)) {
      RailShown(f, edges, v);
      RailListed(f.targets, ids, layers, v);
    }
    AllRailsListed(layers);
  }

  /** Twelve rails, one for every node but the focus. */
  lemma TwelveRails(f: Finished, edges: seq<Edge>, ids: seq<int>, layers: seq<LaneSummary>)
    requires IsRailLayout(f, edges)
    requires Lists(ids, f.targets) && AreLayerSummaries(layers, Values(f.targets, ids))
    ensures |layers| == 12
  {
    AtLeastTwelveRails(f, edges, ids, layers);
    LayoutCountsRoles(f, IncomingLinks(IdsOf(f.nodes), edges), OutgoingLinks(IdsOf(f.nodes), edges));
    NumberOfRoles(f.targets, f.roles.Keys, ids);
    AtMostTwelveRails(layers, Values(f.targets, ids));
  }
}
