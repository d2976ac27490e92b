/**
 The focused layout: around a selected node the directed layers unfold to the left and right, and every
 other node stays on an outer ring.
 */
module StellarLayout {
  import opened Numbers
  import opened Options
  import opened Sorting
  import opened StellarConstellation
  import opened StellarDepths
  import opened StellarFlow
  import opened StellarKeys
  import opened StellarOverview
  import opened StellarTargets

  const MIN_CONTEXT_RADIUS := 520.0

  // ----- roles and layers

  function IdsOf(nodes: seq<GraphNode>): (r: set<int>)
    ensures forall id :: id in r <==> exists n :: n in nodes && n.id == id
  {
    set n | n in nodes :: n.id
  }

  /** The role of every node but the focus that has one. */
  ghost predicate AreRoles(roles: map<int, Flow>, ids: set<int>, focus: int, inDepths: map<int, nat>,
                           outDepths: map<int, nat>) {
    && (forall v | v in roles :: v in ids && v != focus)
    && (forall v | v in ids && v != focus ::
          FlowOf(DepthOf(inDepths, v), DepthOf(outDepths, v)) == if v in roles then Some(roles[v]) else None)
  }

  function FlowKey(flow: Flow): string { LayerKey(flow.role, flow.depth) }

  /** The nodes of one layer in input order. */
  function LayerOf(nodes: seq<GraphNode>, roles: map<int, Flow>, key: string): (r: seq<GraphNode>)
    ensures forall n :: n in r <==> n in nodes && n.id in roles && FlowKey(roles[n.id]) == key
  {
    if nodes == [] then []
    else
      var before, last := nodes[..|nodes| - 1], nodes[|nodes| - 1];
      assert nodes == before + [last];
      LayerOf(before, roles, key) + if last.id in roles && FlowKey(roles[last.id]) == key then [last] else []
  }

  lemma {:induction false} LayerOfAgrees(nodes: seq<GraphNode>, roles: map<int, Flow>, roles': map<int, Flow>,
                                         key: string)
    requires forall n | n in nodes ::
               (n.id in roles <==> n.id in roles') && (n.id in roles ==> roles[n.id] == roles'[n.id])
    ensures LayerOf(nodes, roles, key) == LayerOf(nodes, roles', key)
  {
    if nodes != [] {
      LayerOfAgrees(nodes[..|nodes| - 1], roles, roles', key);
    }
  }

  lemma {:induction false} LayerDistinct(nodes: seq<GraphNode>, roles: map<int, Flow>, key: string)
    requires DistinctIds(nodes)
    ensures DistinctIds(LayerOf(nodes, roles, key))
  {
    if nodes != [] {
      var before, last := nodes[..|nodes| - 1], nodes[|nodes| - 1];
      LayerDistinct(before, roles, key);
      forall n | n in before ensures n.id != last.id {
        var i :| 0 <= i < |before| && before[i] == n;
        assert nodes[i].id != nodes[|nodes| - 1].id;
      }
    }
  }

  /** The layers in the map are the layers of the nodes. */
  ghost predicate AreLayers(layers: map<string, seq<GraphNode>>, nodes: seq<GraphNode>, roles: map<int, Flow>) {
    && (forall k | k in layers :: layers[k] == LayerOf(nodes, roles, k) && layers[k] != [])
    && (forall k | k !in layers :: LayerOf(nodes, roles, k) == [])
  }

  /** The role the loop records for one node: none for the focus. */
  function RoleFor(focus: int, inDepths: map<int, nat>, outDepths: map<int, nat>, v: int): Option<Flow> {
    if v == focus then None else FlowOf(DepthOf(inDepths, v), DepthOf(outDepths, v))
  }

  function WithRole(roles: map<int, Flow>, v: int, flow: Option<Flow>): map<int, Flow> {
    if flow.Some? then roles[v := flow.value] else roles
  }

  function WithNode(layers: map<string, seq<GraphNode>>, node: GraphNode,
                    flow: Option<Flow>): map<string, seq<GraphNode>> {
    if flow.None? then layers
    else
      var key := FlowKey(flow.value);
      layers[key := (if key in layers then layers[key] else []) + [node]]
  }

  lemma IdIsNew(nodes: seq<GraphNode>, i: nat)
    requires DistinctIds(nodes) && i < |nodes|
    ensures nodes[i].id !in IdsOf(nodes[..i])
    ensures IdsOf(nodes[..i + 1]) == IdsOf(nodes[..i]) + {nodes[i].id}
  {
    assert nodes[..i + 1] == nodes[..i] + [nodes[i]];
    forall n | n in nodes[..i] ensures n.id != nodes[i].id {
      var j :| 0 <= j < i && nodes[..i][j] == n;
      assert nodes[j].id != nodes[i].id;
    }
  }

  lemma RolesGrow(roles: map<int, Flow>, ids: set<int>, focus: int, inDepths: map<int, nat>, outDepths: map<int, nat>,
                  v: int)
    requires AreRoles(roles, ids, focus, inDepths, outDepths) && v !in ids
    ensures AreRoles(WithRole(roles, v, RoleFor(focus, inDepths, outDepths, v)), ids + {v}, focus, inDepths, outDepths)
  {
  }

  lemma LayersGrow(layers: map<string, seq<GraphNode>>, before: seq<GraphNode>, roles: map<int, Flow>, node: GraphNode,
                   flow: Option<Flow>)
    requires AreLayers(layers, before, roles)
    requires node.id !in roles && forall n | n in before :: n.id != node.id
    ensures AreLayers(WithNode(layers, node, flow), before + [node], WithRole(roles, node.id, flow))
  {
    var roles' := WithRole(roles, node.id, flow);
    var nodes := before + [node];
    assert nodes[..|nodes| - 1] == before;
    forall k
      ensures LayerOf(nodes, roles', k)
           == LayerOf(before, roles, k) + if flow.Some? && FlowKey(flow.value) == k then [node] else []
    {
      LayerOfAgrees(before, roles, roles', k);
    }
  }

  method AssignRoles(nodes: seq<GraphNode>, focus: int, inDepths: map<int, nat>, outDepths: map<int, nat>)
    returns (layers: map<string, seq<GraphNode>>, roles: map<int, Flow>)
    requires DistinctIds(nodes)
    ensures AreRoles(roles, IdsOf(nodes), focus, inDepths, outDepths)
    ensures AreLayers(layers, nodes, roles)
  {
    layers, roles := map[], map[];
    for i := 0 to |nodes|
      invariant AreRoles(roles, IdsOf(nodes[..i]), focus, inDepths, outDepths)
      invariant AreLayers(layers, nodes[..i], roles)
    {
      var node := nodes[i];
      var flow := RoleFor(focus, inDepths, outDepths, node.id);
      PrefixGrows(nodes, i);
      IdIsNew(nodes, i);
      RolesGrow(roles, IdsOf(nodes[..i]), focus, inDepths, outDepths, node.id);
      LayersGrow(layers, nodes[..i], roles, node, flow);
      roles := WithRole(roles, node.id, flow);
      layers := WithNode(layers, node, flow);
    }
    assert nodes[..|nodes|] == nodes;
  }

  // ----- the directed layers

  /** By lane, then the larger degree, then the id. */
  predicate LaneBefore(env: Env, a: GraphNode, b: GraphNode) {
    Precedes(env.compare(FlowLaneKey(a), FlowLaneKey(b)), a, b)
  }

  function LaneOrder(env: Env): (GraphNode, GraphNode) -> bool { (a, b) => LaneBefore(env, a, b) }

  ghost predicate LayersInOrder(env: Env, sorted: map<string, seq<GraphNode>>) {
    forall k | k in sorted :: Sorted(sorted[k], LaneOrder(env))
  }

  lemma LayerSorted(env: Env, s: seq<GraphNode>)
    requires Collates(env.compare)
    ensures Sorted(SortBy(s, LaneOrder(env)), LaneOrder(env))
  {
    forall a, b, c | LaneBefore(env, a, b) && LaneBefore(env, b, c) ensures LaneBefore(env, a, c) {
      PrecedesTransitive(env.compare, FlowLaneKey(a), FlowLaneKey(b), FlowLaneKey(c), a, b, c);
    }
    forall a, b ensures LaneBefore(env, a, b) || LaneBefore(env, b, a) {
      var s, t := FlowLaneKey(a), FlowLaneKey(b);
      assert env.compare(s, t) > 0 <==> env.compare(t, s) < 0;
      assert env.compare(s, t) < 0 <==> env.compare(t, s) > 0;
    }
    SortBySorted(s, LaneOrder(env));
  }

  /** A node sits at place `i` of a layer of `count`. */
  ghost predicate Seated(env: Env, overview: map<int, Target>, targets: map<int, Target>, node: GraphNode, flow: Flow,
                         i: nat, count: nat) {
    && node.id in targets && node.id in overview
    && targets[node.id] == FlowTarget(env, flow, i, count, node, overview[node.id].sector)
  }

  ghost predicate Covers(overview: map<int, Target>, targets: map<int, Target>, layer: seq<GraphNode>) {
    forall n | n in layer :: n.id in overview && n.id in targets && targets[n.id] == overview[n.id]
  }

  /** The first `n` nodes of the layer are seated and nothing else has moved. */
  ghost predicate LayerPlaced(env: Env, overview: map<int, Target>, before: map<int, Target>, targets: map<int, Target>,
                              layer: seq<GraphNode>, flow: Flow, n: nat)
    requires n <= |layer|
  {
    && targets.Keys == before.Keys
    && (forall i | 0 <= i < n :: Seated(env, overview, targets, layer[i], flow, i, |layer|))
    && (forall id | id in before && (forall i | 0 <= i < n :: layer[i].id != id) :: targets[id] == before[id])
  }

  lemma SeatNext(env: Env, overview: map<int, Target>, before: map<int, Target>, targets: map<int, Target>,
                 layer: seq<GraphNode>, flow: Flow, n: nat, target: Target)
    requires n < |layer| && DistinctIds(layer) && Covers(overview, before, layer)
    requires LayerPlaced(env, overview, before, targets, layer, flow, n)
    requires target == FlowTarget(env, flow, n, |layer|, layer[n], targets[layer[n].id].sector)
    ensures LayerPlaced(env, overview, before, targets[layer[n].id := target], layer, flow, n + 1)
  {
    var node := layer[n];
    assert node in layer;
    assert targets[node.id] == before[node.id];
    var after := targets[node.id := target];
    forall i | 0 <= i < n ensures Seated(env, overview, after, layer[i], flow, i, |layer|) {
      assert layer[i].id != node.id;
    }
  }

  method PlaceLayer(env: Env, ghost overview: map<int, Target>, before: map<int, Target>, layer: seq<GraphNode>,
                    flow: Flow)
    returns (targets: map<int, Target>)
    requires DistinctIds(layer) && Covers(overview, before, layer)
    ensures LayerPlaced(env, overview, before, targets, layer, flow, |layer|)
  {
    targets := before;
    for i := 0 to |layer|
      invariant LayerPlaced(env, overview, before, targets, layer, flow, i)
    {
      var node := layer[i];
      assert node in layer;
      var target := FlowTarget(env, flow, i, |layer|, node, targets[node.id].sector);
      SeatNext(env, overview, before, targets, layer, flow, i, target);
      targets := targets[node.id := target];
    }
  }

  /** `sorted` arranges its layers in some order. */
  ghost predicate AreSorted(nodes: seq<GraphNode>, roles: map<int, Flow>, sorted: map<string, seq<GraphNode>>) {
    forall k | k in sorted :: multiset(sorted[k]) == multiset(LayerOf(nodes, roles, k))
  }

  /** Every node of the sorted layers sits at its place of its own layer. */
  ghost predicate AllSeated(env: Env, overview: map<int, Target>, targets: map<int, Target>, roles: map<int, Flow>,
                            sorted: map<string, seq<GraphNode>>) {
    forall k, i | k in sorted && 0 <= i < |sorted[k]| ::
      && sorted[k][i].id in roles && FlowKey(roles[sorted[k][i].id]) == k
      && Seated(env, overview, targets, sorted[k][i], roles[sorted[k][i].id], i, |sorted[k]|)
  }

  /** The layers placed so far are seated in some order; every other node is where the overview put it. */
  ghost predicate LayersPlaced(env: Env, nodes: seq<GraphNode>, overview: map<int, Target>, roles: map<int, Flow>,
                               sorted: map<string, seq<GraphNode>>, targets: map<int, Target>) {
    && targets.Keys == overview.Keys
    && AreSorted(nodes, roles, sorted)
    && AllSeated(env, overview, targets, roles, sorted)
    && (forall id | id in overview && (id in roles ==> FlowKey(roles[id]) !in sorted) :: targets[id] == overview[id])
  }

  /** A key says the flow of the nodes of its layer. */
  lemma KeyFlow(roles: map<int, Flow>, id: int, key: string)
    requires id in roles && FlowKey(roles[id]) == key
    ensures roles[id] == Flow(KeyRole(key), KeyDepth(key))
  {
    LayerKeyRoundTrip(roles[id].role, roles[id].depth);
  }

  lemma DistinctIdsArePermuted(s: seq<GraphNode>, t: seq<GraphNode>)
    requires DistinctIds(s) && multiset(s) == multiset(t)
    ensures DistinctIds(t)
  {
    SameElements(s, t);
    DistinctPermutation(s, t);
    forall i, j | 0 <= i < j < |t| ensures t[i].id != t[j].id {
      assert t[i] in s && t[j] in s && t[i] != t[j];
      var k :| 0 <= k < |s| && s[k] == t[i];
      var l :| 0 <= l < |s| && s[l] == t[j];
      assert k < l || l < k;
    }
  }

  lemma SortedLayer(nodes: seq<GraphNode>, roles: map<int, Flow>, key: string, layer: seq<GraphNode>)
    requires DistinctIds(nodes) && multiset(layer) == multiset(LayerOf(nodes, roles, key))
    ensures DistinctIds(layer)
    ensures forall n | n in layer :: n in nodes && n.id in roles && roles[n.id] == Flow(KeyRole(key), KeyDepth(key))
    ensures forall n | n in layer :: FlowKey(roles[n.id]) == key
  {
    var original := LayerOf(nodes, roles, key);
    SameElements(layer, original);
    forall n | n in layer ensures roles[n.id] == Flow(KeyRole(key), KeyDepth(key)) {
      KeyFlow(roles, n.id, key);
    }
    LayerDistinct(nodes, roles, key);
    DistinctIdsArePermuted(original, layer);
  }

  lemma StaysPut(env: Env, overview: map<int, Target>, roles: map<int, Flow>, before: map<int, Target>, key: string,
                 layer: seq<GraphNode>, after: map<int, Target>, id: int)
    requires forall n | n in layer :: n.id in roles && FlowKey(roles[n.id]) == key
    requires LayerPlaced(env, overview, before, after, layer, Flow(KeyRole(key), KeyDepth(key)), |layer|)
    requires id in before && (id in roles ==> FlowKey(roles[id]) != key)
    ensures after[id] == before[id]
  {
    forall i | 0 <= i < |layer| ensures layer[i].id != id {
      assert layer[i] in layer;
    }
  }

  lemma NextLayerPlaced(env: Env, nodes: seq<GraphNode>, overview: map<int, Target>, roles: map<int, Flow>,
                        sorted: map<string, seq<GraphNode>>, before: map<int, Target>, key: string,
                        layer: seq<GraphNode>,
                        after: map<int, Target>)
    requires LayersPlaced(env, nodes, overview, roles, sorted, before) && key !in sorted
    requires multiset(layer) == multiset(LayerOf(nodes, roles, key))
    requires forall n | n in layer ::
               n.id in roles && roles[n.id] == Flow(KeyRole(key), KeyDepth(key)) && FlowKey(roles[n.id]) == key
    requires LayerPlaced(env, overview, before, after, layer, Flow(KeyRole(key), KeyDepth(key)), |layer|)
    ensures LayersPlaced(env, nodes, overview, roles, sorted[key := layer], after)
  {
    var sorted': map<string, seq<GraphNode>> := sorted[key := layer];
    forall k: string, i: nat | k in sorted' && 0 <= i < |sorted'[k]|
      ensures sorted'[k][i].id in roles && FlowKey(roles[sorted'[k][i].id]) == k
      ensures Seated(env, overview, after, sorted'[k][i], roles[sorted'[k][i].id], i, |sorted'[k]|)
    {
      if k == key {
        assert layer[i] in layer;
      } else {
        StaysPut(env, overview, roles, before, key, layer, after, sorted[k][i].id);
      }
    }
    forall id | id in overview && (id in roles ==> FlowKey(roles[id]) !in sorted') ensures after[id] == overview[id] {
      StaysPut(env, overview, roles, before, key, layer, after, id);
    }
  }

  lemma LayerUntouched(env: Env, nodes: seq<GraphNode>, overview: map<int, Target>, roles: map<int, Flow>,
                       sorted: map<string, seq<GraphNode>>, targets: map<int, Target>, key: string,
                       layer: seq<GraphNode>)
    requires LayersPlaced(env, nodes, overview, roles, sorted, targets) && key !in sorted
    requires forall n | n in nodes :: n.id in overview
    requires forall n | n in layer :: n in nodes && n.id in roles && FlowKey(roles[n.id]) == key
    ensures Covers(overview, targets, layer)
  {
  }

  method PlaceNextLayer(env: Env, nodes: seq<GraphNode>, ghost overview: map<int, Target>, roles: map<int, Flow>,
                        ghost sorted: map<string, seq<GraphNode>>, before: map<int, Target>, key: string,
                        original: seq<GraphNode>)
    returns (targets: map<int, Target>, layer: seq<GraphNode>)
    requires DistinctIds(nodes) && original == LayerOf(nodes, roles, key) && key !in sorted
    requires forall n | n in nodes :: n.id in overview
    requires LayersPlaced(env, nodes, overview, roles, sorted, before)
    ensures LayersPlaced(env, nodes, overview, roles, sorted[key := layer], targets)
    ensures Collates(env.compare) ==> Sorted(layer, LaneOrder(env))
  {
    layer := SortBy(original, LaneOrder(env));
    if Collates(env.compare) {
      LayerSorted(env, original);
    }
    SortedLayer(nodes, roles, key, layer);
    LayerUntouched(env, nodes, overview, roles, sorted, before, key, layer);
    targets := PlaceLayer(env, overview, before, layer, Flow(KeyRole(key), KeyDepth(key)));
    NextLayerPlaced(env, nodes, overview, roles, sorted, before, key, layer, targets);
  }

  /** Sorts and places every layer. */
  method PlaceLayers(env: Env, nodes: seq<GraphNode>, overview: map<int, Target>, roles: map<int, Flow>,
                     layers: map<string, seq<GraphNode>>)
    returns (targets: map<int, Target>, ghost sorted: map<string, seq<GraphNode>>)
    requires DistinctIds(nodes) && AreLayers(layers, nodes, roles)
    requires forall n | n in nodes :: n.id in overview
    ensures LayersPlaced(env, nodes, overview, roles, sorted, targets) && sorted.Keys == layers.Keys
    ensures Collates(env.compare) ==> LayersInOrder(env, sorted)
    ensures targets.Keys == overview.Keys && forall id | id in overview && id !in roles :: targets[id] == overview[id]
  {
    targets, sorted := overview, map[];
    var rest := layers.Keys;
    while rest != {}
      invariant rest <= layers.Keys && sorted.Keys == layers.Keys - rest
      invariant LayersPlaced(env, nodes, overview, roles, sorted, targets)
      invariant Collates(env.compare) ==> LayersInOrder(env, sorted)
    {
      var key :| key in rest;
      var layer;
      targets, layer := PlaceNextLayer(env, nodes, overview, roles, sorted, targets, key, layers[key]);
      sorted := sorted[key := layer];
      rest := rest - {key};
    }
  }

  // ----- the context ring

  /** The point a context target stands for before the vertical squeeze. */
  function Unsqueezed(y: real): real { y / CONSTELLATION_Y_SCALE }

  /** An unrelated node keeps its direction and moves out, at least to the ring. */
  function ContextTarget(env: Env, id: int, current: Target): Target {
    var currentRadius := env.m.Hypot(current.x, Unsqueezed(current.y));
    var angle := if currentRadius > 0.0 then env.Atan2(Unsqueezed(current.y), current.x)
                 else Scaled(StableFraction(id), env.m.pi) * 2.0;
    var radius := Max(MIN_CONTEXT_RADIUS, currentRadius * 1.16);
    Target(Scaled(env.m.Cos(angle), radius), Scaled(env.m.Sin(angle), radius) * CONSTELLATION_Y_SCALE,
           Context, None, None, current.sector)
  }

  predicate IsContext(focus: int, roles: map<int, Flow>, id: int) { id != focus && id !in roles }

  /** The context nodes among `done` have moved to the ring, nothing else has moved. */
  ghost predicate ContextsPlaced(env: Env, done: set<int>, focus: int, roles: map<int, Flow>, before: map<int, Target>,
                                 targets: map<int, Target>) {
    && targets.Keys == before.Keys
    && forall id | id in before ::
         targets[id] == if id in done && IsContext(focus, roles, id) then ContextTarget(env, id, before[id])
         else before[id]
  }

  method PlaceContexts(env: Env, nodes: seq<GraphNode>, focus: int, roles: map<int, Flow>, before: map<int, Target>)
    returns (targets: map<int, Target>)
    requires DistinctIds(nodes) && forall n | n in nodes :: n.id in before
    ensures ContextsPlaced(env, IdsOf(nodes), focus, roles, before, targets)
  {
    targets := before;
    for i := 0 to |nodes|
      invariant ContextsPlaced(env, IdsOf(nodes[..i]), focus, roles, before, targets)
    {
      var node := nodes[i];
      IdIsNew(nodes, i);
      if IsContext(focus, roles, node.id) {
        targets := targets[node.id := ContextTarget(env, node.id, targets[node.id])];
      }
    }
    assert nodes[..|nodes|] == nodes;
  }

  // ----- the whole layout

  ghost predicate TrueFlow(flow: Flow, focus: int, v: int, incoming: Adjacency, outgoing: Adjacency) {
    match flow.role
    case Outgoing => IsDistance(outgoing, focus, v, flow.depth) && !Within(incoming, focus, v, flow.depth)
    case Incoming => IsDistance(incoming, focus, v, flow.depth) && !Within(outgoing, focus, v, flow.depth)
    case _ => IsDistance(incoming, focus, v, flow.depth) && IsDistance(outgoing, focus, v, flow.depth)
  }

  /** The roles in terms of the edges: the nearer side wins, equal distances make a node bidirectional. */
  ghost predicate TrueRoles(roles: map<int, Flow>, ids: set<int>, focus: int, incoming: Adjacency,
                            outgoing: Adjacency) {
    && (forall v | v in roles ::
          v in ids && v != focus && Directed(roles[v].role) && 1 <= roles[v].depth <= MAX_FLOW_DEPTH)
    && (forall v | v in ids && v != focus ::
          v in roles <==> Within(incoming, focus, v, MAX_FLOW_DEPTH) || Within(outgoing, focus, v, MAX_FLOW_DEPTH))
    && (forall v | v in roles :: TrueFlow(roles[v], focus, v, incoming, outgoing))
  }

  lemma RolesAreTrue(roles: map<int, Flow>, ids: set<int>, focus: int, inDepths: map<int, nat>,
                     outDepths: map<int, nat>,
                     incoming: Adjacency, outgoing: Adjacency)
    requires AreRoles(roles, ids, focus, inDepths, outDepths)
    requires KnowsAll(inDepths, incoming, focus) && KnowsAll(outDepths, outgoing, focus)
    ensures TrueRoles(roles, ids, focus, incoming, outgoing)
  {
    forall v | v in ids && v != focus
      ensures v in roles <==> Within(incoming, focus, v, MAX_FLOW_DEPTH) || Within(outgoing, focus, v, MAX_FLOW_DEPTH)
      ensures v in roles ==> Directed(roles[v].role) && 1 <= roles[v].depth <= MAX_FLOW_DEPTH
      ensures v in roles ==> TrueFlow(roles[v], focus, v, incoming, outgoing)
    {
      NoRoleBeyondFour(inDepths, outDepths, incoming, outgoing, focus, v);
      if v in roles {
        RoleByDistance(inDepths, outDepths, incoming, outgoing, focus, v, roles[v].depth);
      }
    }
  }

  function FocusTarget(sector: Sector): Target { Target(0.0, 0.0, Focus, Some(0), None, sector) }

  ghost predicate OnRing(env: Env, focus: int, roles: map<int, Flow>, overview: map<int, Target>,
                         targets: map<int, Target>)
    requires targets.Keys == overview.Keys
  {
    forall id | id in targets && IsContext(focus, roles, id) :: targets[id] == ContextTarget(env, id, overview[id])
  }

  /** A layout around `focus`, with the overview it started from and the layers as they were sorted. */
  datatype Finished = Finished(
    env: Env,
    nodes: seq<GraphNode>,
    focus: int,
    roles: map<int, Flow>,
    sorted: map<string, seq<GraphNode>>,
    overview: map<int, Target>,
    targets: map<int, Target>)

  /** The focus at the origin, every node with a role seated in its layer, every other node on the ring. */
  ghost predicate IsFlowLayout(f: Finished) {
    && f.targets.Keys == IdsOf(f.nodes) == f.overview.Keys
    && f.focus in f.targets && f.targets[f.focus] == FocusTarget(f.overview[f.focus].sector)
    && AreSorted(f.nodes, f.roles, f.sorted)
    && (forall id | id in f.roles :: FlowKey(f.roles[id]) in f.sorted)
    && AllSeated(f.env, f.overview, f.targets, f.roles, f.sorted)
    && OnRing(f.env, f.focus, f.roles, f.overview, f.targets)
  }

  lemma EveryRoleHasLayer(nodes: seq<GraphNode>, roles: map<int, Flow>, layers: map<string, seq<GraphNode>>, id: int)
    requires AreLayers(layers, nodes, roles) && id in roles && id in IdsOf(nodes)
    ensures FlowKey(roles[id]) in layers
  {
    var n :| n in nodes && n.id == id;
    assert n in LayerOf(nodes, roles, FlowKey(roles[id]));
  }

  /** After the ring and the focus, a node with a role is still in its seat. */
  lemma SeatKept(env: Env, ids: set<int>, focus: int, roles: map<int, Flow>, overview: map<int, Target>,
                 seated: map<int, Target>,
                 ringed: map<int, Target>, node: GraphNode, i: nat, count: nat)
    requires focus in overview && focus !in roles && node.id in roles
    requires ContextsPlaced(env, ids, focus, roles, seated, ringed)
    requires Seated(env, overview, seated, node, roles[node.id], i, count)
    ensures Seated(env, overview, ringed[focus := FocusTarget(overview[focus].sector)], node, roles[node.id], i, count)
  {
    assert ringed[node.id] == seated[node.id];
  }

  lemma SeatsKept(env: Env, ids: set<int>, focus: int, roles: map<int, Flow>, sorted: map<string, seq<GraphNode>>,
                  overview: map<int, Target>, seated: map<int, Target>, ringed: map<int, Target>)
    requires focus in overview && focus !in roles
    requires ContextsPlaced(env, ids, focus, roles, seated, ringed)
    requires AllSeated(env, overview, seated, roles, sorted)
    ensures AllSeated(env, overview, ringed[focus := FocusTarget(overview[focus].sector)], roles, sorted)
  {
    forall k: string, i: nat | k in sorted && i < |sorted[k]|
      ensures Seated(env, overview, ringed[focus := FocusTarget(overview[focus].sector)], sorted[k][i],
                     roles[sorted[k][i].id], i, |sorted[k]|)
    {
      SeatKept(env, ids, focus, roles, overview, seated, ringed, sorted[k][i], i, |sorted[k]|);
    }
  }

  lemma RingDone(env: Env, nodes: seq<GraphNode>, focus: int, roles: map<int, Flow>,
                 sorted: map<string, seq<GraphNode>>,
                 overview: map<int, Target>, seated: map<int, Target>, ringed: map<int, Target>)
    requires overview.Keys == IdsOf(nodes) && focus in overview
    requires LayersPlaced(env, nodes, overview, roles, sorted, seated)
    requires ContextsPlaced(env, IdsOf(nodes), focus, roles, seated, ringed)
    ensures ringed.Keys == overview.Keys
    ensures OnRing(env, focus, roles, overview, ringed[focus := FocusTarget(overview[focus].sector)])
  {
    forall id | id in ringed && IsContext(focus, roles, id) ensures ringed[id] == ContextTarget(env, id, overview[id]) {
      assert seated[id] == overview[id];
    }
  }

  lemma LayoutDone(env: Env, nodes: seq<GraphNode>, focus: int, roles: map<int, Flow>,
                   layers: map<string, seq<GraphNode>>,
                   sorted: map<string, seq<GraphNode>>, overview: map<int, Target>, seated: map<int, Target>,
                   ringed: map<int, Target>)
    requires overview.Keys == IdsOf(nodes) && focus in overview && focus !in roles
    requires forall id | id in roles :: id in IdsOf(nodes)
    requires AreLayers(layers, nodes, roles) && sorted.Keys == layers.Keys
    requires LayersPlaced(env, nodes, overview, roles, sorted, seated)
    requires ContextsPlaced(env, IdsOf(nodes), focus, roles, seated, ringed)
    ensures var targets := ringed[focus := FocusTarget(overview[focus].sector)];
            IsFlowLayout(Finished(env, nodes, focus, roles, sorted, overview, targets))
  {
    RingDone(env, nodes, focus, roles, sorted, overview, seated, ringed);
    SeatsKept(env, IdsOf(nodes), focus, roles, sorted, overview, seated, ringed);
    forall id | id in roles ensures FlowKey(roles[id]) in sorted {
      EveryRoleHasLayer(nodes, roles, layers, id);
    }
  }

  lemma PlaceInLayer(nodes: seq<GraphNode>, roles: map<int, Flow>, key: string, layer: seq<GraphNode>, v: int)
    returns (i: nat, node: GraphNode)
    requires v in roles && v in IdsOf(nodes) && FlowKey(roles[v]) == key
    requires multiset(layer) == multiset(LayerOf(nodes, roles, key))
    ensures i < |layer| && layer[i] == node && node.id == v
  {
    node :| node in nodes && node.id == v;
    SameElements(layer, LayerOf(nodes, roles, key));
    assert node in LayerOf(nodes, roles, key);
    i :| 0 <= i < |layer| && layer[i] == node;
  }

  /** The place of a node with a role. */
  lemma SeatOf(f: Finished, v: int) returns (i: nat, node: GraphNode)
    requires IsFlowLayout(f)
    requires v in f.roles && v in IdsOf(f.nodes)
    ensures FlowKey(f.roles[v]) in f.sorted
    ensures var layer := f.sorted[FlowKey(f.roles[v])];
            i < |layer| && layer[i] == node && node.id == v
            && Seated(f.env, f.overview, f.targets, node, f.roles[v], i, |layer|)
  {
    i, node := PlaceInLayer(f.nodes, f.roles, FlowKey(f.roles[v]), f.sorted[FlowKey(f.roles[v])], v);
    assert f.sorted[FlowKey(f.roles[v])][i].id == v;
  }

  /** What is shown of a node is its role and depth, and there is one focus. */
  lemma ShownRoles(f: Finished, v: int)
    requires IsFlowLayout(f) && f.focus !in f.roles
    requires v in f.targets
    ensures v in f.roles ==>
              f.targets[v].role == f.roles[v].role && f.targets[v].depth == Some(f.roles[v].depth)
              && f.targets[v].laneKey.Some?
    ensures v == f.focus ==>
              f.targets[v].role == Focus && f.targets[v].x == 0.0 == f.targets[v].y && f.targets[v].depth == Some(0)
    ensures v != f.focus && v !in f.roles ==>
              f.targets[v].role == Context && f.targets[v].depth == None && f.targets[v].laneKey == None
  {
    if v in f.roles {
      var i, node := SeatOf(f, v);
    }
  }

  /** Exactly the selected node is the focus. */
  lemma OneFocus(f: Finished, incoming: Adjacency, outgoing: Adjacency, v: int)
    requires IsFlowLayout(f)
    requires TrueRoles(f.roles, IdsOf(f.nodes), f.focus, incoming, outgoing) && v in f.targets
    ensures f.targets[v].role == Focus <==> v == f.focus
    ensures Truthful(f.targets, incoming, outgoing, f.focus, v)
  {
    ShownRoles(f, v);
  }

  ghost predicate IsMinimum(incoming: Adjacency, outgoing: Adjacency, focus: int, v: int, d: nat) {
    && (IsDistance(incoming, focus, v, d) || IsDistance(outgoing, focus, v, d))
    && (forall e: nat | e < d :: !IsDistance(incoming, focus, v, e) && !IsDistance(outgoing, focus, v, e))
  }

  lemma RoleDepthIsMinimum(flow: Flow, focus: int, v: int, incoming: Adjacency, outgoing: Adjacency)
    requires Directed(flow.role) && TrueFlow(flow, focus, v, incoming, outgoing)
    ensures IsMinimum(incoming, outgoing, focus, v, flow.depth)
  {
    forall e: nat | e < flow.depth
      ensures !IsDistance(incoming, focus, v, e) && !IsDistance(outgoing, focus, v, e)
    {
      if IsDistance(incoming, focus, v, e) {
        assert Within(incoming, focus, v, flow.depth);
      }
      if IsDistance(outgoing, focus, v, e) {
        assert Within(outgoing, focus, v, flow.depth);
      }
    }
  }

  /** The depth shown on a node is the smaller of its two distances, and none is shown exactly when both exceed four. */
  lemma DepthIsSmallerDistance(f: Finished, incoming: Adjacency, outgoing: Adjacency, v: int)
    requires IsFlowLayout(f)
    requires TrueRoles(f.roles, IdsOf(f.nodes), f.focus, incoming, outgoing) && v in f.targets
    ensures f.targets[v].depth.Some? ==> IsMinimum(incoming, outgoing, f.focus, v, f.targets[v].depth.value)
    ensures f.targets[v].depth == None
       <==> !Within(incoming, f.focus, v, MAX_FLOW_DEPTH) && !Within(outgoing, f.focus, v, MAX_FLOW_DEPTH)
  {
    ShownRoles(f, v);
    OnlyStartAtZero(incoming, f.focus, v);
    OnlyStartAtZero(outgoing, f.focus, v);
    if v in f.roles {
      RoleDepthIsMinimum(f.roles[v], f.focus, v, incoming, outgoing);
    }
  }

  /** Roles and depths shown are those of the edges, for every node. */
  ghost predicate ShowsDistances(targets: map<int, Target>, incoming: Adjacency, outgoing: Adjacency, focus: int) {
    forall v | v in targets ::
      && Truthful(targets, incoming, outgoing, focus, v)
      && (targets[v].depth.Some? ==> IsMinimum(incoming, outgoing, focus, v, targets[v].depth.value))
      && (targets[v].depth == None
          <==> !Within(incoming, focus, v, MAX_FLOW_DEPTH) && !Within(outgoing, focus, v, MAX_FLOW_DEPTH))
  }

  lemma LayoutShowsDistances(f: Finished, incoming: Adjacency, outgoing: Adjacency)
    requires IsFlowLayout(f)
    requires TrueRoles(f.roles, IdsOf(f.nodes), f.focus, incoming, outgoing)
    ensures ShowsDistances(f.targets, incoming, outgoing, f.focus)
  {
    forall v | v in f.targets
      ensures Truthful(f.targets, incoming, outgoing, f.focus, v)
      ensures f.targets[v].depth.Some? ==> IsMinimum(incoming, outgoing, f.focus, v, f.targets[v].depth.value)
      ensures f.targets[v].depth == None
         <==> !Within(incoming, f.focus, v, MAX_FLOW_DEPTH) && !Within(outgoing, f.focus, v, MAX_FLOW_DEPTH)
    {
      OneFocus(f, incoming, outgoing, v);
      DepthIsSmallerDistance(f, incoming, outgoing, v);
    }
  }

  method FocusOn(env: Env, nodes: seq<GraphNode>, edges: seq<Edge>, focus: int, overview: map<int, Target>)
    returns (targets: map<int, Target>, ghost roles: map<int, Flow>, ghost sorted: map<string, seq<GraphNode>>)
    requires DistinctIds(nodes) && overview.Keys == IdsOf(nodes) && focus in overview
    ensures targets.Keys == IdsOf(nodes) && targets[focus].x == 0.0 == targets[focus].y
    ensures ShowsDistances(targets, IncomingLinks(IdsOf(nodes), edges), OutgoingLinks(IdsOf(nodes), edges), focus)
    ensures IsFlowLayout(Finished(env, nodes, focus, roles, sorted, overview, targets))
    ensures TrueRoles(roles, IdsOf(nodes), focus, IncomingLinks(IdsOf(nodes), edges),
                      OutgoingLinks(IdsOf(nodes), edges))
    ensures Collates(env.compare) ==> LayersInOrder(env, sorted)
  {
    var nodeIds := IdsOf(nodes);
    var outgoing, incoming := BuildLinks(nodeIds, edges);
    var incomingDepths := BreadthFirstDepths(focus, incoming);
    var outgoingDepths := BreadthFirstDepths(focus, outgoing);
    var layers, flows := AssignRoles(nodes, focus, incomingDepths, outgoingDepths);
    roles := flows;
    RolesAreTrue(roles, nodeIds, focus, incomingDepths, outgoingDepths, incoming, outgoing);
    targets, sorted := PlaceLayers(env, nodes, overview, flows, layers);
    ghost var seated := targets;
    targets := PlaceContexts(env, nodes, focus, flows, targets);
    LayoutDone(env, nodes, focus, flows, layers, sorted, overview, seated, targets);
    assert targets[focus].sector == overview[focus].sector;
    targets := targets[focus := FocusTarget(targets[focus].sector)];
    LayoutShowsDistances(Finished(env, nodes, focus, roles, sorted, overview, targets), incoming, outgoing);
  }

  /** Lays the graph out around the selected node; without one that is drawn the overview stays. */
  method ComputeStellarFlowLayout(env: Env, nodes: seq<GraphNode>, edges: seq<Edge>, selected: Option<int>)
    returns (targets: map<int, Target>, ghost families: seq<Family>, ghost overview: map<int, Target>,
             ghost roles: map<int, Flow>, ghost sorted: map<string, seq<GraphNode>>)
    requires DistinctIds(nodes)
    ensures ArePartition(families, nodes)
    ensures Collates(env.compare) ==> InOrder(env, families) && LayersInOrder(env, sorted)
    ensures Placed(AllTargets(env, nodes, families), nodes, families, overview, |families|, 0)
    ensures env.m.Lawful() ==>
              exists most, rim, gap, sectors :: IsOverview(env, nodes, families, overview, most, rim, gap, sectors)
    ensures selected.None? || selected.value !in IdsOf(nodes) ==> targets == overview
    ensures targets.Keys == IdsOf(nodes)
    ensures selected.Some? && selected.value in IdsOf(nodes) ==>
              && targets[selected.value].x == 0.0 == targets[selected.value].y
              && ShowsDistances(targets, IncomingLinks(IdsOf(nodes), edges), OutgoingLinks(IdsOf(nodes), edges),
                                selected.value)
    ensures selected.Some? && selected.value in IdsOf(nodes) ==>
              && IsFlowLayout(Finished(env, nodes, selected.value, roles, sorted, overview, targets))
              && TrueRoles(roles, IdsOf(nodes), selected.value, IncomingLinks(IdsOf(nodes), edges),
                           OutgoingLinks(IdsOf(nodes), edges))
  {
    roles, sorted := map[], map[];
    targets, families := ComputeConstellation(env, nodes);
    overview := targets;
    assert forall id :: id in targets <==> id in IdsOf(nodes);
    assert targets.Keys == IdsOf(nodes);
    if selected.None? || selected.value !in targets {
      return;
    }
    targets, roles, sorted := FocusOn(env, nodes, edges, selected.value, targets);
  }
}
