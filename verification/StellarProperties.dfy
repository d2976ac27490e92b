/** What a reader of the focused layout may rely on, for every graph and every selected node. */
module StellarProperties {
  import opened Numbers
  import opened Options
  import opened Sorting
  import opened StellarConstellation
  import opened StellarDepths
  import opened StellarFlow
  import opened StellarKeys
  import opened StellarLanes
  import opened StellarLayout
  import opened StellarTargets

  /** Incoming nodes are left of the focus and outgoing nodes right of it, however many there are. */
  lemma LeftAndRight(f: Finished, incoming: Adjacency, outgoing: Adjacency, v: int)
    requires f.env.Lawful()
    requires IsFlowLayout(f)
    requires TrueRoles(f.roles, IdsOf(f.nodes), f.focus, incoming, outgoing) && v in f.roles
    ensures f.roles[v].role == Incoming ==> f.targets[v].x <= f.targets[f.focus].x - 91.0
    ensures f.roles[v].role == Outgoing ==> f.targets[v].x >= f.targets[f.focus].x + 91.0
    ensures f.roles[v].role == Bidirectional ==> Abs(f.targets[v].x) >= 43.0
  {
    var i, node := SeatOf(f, v);
    assert f.env.DistanceLaw(f.roles[v].depth);
    SidesOfFocus(f.env, f.roles[v], i, |f.sorted[FlowKey(f.roles[v])]|);
  }

  /** Two nodes of the same role and depth never share a position. */
  lemma NobodyCovered(f: Finished, incoming: Adjacency, outgoing: Adjacency, v: int, w: int)
    requires f.env.Lawful()
    requires IsFlowLayout(f)
    requires TrueRoles(f.roles, IdsOf(f.nodes), f.focus, incoming, outgoing)
    requires v in f.roles && w in f.roles && v != w && f.roles[v] == f.roles[w]
    ensures f.targets[v].x != f.targets[w].x || f.targets[v].y != f.targets[w].y
  {
    var i, a := SeatOf(f, v);
    var j, b := SeatOf(f, w);
    var count := |f.sorted[FlowKey(f.roles[v])]|;
    assert f.env.DistanceLaw(f.roles[v].depth);
    if i < j {
      SeatsDistinct(f.env, f.roles[v], i, j, count);
    } else {
      SeatsDistinct(f.env, f.roles[v], j, i, count);
    }
  }

  lemma SwapFactors(c: real, r: real, w: real)
    ensures Scaled(Scaled(c, r), w) == Scaled(Scaled(c, w), r)
  {
    assert (c * r) * w == (c * w) * r;
  }

  /** A context node keeps its direction and stands 1.16 times as far out as before, at least 520. */
  lemma ContextOnRing(env: Env, id: int, current: Target)
    requires env.Lawful()
    ensures var after := ContextTarget(env, id, current);
            var was, now := env.m.Hypot(current.x, Unsqueezed(current.y)), env.m.Hypot(after.x, Unsqueezed(after.y));
            && now == Max(520.0, was * 1.16)
            && (was > 0.0 ==> Scaled(after.x, was) == Scaled(current.x, now))
            && (was > 0.0 ==> Scaled(Unsqueezed(after.y), was) == Scaled(Unsqueezed(current.y), now))
  {
    var after := ContextTarget(env, id, current);
    var was := env.m.Hypot(current.x, Unsqueezed(current.y));
    assert env.m.HypotLaw(current.x, Unsqueezed(current.y));
    var angle := if was > 0.0 then env.Atan2(Unsqueezed(current.y), current.x)
    else Scaled(StableFraction(id), env.m.pi) * 2.0;
    var radius := Max(MIN_CONTEXT_RADIUS, was * 1.16);
    assert Unsqueezed(after.y) == Scaled(env.m.Sin(angle), radius);
    PolarLength(env.m, angle, radius);
    if was > 0.0 {
      assert env.AngleLaw(current.x, Unsqueezed(current.y));
      SwapFactors(env.m.Cos(angle), radius, was);
      SwapFactors(env.m.Sin(angle), radius, was);
    }
  }

  /** In a finished layout every unrelated node is on the ring. */
  lemma UnrelatedOnRing(f: Finished, v: int)
    requires f.env.Lawful()
    requires IsFlowLayout(f)
    requires v in f.targets && v != f.focus && v !in f.roles
    ensures f.env.m.Hypot(f.targets[v].x, Unsqueezed(f.targets[v].y)) >= 520.0
  {
    ContextOnRing(f.env, v, f.overview[v]);
  }

  /** An edge of the graph that is given a depth lies on a shortest path of that length from or to the focus. */
  lemma EdgeDepthOnShortestPath(f: Finished, edges: seq<Edge>, u: int, v: int, d: nat)
    requires IsFlowLayout(f)
    requires TrueRoles(f.roles, IdsOf(f.nodes), f.focus, IncomingLinks(IdsOf(f.nodes), edges),
                       OutgoingLinks(IdsOf(f.nodes), edges))
    requires Edge(u, v) in edges && StellarFlowEdgeDepth(u, v, f.targets) == Some(d)
    ensures EndsShortestWalk(OutgoingLinks(IdsOf(f.nodes), edges), f.focus, u, v, d)
            || EndsShortestWalk(IncomingLinks(IdsOf(f.nodes), edges), f.focus, v, u, d)
  {
    var ids := IdsOf(f.nodes);
    var incoming, outgoing := IncomingLinks(ids, edges), OutgoingLinks(ids, edges);
    OneFocus(f, incoming, outgoing, u);
    OneFocus(f, incoming, outgoing, v);
    assert u != v;
    EdgeDepthIsDistance(f.targets, ids, edges, f.focus, u, v, d);
  }

  // ----- the rails of a layout

  /** The targets in the order the map lists its ids. */
  function Values(targets: map<int, Target>, ids: seq<int>): (r: seq<Target>)
    requires forall i | 0 <= i < |ids| :: ids[i] in targets
    ensures |r| == |ids| && forall i | 0 <= i < |r| :: r[i] == targets[ids[i]]
  {
    seq(|ids|, i requires 0 <= i < |ids| => targets[ids[i]])
  }

  lemma {:induction false} CountedByRole(targets: map<int, Target>, roles: set<int>, ids: seq<int>)
    requires Distinct(ids) && forall i | 0 <= i < |ids| :: ids[i] in targets
    requires forall i | 0 <= i < |ids| :: Counted(targets[ids[i]]) <==> ids[i] in roles
    ensures NumberIn(ByLayer, Values(targets, ids)) == |set id | id in ids && id in roles|
  {
    var chosen := set id | id in ids && id in roles;
    if ids == [] {
      assert chosen == {};
    } else {
      var before, last := ids[..|ids| - 1], ids[|ids| - 1];
      assert ids == before + [last];
      assert last !in before;
      CountedByRole(targets, roles, before);
      assert Values(targets, ids)[..|ids| - 1] == Values(targets, before);
      var fewer := set id | id in before && id in roles;
      assert chosen == if last in roles then fewer + {last} else fewer;
    }
  }

  /** Just the nodes with a role are counted, at depths one to four, and they have a lane. */
  ghost predicate RolesCounted(targets: map<int, Target>, roles: set<int>) {
    forall id | id in targets ::
      && (Counted(targets[id]) <==> id in roles)
      && (id in roles ==> 1 <= targets[id].depth.value <= 4 && targets[id].laneKey.Some?)
  }

  lemma LayoutCountsRoles(f: Finished, incoming: Adjacency, outgoing: Adjacency)
    requires IsFlowLayout(f)
    requires TrueRoles(f.roles, IdsOf(f.nodes), f.focus, incoming, outgoing)
    ensures RolesCounted(f.targets, f.roles.Keys) && f.roles.Keys <= f.targets.Keys
  {
    forall id | id in f.targets
      ensures Counted(f.targets[id]) <==> id in f.roles.Keys
      ensures id in f.roles.Keys ==> 1 <= f.targets[id].depth.value <= 4 && f.targets[id].laneKey.Some?
    {
      ShownRoles(f, id);
    }
  }

  /** `ids` lists the ids of the map, each once. */
  ghost predicate Lists(ids: seq<int>, targets: map<int, Target>) {
    Distinct(ids) && (forall i | 0 <= i < |ids| :: ids[i] in targets) && forall id | id in targets :: id in ids
  }

  lemma RoleCounted(targets: map<int, Target>, roles: set<int>, id: int)
    requires RolesCounted(targets, roles) && id in targets
    ensures Counted(targets[id]) <==> id in roles
    ensures id in roles ==> 1 <= targets[id].depth.value <= 4 && targets[id].laneKey.Some?
  {
  }

  lemma NumberOfRoles(targets: map<int, Target>, roles: set<int>, ids: seq<int>)
    requires RolesCounted(targets, roles) && roles <= targets.Keys && Lists(ids, targets)
    ensures NumberIn(ByLayer, Values(targets, ids)) == |roles|
    ensures (forall id | id in roles :: targets[id].laneKey != Some(""))
            ==> NumberIn(ByModule, Values(targets, ids)) == |roles|
    ensures forall t | t in Values(targets, ids) && Counted(t) :: 1 <= t.depth.value <= 4
  {
    forall i | 0 <= i < |ids| ensures Counted(targets[ids[i]]) <==> ids[i] in roles {
      RoleCounted(targets, roles, ids[i]);
    }
    CountedByRole(targets, roles, ids);
    assert (set id | id in ids && id in roles) == roles by {
      forall id | id in roles ensures id in ids {
        assert id in targets.Keys;
        assert id in targets;
      }
    }
    var values := Values(targets, ids);
    forall t | t in values && Counted(t)
      ensures 1 <= t.depth.value <= 4
      ensures (forall id | id in roles :: targets[id].laneKey != Some("")) ==> InGroups(ByModule, t)
    {
      var i :| 0 <= i < |ids| && values[i] == t;
      RoleCounted(targets, roles, ids[i]);
    }
    if forall id | id in roles :: targets[id].laneKey != Some("") {
      AllLabelled(values);
    }
  }

  /** The rails of a layout count every node with a role once, and so do its module labels where no label is empty. */
  lemma RailsCountDirectedNodes(f: Finished, incoming: Adjacency, outgoing: Adjacency, ids: seq<int>,
                                layers: seq<LaneSummary>, modules: seq<ModuleSummary>)
    requires IsFlowLayout(f)
    requires TrueRoles(f.roles, IdsOf(f.nodes), f.focus, incoming, outgoing) && Lists(ids, f.targets)
    requires AreLayerSummaries(layers, Values(f.targets, ids)) && AreModuleSummaries(modules, Values(f.targets, ids))
    ensures Sum(LayerCounts(layers)) == |f.roles| && |layers| <= 12
    ensures (forall id | id in f.roles :: f.targets[id].laneKey != Some("")) ==> Sum(ModuleCounts(modules)) == |f.roles|
  {
    LayoutCountsRoles(f, incoming, outgoing);
    NumberOfRoles(f.targets, f.roles.Keys, ids);
    LayersTotal(layers, Values(f.targets, ids));
    ModulesTotal(modules, Values(f.targets, ids));
    AtMostTwelveRails(layers, Values(f.targets, ids));
    assert |f.roles| == |f.roles.Keys|;
  }
}
