/** Building the plan of an exact scope, and positioning nodes with it afterwards. */
module ExactScope {
  import opened CirclePacking
  import opened DomainKeys
  import opened ExactScopeCensus
  import opened ExactScopeGroups
  import opened ExactScopeLayout
  import opened Numbers
  import opened Options

  /** `serial` holds the rounded circles, in the order of the clusters and domains of `groups`. */
  datatype Plan = Plan(groups: Groups, serial: Layout)

  function ClusterDiscs(clusters: seq<Cluster>): (r: seq<Disc>)
    ensures |r| == |clusters|
    ensures forall k | 0 <= k < |clusters| :: r[k] == Disc(clusters[k].key, clusters[k].radius)
  {
    seq(|clusters|, k requires 0 <= k < |clusters| => Disc(clusters[k].key, clusters[k].radius))
  }

  ghost predicate OwnersOf(g: Groups, owner: seq<nat>) {
    |owner| == |g.clusters|
    && forall k | 0 <= k < |owner| :: owner[k] < |g.domains| && g.domains[owner[k]].key == g.clusters[k].domainKey
  }

  ghost predicate Listed(domains: seq<Count>, key: string) {
    exists d :: 0 <= d < |domains| && domains[d].key == key
  }

  method FindDomain(domains: seq<Count>, key: string) returns (d: nat)
    requires Listed(domains, key)
    ensures d < |domains| && domains[d].key == key
  {
    d := 0;
    while domains[d].key != key
      invariant d < |domains|
      invariant exists e :: d <= e < |domains| && domains[e].key == key
      decreases |domains| - d
    {
      d := d + 1;
    }
  }

  /** The domain id of every cluster. */
  method IdsOf(clusters: seq<Cluster>, domains: seq<Count>) returns (owner: seq<nat>)
    requires forall c | c in clusters :: Listed(domains, c.domainKey)
    ensures |owner| == |clusters|
    ensures forall k | 0 <= k < |owner| :: owner[k] < |domains| && domains[owner[k]].key == clusters[k].domainKey
  {
    owner := [];
    for k := 0 to |clusters|
      invariant |owner| == k
      invariant forall j | 0 <= j < k :: owner[j] < |domains| && domains[owner[j]].key == clusters[j].domainKey
    {
      var d := FindDomain(domains, clusters[k].domainKey);
      owner := owner + [d];
    }
  }

  lemma AllDomainsListed(clusters: seq<Cluster>, domains: seq<Count>, keys: seq<string>, ds: seq<string>)
    requires |keys| == |ds| && AreClusters(clusters, keys, ds) && IsListing(domains, Histogram(ds))
    ensures forall c | c in clusters :: Listed(domains, c.domainKey)
  {
    forall c | c in clusters ensures Listed(domains, c.domainKey) {
      var i := ListedDomainOccurs(clusters, keys, ds, c);
      assert ds[i] in ds;
      assert Count(ds[i], Histogram(ds)[ds[i]]) in domains;
      var d :| 0 <= d < |domains| && domains[d] == Count(ds[i], Histogram(ds)[ds[i]]);
    }
  }

  lemma OwnedByIndex(g: Groups, owner: seq<nat>)
    requires OwnersOf(g, owner) && EveryDomainOwns(g)
    requires forall i, j | 0 <= i < j < |g.domains| :: g.domains[i].key != g.domains[j].key
    ensures Owned(owner, |g.clusters|, |g.domains|)
  {
    forall d: nat | d < |g.domains| ensures d in owner {
      var key := g.domains[d].key;
      assert g.domains[d] in g.domains;
      assert ClustersOf(g.clusters, key) != [];
      var c := ClustersOf(g.clusters, key)[0];
      assert c in ClustersOf(g.clusters, key);
      assert c in g.clusters && c.domainKey == key;
      var k :| 0 <= k < |g.clusters| && g.clusters[k] == c;
      assert owner[k] == d;
    }
  }

  /**
   What a finished plan promises: before rounding every cluster lies inside its domain with the padding to
   spare and all gaps are kept, the published circles are those circles rounded, and no two of them touch.
   */
  ghost predicate Finished(m: Math, plan: Plan, l: Layout, owner: seq<nat>) {
    && OwnersOf(plan.groups, owner)
    && Owned(owner, |l.clusters|, |l.domains|) && WellLaid(m, l, owner)
    && (exists local :: LaidOut(m, l, owner, local))
    && SameDiscs(l.clusters, ClusterDiscs(plan.groups.clusters))
    && plan.serial == Layout(RoundedAll(l.clusters), RoundedAll(l.domains))
    && forall j, k | 0 <= j < |l.clusters| && 0 <= k < |l.clusters| && j != k ::
         Apart(m, plan.serial.clusters[j], plan.serial.clusters[k], CLUSTER_GAP - 0.02)
  }

  method LayGroupsOut(m: Math, g: Groups, owner: seq<nat>) returns (plan: Plan, ghost l: Layout)
    requires m.Lawful() && OwnersOf(g, owner) && Owned(owner, |g.clusters|, |g.domains|)
    requires forall k | 0 <= k < |g.clusters| :: ClusterDiscs(g.clusters)[k].radius >= 0.0
    ensures plan.groups == g && Finished(m, plan, l, owner)
  {
    var laid := LayoutScope(m, ClusterDiscs(g.clusters), owner, KeysOfDomains(g.domains));
    plan := Plan(g, Layout(RoundedAll(laid.clusters), RoundedAll(laid.domains)));
    forall j, k | 0 <= j < |laid.clusters| && 0 <= k < |laid.clusters| && j != k
      ensures Apart(m, RoundedAll(laid.clusters)[j], RoundedAll(laid.clusters)[k], CLUSTER_GAP - 0.02)
    {
      RoundedDisjoint(m, laid, owner, j, k);
    }
    l := laid;
  }

  lemma RadiiNonnegative(g: Groups, nodes: seq<Node>)
    requires WellGrouped(g, nodes)
    ensures forall k | 0 <= k < |g.clusters| :: ClusterDiscs(g.clusters)[k].radius >= MIN_CLUSTER_RADIUS
  {
    forall k | 0 <= k < |g.clusters| ensures ClusterDiscs(g.clusters)[k].radius >= MIN_CLUSTER_RADIUS {
      assert g.clusters[k] in g.clusters;
    }
  }

  lemma ReadyForLayout(g: Groups, nodes: seq<Node>)
    requires WellGrouped(g, nodes)
    ensures forall c | c in g.clusters :: Listed(g.domains, c.domainKey)
    ensures forall i, j | 0 <= i < j < |g.domains| :: g.domains[i].key != g.domains[j].key
    ensures forall k | 0 <= k < |g.clusters| :: ClusterDiscs(g.clusters)[k].radius >= 0.0
  {
    AllDomainsListed(g.clusters, g.domains, Keys(g, nodes), NodeDomains(g, nodes));
    RadiiNonnegative(g, nodes);
  }

  /**
   Groups the nodes and lays the groups out. The layout is there exactly when every domain owns a cluster; a
   domain without one has no radius, and the source goes on with minus infinity.
   */
  method BuildExactScopeLayout(m: Math, nodes: seq<Node>, rawScopeKey: string)
    returns (g: Groups, plan: Option<Plan>, ghost l: Layout, ghost owner: seq<nat>)
    requires m.Lawful()
    ensures g.scopeKey == ScopeKey(rawScopeKey) && WellGrouped(g, nodes)
    ensures plan.Some? <==> EveryDomainOwns(g)
    ensures plan.Some? ==> plan.value.groups == g && Finished(m, plan.value, l, owner)
  {
    l, owner := Layout([], []), [];
    g := GroupNodes(nodes, rawScopeKey, m.sqrt);
    if !EveryDomainOwns(g) {
      plan := None;
      return;
    }
    ReadyForLayout(g, nodes);
    var ids := IdsOf(g.clusters, g.domains);
    OwnedByIndex(g, ids);
    var p;
    p, l := LayGroupsOut(m, g, ids);
    plan, owner := Some(p), ids;
  }

  predicate IsStructural(kind: string) {
    kind == "Directory" || kind == "Folder" || kind == "File" || kind == "Module" || kind == "Package"
  }

  /** A positioned node: the index of its cluster, and its point. */
  datatype Placement = Placement(cluster: nat, point: Spot)

  /** `clusters.find` by key; the number of clusters if there is none. */
  method FindCluster(clusters: seq<Cluster>, key: string) returns (k: nat)
    ensures k <= |clusters| && (k < |clusters| ==> clusters[k].key == key)
    ensures k == |clusters| <==> forall c | c in clusters :: c.key != key
  {
    k := 0;
    while k < |clusters| && clusters[k].key != key
      invariant 0 <= k <= |clusters|
      invariant forall j | 0 <= j < k :: clusters[j].key != key
    {
      k := k + 1;
    }
  }

  lemma InputNodeHasCluster(g: Groups, nodes: seq<Node>, node: Node)
    requires WellGrouped(g, nodes) && node in nodes
    ensures exists c :: c in g.clusters && c.key == PositionKey(g, node)
  {
    var i :| 0 <= i < |nodes| && nodes[i] == node;
    NodeFindsItsCluster(g, nodes, i);
  }

  /**
   Positions a node with a finished plan. A node of the input always finds a cluster, the one that counted it,
   and lands inside its circle; a node that belongs to none of the clusters is not positioned.
   */
  method PositionExactScopeLayoutNode(m: Math, plan: Plan, node: Node, radialUnit: real, angularUnit: real,
                                      ghost nodes: seq<Node>, ghost l: Layout, ghost owner: seq<nat>)
    returns (r: Option<Placement>)
    requires m.Lawful() && 0.0 <= radialUnit < 1.0 && 0.0 <= angularUnit < 1.0
    requires WellGrouped(plan.groups, nodes) && Finished(m, plan, l, owner)
    ensures node in nodes ==> r.Some?
    ensures r == None <==> forall c | c in plan.groups.clusters :: c.key != PositionKey(plan.groups, node)
    ensures r.Some? ==>
              var k := r.value.cluster;
              && k < |plan.groups.clusters| && k < |plan.serial.clusters|
              && plan.groups.clusters[k].key == PositionKey(plan.groups, node)
              && r.value.point
                 == NodePosition(m, plan.serial.clusters[k], radialUnit, angularUnit, IsStructural(node.kind))
              && FromCentre(m, plan.serial.clusters[k], r.value.point) <= plan.groups.clusters[k].radius - 17.98
  {
    var key := PositionKey(plan.groups, node);
    var k := FindCluster(plan.groups.clusters, key);
    if node in nodes {
      InputNodeHasCluster(plan.groups, nodes, node);
    }
    if k == |plan.groups.clusters| {
      return None;
    }
    RadiiNonnegative(plan.groups, nodes);
    var cluster := plan.serial.clusters[k];
    assert cluster.disc == ClusterDiscs(plan.groups.clusters)[k];
    NodeInsideCluster(m, cluster, radialUnit, angularUnit, IsStructural(node.kind));
    r := Some(Placement(k, NodePosition(m, cluster, radialUnit, angularUnit, IsStructural(node.kind))));
  }
}
