/** The groups of an exact scope as a whole: bounds on their number, and conservation of the node counts. */
module ExactScopeCensus {
  import opened Counting
  import opened DomainKeys
  import opened ExactScopeGroups
  import opened GraphScope
  import opened Numbers
  import opened Options
  import opened Sorting

  const MIN_CLUSTER_RADIUS := 44.0

  datatype Cluster = Cluster(key: string, domainKey: string, count: nat, radius: real)

  datatype Groups = Groups(
    scopeKey: string,
    selectedDomains: set<string>,
    selectedFiles: set<string>,
    domains: seq<Count>,
    clusters: seq<Cluster>)

  /** Room for the nodes the cluster shows, at most 64 of a file and 96 of an aggregate. */
  function ClusterRadius(nodeCount: nat, aggregate: bool, sqrt: real -> real): (r: real)
    ensures r >= MIN_CLUSTER_RADIUS
  {
    var most := if aggregate then 96 else 64;
    var capacity := if nodeCount <= most then nodeCount else most;
    var furthest := if capacity <= 1 then 0.0 else 12.0 + sqrt((capacity - 1) as real) * 12.0;
    Max(MIN_CLUSTER_RADIUS, Ceil(furthest + 22.0) as real)
  }

  /** The nodes of a cluster that its circle has room for. */
  function Shown(count: nat, aggregate: bool): nat {
    if aggregate then (if count <= 96 then count else 96) else (if count <= 64 then count else 64)
  }

  /**
   The least whole radius that leaves 22 around the outermost ring: node `n` of a cluster is on ring `12 *
   sqrt(n - 1)`.
   */
  ghost predicate HoldsRings(m: Math, shown: nat, radius: real) {
    var needed := if shown <= 1 then 22.0 else 34.0 + m.Sqrt((shown - 1) as real) * 12.0;
    && radius.Floor as real == radius && radius >= needed && radius >= 44.0
    && (radius < needed + 1.0 || radius == 44.0)
  }

  lemma RadiusHoldsRings(m: Math, count: nat, aggregate: bool)
    ensures HoldsRings(m, Shown(count, aggregate), ClusterRadius(count, aggregate, m.sqrt))
  {
  }

  lemma RingsGrow(m: Math, n: nat, k: nat, r: real, s: real)
    requires m.Lawful() && n <= k && HoldsRings(m, n, r) && HoldsRings(m, k, s)
    ensures r <= s
  {
    if n > 1 {
      SqrtGrows(m, (n - 1) as real, (k - 1) as real);
    } else if k > 1 {
      assert m.SqrtLaw((k - 1) as real);
    }
    assert r.Floor <= s.Floor;
  }

  /** A cluster with more nodes is no smaller, and past the nodes it shows it stays as it is. */
  lemma RadiusGrows(m: Math, n: nat, k: nat, aggregate: bool)
    requires m.Lawful() && n <= k
    ensures ClusterRadius(n, aggregate, m.sqrt) <= ClusterRadius(k, aggregate, m.sqrt)
    ensures n >= (if aggregate then 96 else 64) ==>
              ClusterRadius(n, aggregate, m.sqrt) == ClusterRadius(k, aggregate, m.sqrt)
  {
    RadiusHoldsRings(m, n, aggregate);
    RadiusHoldsRings(m, k, aggregate);
    RingsGrow(m, Shown(n, aggregate), Shown(k, aggregate), ClusterRadius(n, aggregate, m.sqrt),
              ClusterRadius(k, aggregate, m.sqrt));
    if Shown(n, aggregate) == Shown(k, aggregate) {
      RingsGrow(m, Shown(k, aggregate), Shown(n, aggregate), ClusterRadius(k, aggregate, m.sqrt),
                ClusterRadius(n, aggregate, m.sqrt));
    }
  }

  function Histogram(keys: seq<string>): (r: map<string, nat>)
    ensures IsHistogram(r, keys)
  {
    map k | k in keys :: Occurrences(keys, k)
  }

  function Grouping(keys: seq<string>, domains: seq<string>): (r: map<string, Group>)
    requires |keys| == |domains|
    ensures IsGrouping(r, keys, domains)
  {
    map k | k in keys :: Group(LastDomain(keys, domains, k), Occurrences(keys, k))
  }

  function Tags(g: Groups, nodes: seq<Node>): seq<Tag> { TagsOf(nodes, g.selectedDomains, g.scopeKey) }

  /** The cluster key of every node, in input order. */
  function Keys(g: Groups, nodes: seq<Node>): seq<string> { ClusterKeys(Tags(g, nodes), g.selectedFiles) }

  /** The domain of every node, in input order. */
  function NodeDomains(g: Groups, nodes: seq<Node>): seq<string> { Domains(Tags(g, nodes)) }

  /** The clusters are the groups of the nodes by cluster key, each once and in key order. */
  ghost predicate AreClusters(clusters: seq<Cluster>, keys: seq<string>, domains: seq<string>)
    requires |keys| == |domains|
  {
    && (forall i, j | 0 <= i < j < |clusters| :: clusters[i].key != clusters[j].key)
    && (forall i, j | 0 <= i < j < |clusters| :: StringLeq(clusters[i].key, clusters[j].key))
    && (forall c | c in clusters ::
          && c.key in keys && c.radius >= MIN_CLUSTER_RADIUS
          && c.count == Occurrences(keys, c.key) && c.domainKey == LastDomain(keys, domains, c.key))
    && (forall k | k in keys :: exists c :: c in clusters && c.key == k)
  }

  ghost predicate WellGrouped(g: Groups, nodes: seq<Node>) {
    var tags := Tags(g, nodes);
    && IsDomainChoice(g.selectedDomains, Histogram(RawKeys(nodes, g.scopeKey)), g.scopeKey)
    && IsFileChoice(g.selectedFiles, Grouping(Composites(tags), Domains(tags)))
    && IsListing(g.domains, Histogram(Domains(tags))) && Sorted(g.domains, ByKey)
    && AreClusters(g.clusters, Keys(g, nodes), NodeDomains(g, nodes))
  }

  // ----- how many domains, files and clusters

  ghost function Image<T, U>(s: set<T>, f: T -> U): set<U> { set x | x in s :: f(x) }

  lemma {:induction false} ImageSize<T, U>(s: set<T>, f: T -> U)
    ensures |Image(s, f)| <= |s|
  {
    if s == {} {
      assert Image(s, f) == {};
    } else {
      var x :| x in s;
      ImageSize(s - {x}, f);
      assert Image(s, f) == Image(s - {x}, f) + {f(x)};
    }
  }

  lemma {:induction false} KeysSize(list: seq<Count>)
    requires forall i, j | 0 <= i < j < |list| :: list[i].key != list[j].key
    ensures |set c | c in list :: c.key| == |list|
  {
    var keys := set c | c in list :: c.key;
    if list == [] {
      assert keys == {};
    } else {
      var before, last := list[..|list| - 1], list[|list| - 1];
      KeysSize(before);
      assert list == before + [last];
      var rest := set c | c in before :: c.key;
      assert keys == rest + {last.key};
      assert last.key !in rest;
    }
  }

  /** A map with keys inside a set has no more entries than the set. */
  lemma ListingSize(list: seq<Count>, counts: map<string, nat>)
    requires IsListing(list, counts)
    ensures |list| == |counts|
  {
    KeysSize(list);
    var keys := set c | c in list :: c.key;
    forall k ensures k in keys <==> k in counts {
      if k in counts { assert Count(k, counts[k]) in list; }
    }
    assert keys == counts.Keys;
  }

  lemma ChosenDomainsFew(raw: seq<string>, ds: seq<string>, selected: set<string>, scopeKey: string)
    requires |ds| == |raw| && IsDomainChoice(selected, Histogram(raw), scopeKey)
    requires forall i | 0 <= i < |raw| :: ds[i] == MappedDomainKey(raw[i], selected, scopeKey)
    ensures |set d | d in ds| <= MAX_SCOPE_DOMAINS
  {
    var keys := set d | d in ds;
    if |Histogram(raw)| <= MAX_SCOPE_DOMAINS {
      forall d | d in keys ensures d in selected {
        var i :| 0 <= i < |ds| && ds[i] == d;
        assert raw[i] in raw;
      }
      SubsetSize(keys, selected);
    } else {
      var room := selected + {OtherDomainKey(scopeKey)};
      forall d | d in keys ensures d in room {
        var i :| 0 <= i < |ds| && ds[i] == d;
      }
      SubsetSize(keys, room);
    }
  }

  lemma DomainKeysFew(g: Groups, nodes: seq<Node>)
    requires WellGrouped(g, nodes)
    ensures |set d | d in NodeDomains(g, nodes)| <= MAX_SCOPE_DOMAINS
  {
    ChosenDomainsFew(RawKeys(nodes, g.scopeKey), NodeDomains(g, nodes), g.selectedDomains, g.scopeKey);
  }

  /** At most twelve domains, whatever the input. */
  lemma AtMostTwelveDomains(g: Groups, nodes: seq<Node>)
    requires WellGrouped(g, nodes)
    ensures |g.domains| <= MAX_SCOPE_DOMAINS
  {
    DomainKeysFew(g, nodes);
    var h := Histogram(NodeDomains(g, nodes));
    ListingSize(g.domains, h);
    assert h.Keys == set d | d in NodeDomains(g, nodes);
  }

  /** Exactly the smaller of 48 and the number of domain and file pairs is selected. */
  lemma SelectedFileCount(g: Groups, nodes: seq<Node>)
    requires WellGrouped(g, nodes)
    ensures var pairs := |set k | k in Composites(Tags(g, nodes))|;
            |g.selectedFiles| == if pairs <= MAX_SELECTED_FILES then pairs else MAX_SELECTED_FILES
  {
    var tags := Tags(g, nodes);
    assert Grouping(Composites(tags), Domains(tags)).Keys == set k | k in Composites(tags);
  }

  /** No domain key holds the separator. */
  ghost predicate SeparatorFree(g: Groups, nodes: seq<Node>) {
    forall d | d in NodeDomains(g, nodes) :: '\0' !in d
  }

  function IndexOfSeparator(s: string): (k: nat)
    ensures k <= |s| && (k < |s| ==> s[k] == '\0') && forall i | 0 <= i < k :: s[i] != '\0'
  {
    if s == "" || s[0] == '\0' then 0 else 1 + IndexOfSeparator(s[1..])
  }

  /** The file part of a composite key whose domain has no separator. */
  function AfterSeparator(s: string): string {
    var k := IndexOfSeparator(s);
    if k < |s| then s[k + 1..] else s
  }

  lemma CompositeParts(t: Tag)
    requires '\0' !in t.domain
    ensures AfterSeparator(Composite(t)) == t.file
  {
    var s := Composite(t);
    assert s[|t.domain|] == '\0';
    assert forall i | 0 <= i < |t.domain| :: s[i] == t.domain[i] && t.domain[i] in t.domain;
    assert IndexOfSeparator(s) == |t.domain|;
    assert s[|t.domain| + 1..] == t.file;
  }

  function FileKeys(selectedFiles: set<string>): set<string> { set c | c in selectedFiles :: AfterSeparator(c) }

  function OtherKeys(ds: seq<string>): set<string> { set d | d in ds :: OtherFilesKey(d) }

  lemma KeyHasRoom(tags: seq<Tag>, selectedFiles: set<string>, i: nat)
    requires i < |tags| && '\0' !in tags[i].domain
    ensures ClusterKey(tags[i], selectedFiles) in FileKeys(selectedFiles) + OtherKeys(Domains(tags))
  {
    if Composite(tags[i]) in selectedFiles {
      CompositeParts(tags[i]);
    } else {
      assert Domains(tags)[i] in Domains(tags);
    }
  }

  lemma RoomSize(selectedFiles: set<string>, ds: seq<string>)
    ensures |FileKeys(selectedFiles) + OtherKeys(ds)| <= |selectedFiles| + |set d | d in ds|
  {
    var domains := set d | d in ds;
    var f, g := AfterSeparator, OtherFilesKey;
    ImageSize(selectedFiles, f);
    ImageSize(domains, g);
    assert FileKeys(selectedFiles) == Image(selectedFiles, f);
    assert OtherKeys(ds) == Image(domains, g);
    assert |FileKeys(selectedFiles) + OtherKeys(ds)| <= |FileKeys(selectedFiles)| + |OtherKeys(ds)|;
  }

  lemma {:induction false} ClusterKeysSize(clusters: seq<Cluster>)
    requires forall i, j | 0 <= i < j < |clusters| :: clusters[i].key != clusters[j].key
    ensures |set c | c in clusters :: c.key| == |clusters|
  {
    var keys := set c | c in clusters :: c.key;
    if clusters == [] {
      assert keys == {};
    } else {
      var before, last := clusters[..|clusters| - 1], clusters[|clusters| - 1];
      ClusterKeysSize(before);
      assert clusters == before + [last];
      var rest := set c | c in before :: c.key;
      assert keys == rest + {last.key};
      assert last.key !in rest;
    }
  }

  lemma ClusterKeysFew(clusters: seq<Cluster>, tags: seq<Tag>, selectedFiles: set<string>)
    requires AreClusters(clusters, ClusterKeys(tags, selectedFiles), Domains(tags))
    requires forall t | t in tags :: '\0' !in t.domain
    ensures |clusters| <= |selectedFiles| + |set d | d in Domains(tags)|
  {
    var keys := set c | c in clusters :: c.key;
    var room := FileKeys(selectedFiles) + OtherKeys(Domains(tags));
    forall k | k in keys ensures k in room {
      var i :| 0 <= i < |tags| && ClusterKeys(tags, selectedFiles)[i] == k;
      KeyHasRoom(tags, selectedFiles, i);
    }
    SubsetSize(keys, room);
    RoomSize(selectedFiles, Domains(tags));
    ClusterKeysSize(clusters);
  }

  /** The selected files and one aggregate for each domain. */
  lemma SixtyBySeparator(g: Groups, nodes: seq<Node>)
    requires WellGrouped(g, nodes) && SeparatorFree(g, nodes)
    ensures |g.clusters| <= MAX_SELECTED_FILES + MAX_SCOPE_DOMAINS
  {
    var tags := Tags(g, nodes);
    forall t | t in tags ensures '\0' !in t.domain {
      var i :| 0 <= i < |tags| && tags[i] == t;
      assert Domains(tags)[i] in Domains(tags);
    }
    ClusterKeysFew(g.clusters, tags, g.selectedFiles);
    DomainKeysFew(g, nodes);
  }

  /** The separator is in no path and not in the scope, as on no disk it can be. */
  predicate NoSeparatorIn(nodes: seq<Node>, rawScopeKey: string) {
    && '\0' !in rawScopeKey
    && forall n | n in nodes :: n.filePath.Some? ==> '\0' !in n.filePath.value
  }

  lemma PathsSeparatorFree(g: Groups, nodes: seq<Node>, rawScopeKey: string)
    requires g.scopeKey == ScopeKey(rawScopeKey) && NoSeparatorIn(nodes, rawScopeKey)
    ensures SeparatorFree(g, nodes)
  {
    NormalizedHasNo('\0', Some(rawScopeKey));
    assert '\0' !in OtherDomainKey(g.scopeKey);
    forall i | 0 <= i < |nodes| ensures '\0' !in NodeDomains(g, nodes)[i] {
      assert nodes[i] in nodes;
      DomainKeyHasNo('\0', nodes[i], g.scopeKey);
    }
  }

  /** At most sixty clusters for paths and scopes without the separator. */
  lemma AtMostSixtyClusters(g: Groups, nodes: seq<Node>, rawScopeKey: string)
    requires WellGrouped(g, nodes) && g.scopeKey == ScopeKey(rawScopeKey) && NoSeparatorIn(nodes, rawScopeKey)
    ensures |g.clusters| <= MAX_SELECTED_FILES + MAX_SCOPE_DOMAINS
  {
    PathsSeparatorFree(g, nodes, rawScopeKey);
    SixtyBySeparator(g, nodes);
  }

  // ----- conservation

  function TotalOfDomains(domains: seq<Count>): nat {
    if domains == [] then 0 else domains[0].count + TotalOfDomains(domains[1..])
  }

  function TotalOfClusters(clusters: seq<Cluster>): nat {
    if clusters == [] then 0 else clusters[0].count + TotalOfClusters(clusters[1..])
  }

  function KeysOfDomains(domains: seq<Count>): (r: seq<string>)
    ensures |r| == |domains| && forall i | 0 <= i < |domains| :: r[i] == domains[i].key
  {
    seq(|domains|, i requires 0 <= i < |domains| => domains[i].key)
  }

  function KeysOfClusters(clusters: seq<Cluster>): (r: seq<string>)
    ensures |r| == |clusters| && forall i | 0 <= i < |clusters| :: r[i] == clusters[i].key
  {
    seq(|clusters|, i requires 0 <= i < |clusters| => clusters[i].key)
  }

  lemma {:induction false} DomainTotal(domains: seq<Count>, keys: seq<string>)
    requires forall d | d in domains :: d.count == Occurrences(keys, d.key)
    ensures TotalOfDomains(domains) == SumOccurrences(KeysOfDomains(domains), keys)
  {
    if domains != [] {
      assert domains[0] in domains && forall d | d in domains[1..] :: d in domains;
      DomainTotal(domains[1..], keys);
      assert KeysOfDomains(domains)[1..] == KeysOfDomains(domains[1..]);
    }
  }

  lemma {:induction false} ClusterTotal(clusters: seq<Cluster>, keys: seq<string>)
    requires forall c | c in clusters :: c.count == Occurrences(keys, c.key)
    ensures TotalOfClusters(clusters) == SumOccurrences(KeysOfClusters(clusters), keys)
  {
    if clusters != [] {
      assert clusters[0] in clusters && forall c | c in clusters[1..] :: c in clusters;
      ClusterTotal(clusters[1..], keys);
      assert KeysOfClusters(clusters)[1..] == KeysOfClusters(clusters[1..]);
    }
  }

  lemma DomainsTotal(domains: seq<Count>, ds: seq<string>)
    requires IsListing(domains, Histogram(ds))
    ensures TotalOfDomains(domains) == |ds|
  {
    DomainTotal(domains, ds);
    forall k | k in ds ensures k in KeysOfDomains(domains) {
      assert Count(k, Histogram(ds)[k]) in domains;
      var i :| 0 <= i < |domains| && domains[i] == Count(k, Histogram(ds)[k]);
      assert KeysOfDomains(domains)[i] == k;
    }
    OccurrencesTotal(KeysOfDomains(domains), ds);
  }

  lemma ClustersTotal(clusters: seq<Cluster>, keys: seq<string>, ds: seq<string>)
    requires |keys| == |ds| && AreClusters(clusters, keys, ds)
    ensures TotalOfClusters(clusters) == |keys|
  {
    ClusterTotal(clusters, keys);
    forall k | k in keys ensures k in KeysOfClusters(clusters) {
      var c :| c in clusters && c.key == k;
      var i :| 0 <= i < |clusters| && clusters[i] == c;
      assert KeysOfClusters(clusters)[i] == k;
    }
    OccurrencesTotal(KeysOfClusters(clusters), keys);
  }

  /** The domain counts and the cluster counts each add up to the number of nodes. */
  lemma CountsConserved(g: Groups, nodes: seq<Node>)
    requires WellGrouped(g, nodes)
    ensures TotalOfDomains(g.domains) == |nodes|
    ensures TotalOfClusters(g.clusters) == |nodes|
  {
    DomainsTotal(g.domains, NodeDomains(g, nodes));
    ClustersTotal(g.clusters, Keys(g, nodes), NodeDomains(g, nodes));
  }

  // ----- clusters and their domains

  /** No cluster key is shared by nodes of two domains. */
  ghost predicate OneDomainPerKey(keys: seq<string>, domains: seq<string>)
    requires |keys| == |domains|
  {
    forall i, j | 0 <= i < |keys| && 0 <= j < |keys| && keys[i] == keys[j] :: domains[i] == domains[j]
  }

  ghost predicate HasNode(keys: seq<string>, domains: seq<string>, key: string, domain: string)
    requires |keys| == |domains|
  {
    exists i :: 0 <= i < |keys| && keys[i] == key && domains[i] == domain
  }

  /** The keys of the nodes of one domain. */
  function KeysIn(keys: seq<string>, domains: seq<string>, domain: string): (r: seq<string>)
    requires |keys| == |domains|
    ensures |r| == Occurrences(domains, domain)
    ensures forall k | k in r :: HasNode(keys, domains, k, domain)
    ensures forall i | 0 <= i < |keys| && domains[i] == domain :: keys[i] in r
  {
    if keys == [] then []
    else
      var last := |keys| - 1;
      assert domains == domains[..last] + [domains[last]];
      KeysIn(keys[..last], domains[..last], domain) + if domains[last] == domain then [keys[last]] else []
  }

  /** All the nodes under `key` are nodes of `domain`. */
  ghost predicate KeyOnlyIn(keys: seq<string>, domains: seq<string>, domain: string, key: string)
    requires |keys| == |domains|
  {
    forall i | 0 <= i < |keys| && keys[i] == key :: domains[i] == domain
  }

  lemma KeyOnlyInStep(keys: seq<string>, domains: seq<string>, domain: string, key: string)
    requires |keys| == |domains| && keys != []
    ensures KeyOnlyIn(keys, domains, domain, key)
       <==> KeyOnlyIn(keys[..|keys| - 1], domains[..|keys| - 1], domain, key)
            && (keys[|keys| - 1] == key ==> domains[|keys| - 1] == domain)
  {
    var last := |keys| - 1;
    assert forall i | 0 <= i < last :: keys[..last][i] == keys[i] && domains[..last][i] == domains[i];
  }

  lemma KeysInMore(keys: seq<string>, domains: seq<string>, domain: string)
    requires |keys| == |domains| && keys != []
    ensures var last := |keys| - 1;
            (KeysIn(keys, domains, domain)
             == KeysIn(keys[..last], domains[..last], domain) + if domains[last] == domain then [keys[last]] else [])
  {
  }

  lemma {:induction false} KeysInCount(keys: seq<string>, domains: seq<string>, domain: string, key: string)
    requires |keys| == |domains|
    ensures Occurrences(KeysIn(keys, domains, domain), key) <= Occurrences(keys, key)
    ensures Occurrences(KeysIn(keys, domains, domain), key) == Occurrences(keys, key)
       <==> KeyOnlyIn(keys, domains, domain, key)
  {
    if keys != [] {
      var last := |keys| - 1;
      KeysInCount(keys[..last], domains[..last], domain, key);
      KeyOnlyInStep(keys, domains, domain, key);
      KeysInMore(keys, domains, domain);
      assert keys == keys[..last] + [keys[last]];
      OccurrencesOfMore(keys[..last], keys[last], key);
      OccurrencesOfMore(KeysIn(keys[..last], domains[..last], domain), keys[last], key);
    }
  }

  function ClustersOf(clusters: seq<Cluster>, domain: string): (r: seq<Cluster>)
    ensures forall c | c in r :: c in clusters && c.domainKey == domain
    ensures forall c | c in clusters && c.domainKey == domain :: c in r
  {
    if clusters == [] then []
    else
      (if clusters[0].domainKey == domain then [clusters[0]] else []) + ClustersOf(clusters[1..], domain)
  }

  lemma DistinctFirst<T>(x: T, rest: seq<T>)
    requires Distinct(rest) && x !in rest
    ensures Distinct([x] + rest)
  {
  }

  lemma {:induction false} ClustersOfDistinct(clusters: seq<Cluster>, domain: string)
    requires forall i, j | 0 <= i < j < |clusters| :: clusters[i].key != clusters[j].key
    ensures Distinct(KeysOfClusters(ClustersOf(clusters, domain)))
  {
    if clusters != [] {
      ClustersOfDistinct(clusters[1..], domain);
      var rest := ClustersOf(clusters[1..], domain);
      assert KeysOfClusters([clusters[0]] + rest) == [clusters[0].key] + KeysOfClusters(rest);
      DistinctFirst(clusters[0].key, KeysOfClusters(rest));
    }
  }

  /** A cluster counts only nodes of the domain it is listed under. */
  ghost predicate CountsOwn(c: Cluster, keys: seq<string>, domains: seq<string>)
    requires |keys| == |domains|
  {
    c.count == Occurrences(KeysIn(keys, domains, c.domainKey), c.key)
  }

  lemma ListedDomainOccurs(clusters: seq<Cluster>, keys: seq<string>, ds: seq<string>, c: Cluster) returns (i: nat)
    requires |keys| == |ds| && AreClusters(clusters, keys, ds) && c in clusters
    ensures i < |keys| && keys[i] == c.key && ds[i] == c.domainKey && IsLast(keys, keys[i], i)
  {
    LastDomainOccurs(keys, ds, c.key);
    i :| IsLast(keys, c.key, i) && ds[i] == LastDomain(keys, ds, c.key);
  }

  /** Every cluster counts just its own domain's nodes exactly when no cluster key is shared by two domains. */
  lemma ClustersCountOwn(clusters: seq<Cluster>, keys: seq<string>, ds: seq<string>)
    requires |keys| == |ds| && AreClusters(clusters, keys, ds)
    ensures (forall c | c in clusters :: CountsOwn(c, keys, ds)) <==> OneDomainPerKey(keys, ds)
  {
    forall c | c in clusters ensures CountsOwn(c, keys, ds) <==> KeyOnlyIn(keys, ds, c.domainKey, c.key) {
      KeysInCount(keys, ds, c.domainKey, c.key);
    }
    if forall c | c in clusters :: CountsOwn(c, keys, ds) {
      forall i, j | 0 <= i < |keys| && 0 <= j < |keys| && keys[i] == keys[j] ensures ds[i] == ds[j] {
        assert keys[i] in keys;
        var c :| c in clusters && c.key == keys[i];
        assert KeyOnlyIn(keys, ds, c.domainKey, c.key);
      }
    }
    if OneDomainPerKey(keys, ds) {
      forall c | c in clusters ensures CountsOwn(c, keys, ds) {
        var i := ListedDomainOccurs(clusters, keys, ds, c);
      }
    }
  }

  lemma OwnKeysListed(clusters: seq<Cluster>, keys: seq<string>, ds: seq<string>, domain: string)
    requires |keys| == |ds| && AreClusters(clusters, keys, ds) && OneDomainPerKey(keys, ds)
    ensures forall k | k in KeysIn(keys, ds, domain) :: k in KeysOfClusters(ClustersOf(clusters, domain))
  {
    var mine := ClustersOf(clusters, domain);
    forall k | k in KeysIn(keys, ds, domain) ensures k in KeysOfClusters(mine) {
      var i :| 0 <= i < |keys| && keys[i] == k && ds[i] == domain;
      assert keys[i] in keys;
      var c :| c in clusters && c.key == k;
      var l := ListedDomainOccurs(clusters, keys, ds, c);
      assert c in mine;
      var j :| 0 <= j < |mine| && mine[j] == c;
      assert KeysOfClusters(mine)[j] == k;
    }
  }

  /** With no key shared, the nodes of a domain are the sum of its clusters' counts. */
  lemma DomainSum(clusters: seq<Cluster>, keys: seq<string>, ds: seq<string>, domain: string)
    requires |keys| == |ds| && AreClusters(clusters, keys, ds) && OneDomainPerKey(keys, ds)
    ensures Occurrences(ds, domain) == TotalOfClusters(ClustersOf(clusters, domain))
  {
    ClustersCountOwn(clusters, keys, ds);
    ClusterTotal(ClustersOf(clusters, domain), KeysIn(keys, ds, domain));
    ClustersOfDistinct(clusters, domain);
    OwnKeysListed(clusters, keys, ds, domain);
    OccurrencesTotal(KeysOfClusters(ClustersOf(clusters, domain)), KeysIn(keys, ds, domain));
  }

  /** Then every domain's count is the sum of its clusters' counts, and no domain is left without a cluster. */
  lemma DomainIsSumOfClusters(g: Groups, nodes: seq<Node>, d: Count)
    requires WellGrouped(g, nodes) && OneDomainPerKey(Keys(g, nodes), NodeDomains(g, nodes))
    requires d in g.domains
    ensures d.count == TotalOfClusters(ClustersOf(g.clusters, d.key)) > 0
  {
    DomainSum(g.clusters, Keys(g, nodes), NodeDomains(g, nodes), d.key);
    assert d.key in NodeDomains(g, nodes);
  }

  /**
   A domain owns a cluster exactly when one of its nodes is the last of all nodes under its cluster key: the
   later node decides which domain a shared key is listed under.
   */
  lemma DomainOwnsCluster(clusters: seq<Cluster>, keys: seq<string>, ds: seq<string>, domain: string)
    requires |keys| == |ds| && AreClusters(clusters, keys, ds)
    ensures ClustersOf(clusters, domain) != []
       <==> exists i :: 0 <= i < |keys| && IsLast(keys, keys[i], i) && ds[i] == domain
  {
    if ClustersOf(clusters, domain) != [] {
      var c := ClustersOf(clusters, domain)[0];
      assert c in ClustersOf(clusters, domain);
      var i := ListedDomainOccurs(clusters, keys, ds, c);
    }
    if i :| 0 <= i < |keys| && IsLast(keys, keys[i], i) && ds[i] == domain {
      assert keys[i] in keys;
      var c :| c in clusters && c.key == keys[i];
      var j := ListedDomainOccurs(clusters, keys, ds, c);
      assert i == j;
      assert c in ClustersOf(clusters, domain);
    }
  }

  /** Every domain has a cluster listed under it. */
  predicate EveryDomainOwns(g: Groups) {
    forall d | d in g.domains :: ClustersOf(g.clusters, d.key) != []
  }

  // ----- the grouping itself

  function ClusterOf(key: string, g: Group, sqrt: real -> real): Cluster {
    Cluster(key, g.domainKey, g.count, ClusterRadius(g.count, key == OtherFilesKey(g.domainKey), sqrt))
  }

  lemma ClustersInOrder(groups: map<string, Group>, sorted: seq<Count>, clusters: seq<Cluster>, sqrt: real -> real)
    requires IsListing(sorted, Counts(groups)) && Sorted(sorted, ByKey) && |clusters| == |sorted|
    requires forall j | 0 <= j < |sorted| ::
               sorted[j].key in groups && clusters[j] == ClusterOf(sorted[j].key, groups[sorted[j].key], sqrt)
    ensures forall i, j | 0 <= i < j < |clusters| :: clusters[i].key != clusters[j].key
    ensures forall i, j | 0 <= i < j < |clusters| :: StringLeq(clusters[i].key, clusters[j].key)
    ensures forall k | k in groups :: exists c :: c in clusters && c.key == k
  {
    forall i, j | 0 <= i < j < |clusters| ensures StringLeq(clusters[i].key, clusters[j].key) {
      assert ByKey(sorted[i], sorted[j]);
    }
    forall k | k in groups ensures exists c :: c in clusters && c.key == k {
      assert Count(k, Counts(groups)[k]) in sorted;
      var i :| 0 <= i < |sorted| && sorted[i] == Count(k, Counts(groups)[k]);
      assert clusters[i] in clusters;
    }
  }

  /** The clusters in key order. */
  method ClustersFrom(groups: map<string, Group>, sqrt: real -> real) returns (clusters: seq<Cluster>)
    ensures forall i, j | 0 <= i < j < |clusters| :: clusters[i].key != clusters[j].key
    ensures forall i, j | 0 <= i < j < |clusters| :: StringLeq(clusters[i].key, clusters[j].key)
    ensures forall c | c in clusters :: c.key in groups && c == ClusterOf(c.key, groups[c.key], sqrt)
    ensures forall k | k in groups :: exists c :: c in clusters && c.key == k
  {
    var sorted := SortedByKey(Counts(groups));
    clusters := [];
    for i := 0 to |sorted|
      invariant |clusters| == i
      invariant forall j | 0 <= j < i ::
          sorted[j].key in groups && clusters[j] == ClusterOf(sorted[j].key, groups[sorted[j].key], sqrt)
    {
      assert sorted[i] in sorted;
      clusters := clusters + [ClusterOf(sorted[i].key, groups[sorted[i].key], sqrt)];
    }
    ClustersInOrder(groups, sorted, clusters, sqrt);
  }

  lemma GroupsWellKeyed(tags: seq<Tag>, groups: map<string, Group>)
    requires IsGrouping(groups, Composites(tags), Domains(tags))
    ensures WellKeyed(groups)
    ensures forall c | c in groups :: groups[c].domainKey in Domains(tags)
  {
    forall c | c in groups
      ensures StartsWith(c, groups[c].domainKey + "\0") && groups[c].domainKey in Domains(tags)
    {
      LastDomainOccurs(Composites(tags), Domains(tags), c);
      var i :| IsLast(Composites(tags), c, i) && Domains(tags)[i] == LastDomain(Composites(tags), Domains(tags), c);
      assert c == Composite(tags[i]);
      assert c[..|tags[i].domain| + 1] == tags[i].domain + "\0";
    }
  }

  lemma SameHistogram(counts: map<string, nat>, keys: seq<string>)
    requires IsHistogram(counts, keys)
    ensures counts == Histogram(keys)
  {
  }

  lemma SameGrouping(groups: map<string, Group>, keys: seq<string>, domains: seq<string>)
    requires |keys| == |domains| && IsGrouping(groups, keys, domains)
    ensures groups == Grouping(keys, domains)
  {
  }

  lemma AreClustersFrom(clusters: seq<Cluster>, groups: map<string, Group>, keys: seq<string>, ds: seq<string>,
                        sqrt: real -> real)
    requires |keys| == |ds| && IsGrouping(groups, keys, ds)
    requires forall i, j | 0 <= i < j < |clusters| :: clusters[i].key != clusters[j].key
    requires forall i, j | 0 <= i < j < |clusters| :: StringLeq(clusters[i].key, clusters[j].key)
    requires forall c | c in clusters :: c.key in groups && c == ClusterOf(c.key, groups[c.key], sqrt)
    requires forall k | k in groups :: exists c :: c in clusters && c.key == k
    ensures AreClusters(clusters, keys, ds)
  {
  }

  /** The domains of the nodes, counted and in key order; there are at most twelve. */
  method DomainsFrom(tags: seq<Tag>, ghost raw: seq<string>, ghost selected: set<string>, ghost scopeKey: string)
    returns (domains: seq<Count>)
    requires |raw| == |tags| && IsDomainChoice(selected, Histogram(raw), scopeKey)
    requires forall i | 0 <= i < |raw| :: tags[i].domain == MappedDomainKey(raw[i], selected, scopeKey)
    ensures IsListing(domains, Histogram(Domains(tags))) && Sorted(domains, ByKey)
    ensures |domains| <= MAX_SCOPE_DOMAINS
  {
    var counts := CountKeys(Domains(tags));
    SameHistogram(counts, Domains(tags));
    domains := SortedByKey(counts);
    ChosenDomainsFew(raw, Domains(tags), selected, scopeKey);
    ListingSize(domains, counts);
    assert counts.Keys == set d | d in Domains(tags);
  }

  method FilesFrom(tags: seq<Tag>, domains: seq<Count>) returns (selectedFiles: set<string>)
    requires IsListing(domains, Histogram(Domains(tags))) && |domains| <= MAX_SCOPE_DOMAINS
    ensures IsFileChoice(selectedFiles, Grouping(Composites(tags), Domains(tags)))
  {
    var groups := CountGroups(Composites(tags), Domains(tags));
    SameGrouping(groups, Composites(tags), Domains(tags));
    GroupsWellKeyed(tags, groups);
    var keys := KeysOfDomains(domains);
    forall c | c in groups ensures groups[c].domainKey in keys {
      var d := groups[c].domainKey;
      assert Count(d, Histogram(Domains(tags))[d]) in domains;
      var i :| 0 <= i < |domains| && domains[i] == Count(d, Histogram(Domains(tags))[d]);
      assert keys[i] == d;
    }
    selectedFiles := SelectFiles(groups, keys);
  }

  /** Everything of the layout but the geometry. */
  method GroupNodes(nodes: seq<Node>, rawScopeKey: string, sqrt: real -> real) returns (g: Groups)
    ensures g.scopeKey == ScopeKey(rawScopeKey) && WellGrouped(g, nodes)
    ensures forall c | c in g.clusters :: c.radius == ClusterRadius(c.count, c.key == OtherFilesKey(c.domainKey), sqrt)
  {
    var scopeKey := ScopeKey(rawScopeKey);
    var raw := RawKeys(nodes, scopeKey);
    var rawCounts := CountKeys(raw);
    SameHistogram(rawCounts, raw);
    var selectedDomains := SelectDomains(rawCounts, scopeKey);
    var tags := TagsOf(nodes, selectedDomains, scopeKey);
    var domains := DomainsFrom(tags, raw, selectedDomains, scopeKey);
    var selectedFiles := FilesFrom(tags, domains);
    var keys := ClusterKeys(tags, selectedFiles);
    var groups := CountGroups(keys, Domains(tags));
    var clusters := ClustersFrom(groups, sqrt);
    AreClustersFrom(clusters, groups, keys, Domains(tags), sqrt);
    g := Groups(scopeKey, selectedDomains, selectedFiles, domains, clusters);
  }

  // ----- finding a node's cluster again

  /** The cluster key under which a node is positioned later, from what the plan remembers. */
  function PositionKey(g: Groups, node: Node): string {
    ClusterKey(TagOf(node, g.selectedDomains, g.scopeKey), g.selectedFiles)
  }

  /** Every input node finds its cluster, and it is the one that counted it. */
  lemma NodeFindsItsCluster(g: Groups, nodes: seq<Node>, i: nat)
    requires WellGrouped(g, nodes) && i < |nodes|
    ensures Keys(g, nodes)[i] == PositionKey(g, nodes[i])
    ensures exists c :: c in g.clusters && c.key == PositionKey(g, nodes[i]) && c.count > 0
  {
    assert Keys(g, nodes)[i] in Keys(g, nodes);
    var c :| c in g.clusters && c.key == Keys(g, nodes)[i];
  }
}
