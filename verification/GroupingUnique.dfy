/**
 The grouping of a scope is determined by the nodes: the promises of `WellGrouped` leave no choice, and the
 order in which the nodes arrive decides nothing but the domain of a key that several domains share.
 */
module GroupingUnique {
  import opened Counting
  import opened DomainKeys
  import opened ExactScopeCensus
  import opened ExactScopeGroups
  import opened Options
  import opened Sorting

  // ----- one choice

  lemma InOneOnly<T>(a: set<T>, b: set<T>) returns (x: T)
    requires |a| == |b| && a != b
    ensures x in a && x !in b
  {
    if a <= b {
      SubsetEqual(a, b);
      assert false;
    }
    x :| x in a && x !in b;
  }

  /** Two different sets of one size each have an element the other has not. */
  lemma Exchange<T>(a: set<T>, b: set<T>) returns (x: T, y: T)
    requires |a| == |b| && a != b
    ensures x in a && x !in b && y in b && y !in a
  {
    x := InOneOnly(a, b);
    y := InOneOnly(b, a);
  }

  lemma DomainChoiceUnique(a: set<string>, b: set<string>, counts: map<string, nat>, scopeKey: string)
    requires IsDomainChoice(a, counts, scopeKey) && IsDomainChoice(b, counts, scopeKey)
    ensures a == b
  {
    if a != b {
      var k, u := Exchange(a, b);
      MutualFirst(Count(k, counts[k]), Count(u, counts[u]));
      assert false;
    }
  }

  lemma FileChoiceUnique(a: set<string>, b: set<string>, groups: map<string, Group>)
    requires IsFileChoice(a, groups) && IsFileChoice(b, groups)
    ensures a == b
  {
    if a != b {
      var c, u := Exchange(a, b);
      assert !Reserved(groups, c) && !Reserved(groups, u);
      MutualFirst(AsCount(groups, c), AsCount(groups, u));
      assert false;
    }
  }

  // ----- one list

  lemma SameDistinct<T>(s: seq<T>, t: seq<T>)
    requires Distinct(s) && Distinct(t) && forall x :: x in s <==> x in t
    ensures multiset(s) == multiset(t)
  {
    forall x ensures multiset(s)[x] == multiset(t)[x] {
      DistinctOnce(s, x);
      DistinctOnce(t, x);
    }
  }

  lemma ListingUnique(s: seq<Count>, t: seq<Count>, counts: map<string, nat>)
    requires IsListing(s, counts) && IsListing(t, counts) && Sorted(s, ByKey) && Sorted(t, ByKey)
    ensures s == t
  {
    assert Distinct(s) && Distinct(t);
    forall c ensures c in s <==> c in t {
      assert c in s ==> c == Count(c.key, counts[c.key]);
      assert c in t ==> c == Count(c.key, counts[c.key]);
    }
    SameDistinct(s, t);
    forall x, y | x in s && y in s && ByKey(x, y) && ByKey(y, x) ensures x == y {
      StringTrichotomy(x.key, y.key);
    }
    SortedUnique(s, t, ByKey);
  }

  /** The clusters agree in all that does not come from the square root. */
  ghost predicate SameClusters(a: seq<Cluster>, b: seq<Cluster>) {
    |a| == |b| && forall i | 0 <= i < |a| ::
      a[i].key == b[i].key && a[i].domainKey == b[i].domainKey && a[i].count == b[i].count
  }

  lemma KeysListed(clusters: seq<Cluster>, keys: seq<string>, ds: seq<string>)
    requires |keys| == |ds| && AreClusters(clusters, keys, ds)
    ensures var ks := KeysOfClusters(clusters);
            Distinct(ks) && Sorted(ks, StringLeq) && forall k :: k in ks <==> k in keys
  {
    var ks := KeysOfClusters(clusters);
    forall k ensures k in ks <==> k in keys {
      if k in ks {
        var i :| 0 <= i < |ks| && ks[i] == k;
        assert clusters[i] in clusters;
      }
      if k in keys {
        var c :| c in clusters && c.key == k;
        var i :| 0 <= i < |clusters| && clusters[i] == c;
        assert ks[i] == k;
      }
    }
  }

  lemma SameKeyOrder(a: seq<string>, b: seq<string>)
    requires Distinct(a) && Distinct(b) && Sorted(a, StringLeq) && Sorted(b, StringLeq)
    requires forall k :: k in a <==> k in b
    ensures a == b
  {
    SameDistinct(a, b);
    StringLeqOrder();
    SortedUnique(a, b, StringLeq);
  }

  lemma ClustersUnique(a: seq<Cluster>, b: seq<Cluster>, keys: seq<string>, ds: seq<string>)
    requires |keys| == |ds| && AreClusters(a, keys, ds) && AreClusters(b, keys, ds)
    ensures SameClusters(a, b)
  {
    KeysListed(a, keys, ds);
    KeysListed(b, keys, ds);
    SameKeyOrder(KeysOfClusters(a), KeysOfClusters(b));
    forall i | 0 <= i < |a|
      ensures a[i].key == b[i].key && a[i].domainKey == b[i].domainKey && a[i].count == b[i].count
    {
      assert KeysOfClusters(a)[i] == KeysOfClusters(b)[i];
      assert a[i] in a && b[i] in b;
    }
  }

  // ----- one grouping

  /** The same selections, domains and clusters. */
  ghost predicate SameGroups(g: Groups, h: Groups) {
    && g.scopeKey == h.scopeKey
    && g.selectedDomains == h.selectedDomains && g.selectedFiles == h.selectedFiles
    && g.domains == h.domains && SameClusters(g.clusters, h.clusters)
  }

  /** The nodes and the scope determine the grouping. */
  lemma GroupingDetermined(g: Groups, h: Groups, nodes: seq<Node>)
    requires WellGrouped(g, nodes) && WellGrouped(h, nodes) && g.scopeKey == h.scopeKey
    ensures SameGroups(g, h)
  {
    DomainChoiceUnique(g.selectedDomains, h.selectedDomains, Histogram(RawKeys(nodes, g.scopeKey)), g.scopeKey);
    var tags := Tags(g, nodes);
    FileChoiceUnique(g.selectedFiles, h.selectedFiles, Grouping(Composites(tags), Domains(tags)));
    ListingUnique(g.domains, h.domains, Histogram(Domains(tags)));
    ClustersUnique(g.clusters, h.clusters, Keys(g, nodes), NodeDomains(g, nodes));
  }

  // ----- the order of the nodes

  lemma SameOccurrences<T>(a: seq<T>, b: seq<T>, x: T)
    requires multiset(a) == multiset(b)
    ensures Occurrences(a, x) == Occurrences(b, x) && (x in a <==> x in b)
  {
    SameElements(a, b);
  }

  lemma HistogramOfAny(a: seq<string>, b: seq<string>)
    requires multiset(a) == multiset(b)
    ensures Histogram(a) == Histogram(b)
  {
    forall k ensures k in Histogram(a) <==> k in Histogram(b) {
      SameOccurrences(a, b, k);
    }
    assert Histogram(a).Keys == Histogram(b).Keys;
  }

  /** With one domain to a key, whichever node comes last tells the same domain. */
  lemma GroupingOfAny(a: seq<string>, da: seq<string>, b: seq<string>, db: seq<string>)
    requires |a| == |da| && |b| == |db| && multiset(a) == multiset(b) && OneDomainPerKey(a, da)
    requires forall j | 0 <= j < |b| :: HasNode(a, da, b[j], db[j])
    ensures Grouping(a, da) == Grouping(b, db)
  {
    forall k ensures k in Grouping(a, da) <==> k in Grouping(b, db) {
      SameOccurrences(a, b, k);
    }
    forall k | k in Grouping(a, da) ensures Grouping(a, da)[k] == Grouping(b, db)[k] {
      SameOccurrences(a, b, k);
      LastDomainOccurs(a, da, k);
      LastDomainOccurs(b, db, k);
    }
    assert Grouping(a, da).Keys == Grouping(b, db).Keys;
  }

  lemma RawKeysOfAny(nodes: seq<Node>, other: seq<Node>, scopeKey: string)
    requires multiset(nodes) == multiset(other)
    ensures multiset(RawKeys(nodes, scopeKey)) == multiset(RawKeys(other, scopeKey))
  {
    MapPermuted(nodes, other, RawKeys(nodes, scopeKey), RawKeys(other, scopeKey),
                (n: Node) => RawDomainKey(n, scopeKey));
  }

  lemma TagsOfAny(nodes: seq<Node>, other: seq<Node>, selected: set<string>, scopeKey: string)
    requires multiset(nodes) == multiset(other)
    ensures multiset(TagsOf(nodes, selected, scopeKey)) == multiset(TagsOf(other, selected, scopeKey))
  {
    MapPermuted(nodes, other, TagsOf(nodes, selected, scopeKey), TagsOf(other, selected, scopeKey),
                (n: Node) => TagOf(n, selected, scopeKey));
  }

  lemma DomainsOfAny(tags: seq<Tag>, other: seq<Tag>)
    requires multiset(tags) == multiset(other)
    ensures multiset(Domains(tags)) == multiset(Domains(other))
    ensures multiset(Composites(tags)) == multiset(Composites(other))
  {
    MapPermuted(tags, other, Domains(tags), Domains(other), (t: Tag) => t.domain);
    MapPermuted(tags, other, Composites(tags), Composites(other), (t: Tag) => Composite(t));
  }

  lemma ClusterKeysOfAny(tags: seq<Tag>, other: seq<Tag>, selectedFiles: set<string>)
    requires multiset(tags) == multiset(other)
    ensures multiset(ClusterKeys(tags, selectedFiles)) == multiset(ClusterKeys(other, selectedFiles))
  {
    MapPermuted(tags, other, ClusterKeys(tags, selectedFiles), ClusterKeys(other, selectedFiles),
                (t: Tag) => ClusterKey(t, selectedFiles));
  }

  /** The domains do not depend on the order of the nodes. */
  lemma DomainsUnordered(g: Groups, h: Groups, nodes: seq<Node>, other: seq<Node>)
    requires WellGrouped(g, nodes) && WellGrouped(h, other) && g.scopeKey == h.scopeKey
    requires multiset(nodes) == multiset(other)
    ensures g.selectedDomains == h.selectedDomains && g.domains == h.domains
    ensures multiset(Tags(g, nodes)) == multiset(Tags(h, other))
  {
    RawKeysOfAny(nodes, other, g.scopeKey);
    HistogramOfAny(RawKeys(nodes, g.scopeKey), RawKeys(other, g.scopeKey));
    DomainChoiceUnique(g.selectedDomains, h.selectedDomains, Histogram(RawKeys(nodes, g.scopeKey)), g.scopeKey);
    TagsOfAny(nodes, other, g.selectedDomains, g.scopeKey);
    DomainsOfAny(Tags(g, nodes), Tags(h, other));
    HistogramOfAny(Domains(Tags(g, nodes)), Domains(Tags(h, other)));
    ListingUnique(g.domains, h.domains, Histogram(Domains(Tags(g, nodes))));
  }

  /** Without a separator in it the domain of a composite key can be read off. */
  lemma CompositeTellsDomain(tags: seq<Tag>)
    requires forall t | t in tags :: '\0' !in t.domain
    ensures OneDomainPerKey(Composites(tags), Domains(tags))
  {
    forall i, j | 0 <= i < |tags| && 0 <= j < |tags| && Composite(tags[i]) == Composite(tags[j])
      ensures tags[i].domain == tags[j].domain
    {
      assert tags[i] in tags && tags[j] in tags;
      CompositeParts(tags[i]);
      CompositeParts(tags[j]);
      var s := Composite(tags[i]);
      assert |tags[i].domain| == |s| - |tags[i].file| - 1 == |tags[j].domain|;
      assert tags[i].domain == s[..|tags[i].domain|] == tags[j].domain;
    }
  }

  /** What every pair of a rearranged list has, a pair of the list has. */
  lemma PairsOfAny(tags: seq<Tag>, other: seq<Tag>, keys: seq<string>, otherKeys: seq<string>, key: Tag -> string)
    requires multiset(tags) == multiset(other)
    requires |keys| == |tags| && forall i | 0 <= i < |tags| :: keys[i] == key(tags[i])
    requires |otherKeys| == |other| && forall i | 0 <= i < |other| :: otherKeys[i] == key(other[i])
    ensures forall j | 0 <= j < |other| :: HasNode(keys, Domains(tags), otherKeys[j], Domains(other)[j])
  {
    SameElements(tags, other);
    forall j | 0 <= j < |other| ensures HasNode(keys, Domains(tags), otherKeys[j], Domains(other)[j]) {
      assert other[j] in other;
      var i :| 0 <= i < |tags| && tags[i] == other[j];
      assert keys[i] == otherKeys[j] && Domains(tags)[i] == Domains(other)[j];
    }
  }

  /** Nor do the files, for paths without the separator. */
  lemma FilesUnordered(g: Groups, h: Groups, nodes: seq<Node>, other: seq<Node>)
    requires WellGrouped(g, nodes) && WellGrouped(h, other) && g.scopeKey == h.scopeKey
    requires multiset(nodes) == multiset(other) && SeparatorFree(g, nodes)
    ensures g.selectedFiles == h.selectedFiles
    ensures multiset(Keys(g, nodes)) == multiset(Keys(h, other))
  {
    var tags, others := Tags(g, nodes), Tags(h, other);
    DomainsUnordered(g, h, nodes, other);
    DomainsOfAny(tags, others);
    forall t | t in tags ensures '\0' !in t.domain {
      var i :| 0 <= i < |tags| && tags[i] == t;
      assert Domains(tags)[i] in Domains(tags);
    }
    CompositeTellsDomain(tags);
    PairsOfAny(tags, others, Composites(tags), Composites(others), (t: Tag) => Composite(t));
    GroupingOfAny(Composites(tags), Domains(tags), Composites(others), Domains(others));
    FileChoiceUnique(g.selectedFiles, h.selectedFiles, Grouping(Composites(tags), Domains(tags)));
    ClusterKeysOfAny(tags, others, g.selectedFiles);
  }

  lemma ClustersFromGrouping(clusters: seq<Cluster>, a: seq<string>, da: seq<string>, b: seq<string>, db: seq<string>)
    requires |a| == |da| && |b| == |db| && Grouping(a, da) == Grouping(b, db) && AreClusters(clusters, b, db)
    ensures AreClusters(clusters, a, da)
  {
    forall k ensures k in a <==> k in b {
      assert k in a <==> k in Grouping(a, da);
      assert k in b <==> k in Grouping(b, db);
    }
    forall c | c in clusters ensures c.count == Occurrences(a, c.key) && c.domainKey == LastDomain(a, da, c.key) {
      assert Grouping(a, da)[c.key] == Grouping(b, db)[c.key];
    }
  }

  /** Nodes that arrive in another order are grouped the same, unless two domains share a cluster key. */
  lemma OrderDecidesNothing(g: Groups, h: Groups, nodes: seq<Node>, other: seq<Node>)
    requires WellGrouped(g, nodes) && WellGrouped(h, other) && g.scopeKey == h.scopeKey
    requires multiset(nodes) == multiset(other) && SeparatorFree(g, nodes)
    requires OneDomainPerKey(Keys(g, nodes), NodeDomains(g, nodes))
    ensures SameGroups(g, h)
  {
    var tags, others := Tags(g, nodes), Tags(h, other);
    DomainsUnordered(g, h, nodes, other);
    FilesUnordered(g, h, nodes, other);
    PairsOfAny(tags, others, Keys(g, nodes), Keys(h, other), (t: Tag) => ClusterKey(t, g.selectedFiles));
    GroupingOfAny(Keys(g, nodes), NodeDomains(g, nodes), Keys(h, other), NodeDomains(h, other));
    ClustersFromGrouping(h.clusters, Keys(g, nodes), NodeDomains(g, nodes), Keys(h, other), NodeDomains(h, other));
    ClustersUnique(g.clusters, h.clusters, Keys(g, nodes), NodeDomains(g, nodes));
  }

  /** The nodes with node `i` brought to the end. */
  function MovedLast(nodes: seq<Node>, i: nat): (r: seq<Node>)
    requires i < |nodes|
    ensures |r| == |nodes| && r[|r| - 1] == nodes[i] && multiset(r) == multiset(nodes)
  {
    assert nodes == nodes[..i] + [nodes[i]] + nodes[i + 1..];
    nodes[..i] + nodes[i + 1..] + [nodes[i]]
  }

  /** The last node decides the domain of its cluster. */
  lemma LastNodeDecides(clusters: seq<Cluster>, keys: seq<string>, ds: seq<string>) returns (c: Cluster)
    requires |keys| == |ds| > 0 && AreClusters(clusters, keys, ds)
    ensures c in clusters && c.key == keys[|keys| - 1] && c.domainKey == ds[|ds| - 1]
  {
    assert keys[|keys| - 1] in keys;
    c :| c in clusters && c.key == keys[|keys| - 1];
  }

  /** The cluster of the node that was brought to the end. */
  lemma MovedLastDecides(g: Groups, h: Groups, nodes: seq<Node>, i: nat) returns (c: Cluster)
    requires WellGrouped(g, nodes) && SeparatorFree(g, nodes) && i < |nodes|
    requires WellGrouped(h, MovedLast(nodes, i)) && h.scopeKey == g.scopeKey
    ensures c in h.clusters && c.key == Keys(g, nodes)[i] && c.domainKey == NodeDomains(g, nodes)[i]
  {
    var moved := MovedLast(nodes, i);
    DomainsUnordered(g, h, nodes, moved);
    FilesUnordered(g, h, nodes, moved);
    c := LastNodeDecides(h.clusters, Keys(h, moved), NodeDomains(h, moved));
  }

  lemma ApartAtKey(a: seq<Cluster>, b: seq<Cluster>, c: Cluster, d: Cluster)
    requires forall i, j | 0 <= i < j < |b| :: b[i].key != b[j].key
    requires c in a && d in b && c.key == d.key && c.domainKey != d.domainKey
    ensures !SameClusters(a, b)
  {
    var i :| 0 <= i < |a| && a[i] == c;
    var j :| 0 <= j < |b| && b[j] == d;
    if |a| == |b| && b[i].key == c.key {
      assert i == j;
    }
  }

  /** A key that two domains share is listed under the domain whose node happens to come last. */
  lemma OrderDecidesSharedKeys(g: Groups, nodes: seq<Node>, i: nat, j: nat, h: Groups, k: Groups)
    requires WellGrouped(g, nodes) && SeparatorFree(g, nodes) && i < |nodes| && j < |nodes|
    requires Keys(g, nodes)[i] == Keys(g, nodes)[j] && NodeDomains(g, nodes)[i] != NodeDomains(g, nodes)[j]
    requires WellGrouped(h, MovedLast(nodes, i)) && WellGrouped(k, MovedLast(nodes, j))
    requires h.scopeKey == g.scopeKey && k.scopeKey == g.scopeKey
    ensures !SameClusters(h.clusters, k.clusters)
  {
    var c := MovedLastDecides(g, h, nodes, i);
    var d := MovedLastDecides(g, k, nodes, j);
    ApartAtKey(h.clusters, k.clusters, c, d);
  }
}
