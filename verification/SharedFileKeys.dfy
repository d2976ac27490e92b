/**
 When nodes of two domains have one file key. The key is listed under the domain of its last node only, so the
 other domain may be left without a cluster; these are the conditions on the nodes under which none is.
 */
module SharedFileKeys {
  import opened Counting
  import opened DomainKeys
  import opened ExactScopeCensus
  import opened ExactScopeGroups
  import opened GraphScope
  import opened Options

  // ----- scopes within the limits

  /** The domain and the file of every node as they are before anything is selected. */
  function RawTags(nodes: seq<Node>, scopeKey: string): (r: seq<Tag>)
    ensures |r| == |nodes|
    ensures forall i | 0 <= i < |nodes| :: r[i] == Tag(RawDomainKey(nodes[i], scopeKey), FileKey(nodes[i]))
  {
    seq(|nodes|, i requires 0 <= i < |nodes| => Tag(RawDomainKey(nodes[i], scopeKey), FileKey(nodes[i])))
  }

  /** No more domains and no more domain and file pairs than are shown. */
  ghost predicate WithinLimits(nodes: seq<Node>, scopeKey: string) {
    && |set k | k in RawKeys(nodes, scopeKey)| <= MAX_SCOPE_DOMAINS
    && |set t | t in RawTags(nodes, scopeKey)| <= MAX_SELECTED_FILES
  }

  /** Then every domain is selected. */
  lemma AllDomainsSelected(raw: seq<string>, selected: set<string>, scopeKey: string)
    requires IsDomainChoice(selected, Histogram(raw), scopeKey) && |set k | k in raw| <= MAX_SCOPE_DOMAINS
    ensures selected == set k | k in raw
  {
    assert Histogram(raw).Keys == set k | k in raw;
  }

  lemma TagsAreRaw(g: Groups, nodes: seq<Node>)
    requires WellGrouped(g, nodes) && WithinLimits(nodes, g.scopeKey)
    ensures Tags(g, nodes) == RawTags(nodes, g.scopeKey)
  {
    var raw := RawKeys(nodes, g.scopeKey);
    AllDomainsSelected(raw, g.selectedDomains, g.scopeKey);
    forall i | 0 <= i < |nodes| ensures Tags(g, nodes)[i] == RawTags(nodes, g.scopeKey)[i] {
      assert raw[i] in raw;
    }
  }

  lemma CompositesFew(tags: seq<Tag>)
    ensures |set k | k in Composites(tags)| <= |set t | t in tags|
  {
    var distinct := set t | t in tags;
    ImageSize(distinct, t => Composite(t));
    var image := Image(distinct, t => Composite(t));
    forall k ensures k in Composites(tags) <==> k in image {
      if k in Composites(tags) {
        var i :| 0 <= i < |tags| && Composites(tags)[i] == k;
        assert tags[i] in distinct;
      }
      if k in image {
        var t :| t in distinct && Composite(t) == k;
        var i :| 0 <= i < |tags| && tags[i] == t;
        assert Composites(tags)[i] == k;
      }
    }
    assert (set k | k in Composites(tags)) == image;
  }

  /** Then every file is selected. */
  lemma AllFilesSelected(tags: seq<Tag>, selected: set<string>)
    requires IsFileChoice(selected, Grouping(Composites(tags), Domains(tags)))
    requires |set t | t in tags| <= MAX_SELECTED_FILES
    ensures forall i | 0 <= i < |tags| :: Composite(tags[i]) in selected
  {
    var groups := Grouping(Composites(tags), Domains(tags));
    CompositesFew(tags);
    assert groups.Keys == set k | k in Composites(tags);
    SubsetEqual(selected, groups.Keys);
    forall i | 0 <= i < |tags| ensures Composite(tags[i]) in selected {
      assert Composites(tags)[i] in Composites(tags);
    }
  }

  /** Within the limits a node counts towards its own domain and its own file. */
  lemma OwnKeys(g: Groups, nodes: seq<Node>, i: nat)
    requires WellGrouped(g, nodes) && WithinLimits(nodes, g.scopeKey) && i < |nodes|
    ensures Keys(g, nodes)[i] == FileKey(nodes[i])
    ensures NodeDomains(g, nodes)[i] == RawDomainKey(nodes[i], g.scopeKey)
  {
    TagsAreRaw(g, nodes);
    AllFilesSelected(RawTags(nodes, g.scopeKey), g.selectedFiles);
  }

  /** No later node has the same file key. */
  ghost predicate LastOfItsFile(nodes: seq<Node>, i: nat) {
    i < |nodes| && forall j | i < j < |nodes| :: FileKey(nodes[j]) != FileKey(nodes[i])
  }

  lemma LastAmongKeys(g: Groups, nodes: seq<Node>, i: nat)
    requires WellGrouped(g, nodes) && WithinLimits(nodes, g.scopeKey) && i < |nodes|
    ensures IsLast(Keys(g, nodes), Keys(g, nodes)[i], i) <==> LastOfItsFile(nodes, i)
  {
    forall j | 0 <= j < |nodes| ensures Keys(g, nodes)[j] == FileKey(nodes[j]) {
      OwnKeys(g, nodes, j);
    }
  }

  /** Some node of the domain is the last of all nodes with its file key. */
  ghost predicate KeepsAFile(nodes: seq<Node>, scopeKey: string, domain: string) {
    exists i :: 0 <= i < |nodes| && RawDomainKey(nodes[i], scopeKey) == domain && LastOfItsFile(nodes, i)
  }

  /**
   Within the limits a domain owns a cluster exactly when one of its nodes is the last of all nodes with its
   file key.
   */
  lemma DomainKeepsAFile(g: Groups, nodes: seq<Node>, domain: string)
    requires WellGrouped(g, nodes) && WithinLimits(nodes, g.scopeKey)
    ensures ClustersOf(g.clusters, domain) != [] <==> KeepsAFile(nodes, g.scopeKey, domain)
  {
    var keys, ds := Keys(g, nodes), NodeDomains(g, nodes);
    DomainOwnsCluster(g.clusters, keys, ds, domain);
    forall i | 0 <= i < |nodes|
      ensures ds[i] == RawDomainKey(nodes[i], g.scopeKey)
      ensures IsLast(keys, keys[i], i) <==> LastOfItsFile(nodes, i)
    {
      OwnKeys(g, nodes, i);
      LastAmongKeys(g, nodes, i);
    }
  }

  /** Within the limits the domains are those of the nodes. */
  lemma NodeHasDomain(g: Groups, nodes: seq<Node>, i: nat) returns (d: Count)
    requires WellGrouped(g, nodes) && WithinLimits(nodes, g.scopeKey) && i < |nodes|
    ensures d in g.domains && d.key == RawDomainKey(nodes[i], g.scopeKey)
  {
    var ds := NodeDomains(g, nodes);
    OwnKeys(g, nodes, i);
    assert ds[i] in ds;
    d := Count(ds[i], Histogram(ds)[ds[i]]);
  }

  lemma DomainHasNode(g: Groups, nodes: seq<Node>, d: Count) returns (i: nat)
    requires WellGrouped(g, nodes) && WithinLimits(nodes, g.scopeKey) && d in g.domains
    ensures i < |nodes| && RawDomainKey(nodes[i], g.scopeKey) == d.key
  {
    var ds := NodeDomains(g, nodes);
    assert d.key in ds;
    i :| 0 <= i < |ds| && ds[i] == d.key;
    OwnKeys(g, nodes, i);
  }

  /** So every domain owns a cluster, and the scope has a layout, exactly when that holds of every node's domain. */
  lemma EveryDomainKeepsAFile(g: Groups, nodes: seq<Node>)
    requires WellGrouped(g, nodes) && WithinLimits(nodes, g.scopeKey)
    ensures EveryDomainOwns(g)
       <==> forall i | 0 <= i < |nodes| :: KeepsAFile(nodes, g.scopeKey, RawDomainKey(nodes[i], g.scopeKey))
  {
    if EveryDomainOwns(g) {
      forall i | 0 <= i < |nodes| ensures KeepsAFile(nodes, g.scopeKey, RawDomainKey(nodes[i], g.scopeKey)) {
        var d := NodeHasDomain(g, nodes, i);
        DomainKeepsAFile(g, nodes, d.key);
      }
    }
    if forall i | 0 <= i < |nodes| :: KeepsAFile(nodes, g.scopeKey, RawDomainKey(nodes[i], g.scopeKey)) {
      forall d | d in g.domains ensures ClustersOf(g.clusters, d.key) != [] {
        var i := DomainHasNode(g, nodes, d);
        DomainKeepsAFile(g, nodes, d.key);
      }
    }
  }

  // ----- scopes of any size

  /**
   Nodes with one file key lie in one directory, and no file is called like the aggregate of a domain there can
   be.
   */
  ghost predicate PathsAgree(nodes: seq<Node>, scopeKey: string) {
    && (forall a, b | a in nodes && b in nodes && FileKey(a) == FileKey(b) :: Directory(a) == Directory(b))
    && (forall a, b | a in nodes && b in nodes :: FileKey(a) != OtherFilesKey(RawDomainKey(b, scopeKey)))
    && (forall a | a in nodes :: FileKey(a) != OtherFilesKey(OtherDomainKey(scopeKey)))
  }

  lemma SameOtherFiles(a: string, b: string)
    requires OtherFilesKey(a) == OtherFilesKey(b)
    ensures a == b
  {
    var suffix := "/(other files)";
    assert (a + suffix)[..|a + suffix| - |suffix|] == a;
    assert (b + suffix)[..|b + suffix| - |suffix|] == b;
  }

  lemma NotAnAggregate(nodes: seq<Node>, selected: set<string>, scopeKey: string, a: Node, b: Node)
    requires PathsAgree(nodes, scopeKey) && a in nodes && b in nodes
    ensures FileKey(a) != OtherFilesKey(TagOf(b, selected, scopeKey).domain)
  {
  }

  lemma SameClusterKey(s: Tag, t: Tag, files: set<string>)
    requires ClusterKey(s, files) == ClusterKey(t, files)
    requires s.file != OtherFilesKey(t.domain) && t.file != OtherFilesKey(s.domain)
    ensures s.file == t.file || s.domain == t.domain
  {
    if Composite(s) !in files && Composite(t) !in files {
      SameOtherFiles(s.domain, t.domain);
    }
  }

  lemma SameDirectory(a: Node, b: Node, scopeKey: string)
    requires Directory(a) == Directory(b)
    ensures RawDomainKey(a, scopeKey) == RawDomainKey(b, scopeKey)
  {
  }

  lemma AgreeingNodes(nodes: seq<Node>, selected: set<string>, files: set<string>, scopeKey: string, a: Node, b: Node)
    requires PathsAgree(nodes, scopeKey) && a in nodes && b in nodes
    requires ClusterKey(TagOf(a, selected, scopeKey), files) == ClusterKey(TagOf(b, selected, scopeKey), files)
    ensures TagOf(a, selected, scopeKey).domain == TagOf(b, selected, scopeKey).domain
  {
    var s, t := TagOf(a, selected, scopeKey), TagOf(b, selected, scopeKey);
    NotAnAggregate(nodes, selected, scopeKey, a, b);
    NotAnAggregate(nodes, selected, scopeKey, b, a);
    SameClusterKey(s, t, files);
    if s.file == t.file {
      SameDirectory(a, b, scopeKey);
    }
  }

  /** Agreeing paths give no cluster key to two domains, whatever is selected. */
  lemma AgreeingPathsShareNothing(g: Groups, nodes: seq<Node>)
    requires PathsAgree(nodes, g.scopeKey)
    ensures OneDomainPerKey(Keys(g, nodes), NodeDomains(g, nodes))
  {
    var keys, ds := Keys(g, nodes), NodeDomains(g, nodes);
    forall i, j | 0 <= i < |keys| && 0 <= j < |keys| && keys[i] == keys[j] ensures ds[i] == ds[j] {
      assert nodes[i] in nodes && nodes[j] in nodes;
      AgreeingNodes(nodes, g.selectedDomains, g.selectedFiles, g.scopeKey, nodes[i], nodes[j]);
    }
  }

  /** So with agreeing paths every domain owns a cluster. */
  lemma AgreeingPathsOwn(g: Groups, nodes: seq<Node>)
    requires WellGrouped(g, nodes) && PathsAgree(nodes, g.scopeKey)
    ensures EveryDomainOwns(g)
  {
    AgreeingPathsShareNothing(g, nodes);
    forall d | d in g.domains ensures ClustersOf(g.clusters, d.key) != [] {
      DomainIsSumOfClusters(g, nodes, d);
    }
  }

  // ----- two nodes

  lemma AtMostTwo<T>(s: seq<T>)
    requires |s| == 2
    ensures |set x | x in s| <= 2
  {
    assert (set x | x in s) == {s[0], s[1]};
    assert |{s[0], s[1]}| <= 2;
  }

  lemma TwoWithinLimits(nodes: seq<Node>, scopeKey: string)
    requires |nodes| == 2
    ensures WithinLimits(nodes, scopeKey)
  {
    var raw, tags := RawKeys(nodes, scopeKey), RawTags(nodes, scopeKey);
    AtMostTwo(raw);
    AtMostTwo(tags);
  }

  lemma FirstKeepsNone(nodes: seq<Node>, scopeKey: string, a: string, b: string)
    requires RawKeys(nodes, scopeKey) == [a, b] && a != b && FileKey(nodes[0]) == FileKey(nodes[1])
    ensures !KeepsAFile(nodes, scopeKey, a)
  {
    var raw := RawKeys(nodes, scopeKey);
    assert raw[0] == a && raw[1] == b;
    assert !LastOfItsFile(nodes, 0);
  }

  lemma CountedOnce(domains: seq<Count>, ds: seq<string>, a: string, b: string)
    requires IsListing(domains, Histogram(ds)) && |ds| == 2 && ds[0] == a && ds[1] == b && a != b
    ensures Count(a, 1) in domains
  {
    assert ds == [a, b];
    assert multiset(ds) == multiset{a, b};
    assert a in ds;
    assert Count(a, Histogram(ds)[a]) in domains;
  }

  lemma FirstCounted(g: Groups, nodes: seq<Node>, a: string, b: string)
    requires WellGrouped(g, nodes) && WithinLimits(nodes, g.scopeKey)
    requires RawKeys(nodes, g.scopeKey) == [a, b] && a != b
    ensures Count(a, 1) in g.domains
  {
    var raw, ds := RawKeys(nodes, g.scopeKey), NodeDomains(g, nodes);
    OwnKeys(g, nodes, 0);
    OwnKeys(g, nodes, 1);
    assert raw[0] == a && raw[1] == b;
    CountedOnce(g.domains, ds, a, b);
  }

  /** Two nodes under one file key in two domains: the first node's domain is left without a single cluster. */
  lemma FirstOfTwoLosesOut(g: Groups, nodes: seq<Node>, a: string, b: string)
    requires WellGrouped(g, nodes) && RawKeys(nodes, g.scopeKey) == [a, b] && a != b
    requires FileKey(nodes[0]) == FileKey(nodes[1])
    ensures Count(a, 1) in g.domains && ClustersOf(g.clusters, a) == []
  {
    TwoWithinLimits(nodes, g.scopeKey);
    FirstKeepsNone(nodes, g.scopeKey, a, b);
    DomainKeepsAFile(g, nodes, a);
    FirstCounted(g, nodes, a, b);
  }

  function SharedPath(): seq<Node> { [Node(1, "Directory", Some("src")), Node(2, "File", Some("src"))] }

  lemma SharedPathKeys()
    ensures FileKey(SharedPath()[0]) == FileKey(SharedPath()[1])
    ensures RawKeys(SharedPath(), ROOT_KEY) == ["src", ROOT_KEY]
  {
    NormalStays("src");
    assert Join(["src"]) == "src";
    SegmentsOfJoin(["src"]);
    DomainKeyOfRoot(SharedPath()[0]);
    DomainKeyOfRoot(SharedPath()[1]);
    assert ["src"][..0] == [];
  }

  /** A folder and a file at one path are such nodes. */
  lemma SharedKeyEmptiesDomain(g: Groups, nodes: seq<Node>)
    requires nodes == SharedPath() && g.scopeKey == ROOT_KEY && WellGrouped(g, nodes)
    ensures Count("src", 1) in g.domains && ClustersOf(g.clusters, "src") == []
  {
    SharedPathKeys();
    assert |"src"| != |ROOT_KEY|;
    FirstOfTwoLosesOut(g, nodes, "src", ROOT_KEY);
  }
}
