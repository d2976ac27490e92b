/** The directory tree of the sidebar, and the compression of chains of directories with a single child. */
module SidebarTree {
  import opened GraphScope
  import opened Options
  import opened Sorting
  import opened StellarKeys

  datatype Entry = Entry(key: string, dir: Dir)

  /** A directory with its children in insertion order. */
  datatype Dir = Dir(name: string, fullPath: string, children: seq<Entry>, nodeIds: set<int>,
                     directNodes: seq<GraphNode>)

  // ----- where nodes belong

  /** The directory a node is filed under; nothing for a node without a path. */
  function DirectorySegments(node: GraphNode): Option<seq<string>> {
    if node.filePath == None || node.filePath.value == "" then None
    else
      var parts := Segments(ForwardSlashes(node.filePath.value));
      Some(if IsDirectoryLabel(node.kind) then parts else if parts == [] then [] else parts[..|parts| - 1])
  }

  predicate Sits(node: GraphNode, path: seq<string>) { DirectorySegments(node) == Some(path) }

  /** The node's directory is `path` or lies under it. */
  predicate FiledUnder(node: GraphNode, path: seq<string>) {
    var d := DirectorySegments(node);
    d.Some? && path <= d.value
  }

  function NodesAt(nodes: seq<GraphNode>, path: seq<string>): (r: seq<GraphNode>)
    ensures forall n :: n in r <==> n in nodes && Sits(n, path)
  {
    if nodes == [] then []
    else
      var before, last := nodes[..|nodes| - 1], nodes[|nodes| - 1];
      assert nodes == before + [last];
      NodesAt(before, path) + if Sits(last, path) then [last] else []
  }

  ghost function IdsUnder(nodes: seq<GraphNode>, path: seq<string>): set<int> {
    set n | n in nodes && FiledUnder(n, path) :: n.id
  }

  ghost predicate SomeUnder(nodes: seq<GraphNode>, path: seq<string>) { exists n :: n in nodes && FiledUnder(n, path) }

  ghost predicate DistinctKeys(children: seq<Entry>) {
    forall i, j | 0 <= i < j < |children| :: children[i].key != children[j].key
  }

  /** The directories of the nodes from `path` down: every directory on the way to a node, and no other. */
  ghost predicate IsTree(d: Dir, nodes: seq<GraphNode>, path: seq<string>) {
    && d.name == (if path == [] then "/" else path[|path| - 1])
    && d.fullPath == Join(path)
    && d.directNodes == NodesAt(nodes, path)
    && d.nodeIds == IdsUnder(nodes, path)
    && DistinctKeys(d.children)
    && (forall e | e in d.children :: SomeUnder(nodes, path + [e.key]) && IsTree(e.dir, nodes, path + [e.key]))
    && (forall k | SomeUnder(nodes, path + [k]) :: exists e :: e in d.children && e.key == k)
  }

  // ----- compression

  predicate Collapsible(d: Dir) { |d.children| == 1 && d.directNodes == [] }

  /** How many levels lie below. */
  function Height(children: seq<Entry>): (h: nat)
    ensures forall e | e in children :: Height(e.dir.children) < h
  {
    if children == [] then 0
    else
      var h, rest := 1 + Height(children[0].dir.children), Height(children[1..]);
      assert children == [children[0]] + children[1..];
      if h >= rest then h else rest
  }

  /** The inner loop: as long as there is one child and nothing else, the child takes the place. */
  function Collapsed(flat: Dir): Dir
    decreases Height(flat.children)
  {
    if Collapsible(flat) then
      var e := flat.children[0];
      assert e in flat.children;
      Collapsed(e.dir.(name := flat.name + "/" + e.key))
    else flat
  }

  /** The children of a directory after compression; those of the root are never collapsed themselves. */
  function FlattenedForest(top: bool, children: seq<Entry>): (r: seq<Entry>)
    ensures |r| == |children|
    ensures forall i | 0 <= i < |r| :: r[i].key == children[i].key
    decreases children
  {
    if children == [] then []
    else
      var e := children[0];
      var flat := e.dir.(children := FlattenedForest(e.dir.fullPath == "", e.dir.children));
      [Entry(e.key, if top then flat else Collapsed(flat))] + FlattenedForest(top, children[1..])
  }

  function Flattened(dir: Dir): Dir { dir.(children := FlattenedForest(dir.fullPath == "", dir.children)) }

  lemma {:induction false} FlattenedAt(top: bool, children: seq<Entry>, i: nat)
    requires i < |children|
    ensures FlattenedForest(top, children)[i].dir
         == if top then Flattened(children[i].dir) else Collapsed(Flattened(children[i].dir))
  {
    if i > 0 {
      FlattenedAt(top, children[1..], i - 1);
    }
  }

  /** The inner loop, for a child of a directory that is not the root. */
  method CollapseChain(start: Dir) returns (flat: Dir)
    ensures flat == Collapsed(start)
  {
    flat := start;
    while |flat.children| == 1 && |flat.directNodes| == 0
      invariant Collapsed(flat) == Collapsed(start)
      decreases Height(flat.children)
    {
      var only := flat.children[0];
      assert only in flat.children;
      flat := only.dir.(name := flat.name + "/" + only.key);
    }
  }

  lemma LowerHeight(children: seq<Entry>, i: nat)
    requires i < |children|
    ensures Height(children[i].dir.children) < Height(children)
  {
    assert children[i] in children;
  }

  lemma EntryAt(top: bool, children: seq<Entry>, i: nat, flat: Dir)
    requires i < |children|
    requires flat == if top then Flattened(children[i].dir) else Collapsed(Flattened(children[i].dir))
    ensures FlattenedForest(top, children)[i] == Entry(children[i].key, flat)
  {
    FlattenedAt(top, children, i);
  }

  /** The compression of one directory and everything below it. */
  method FlattenSingleChild(dir: Dir) returns (r: Dir)
    ensures r == Flattened(dir)
    decreases Height(dir.children)
  {
    var top, children := dir.fullPath == "", [];
    ghost var want := FlattenedForest(top, dir.children);
    for i := 0 to |dir.children|
      invariant children == want[..i]
    {
      var e := dir.children[i];
      LowerHeight(dir.children, i);
      var flat := FlattenSingleChild(e.dir);
      if !top {
        flat := CollapseChain(flat);
      }
      EntryAt(top, dir.children, i, flat);
      PrefixGrows(want, i);
      children := children + [Entry(e.key, flat)];
    }
    r := dir.(children := children);
  }

  // ----- what compression keeps

  /** What a directory shows besides its label: where it is and which nodes are in it. */
  datatype Info = Info(fullPath: string, nodeIds: set<int>, directNodes: seq<GraphNode>)

  function InfoOf(d: Dir): Info { Info(d.fullPath, d.nodeIds, d.directNodes) }

  /** All directories of a forest. */
  function Infos(children: seq<Entry>): multiset<Info> {
    if children == [] then multiset{}
    else multiset{InfoOf(children[0].dir)} + Infos(children[0].dir.children) + Infos(children[1..])
  }

  /** The directories of a forest that are not mere links of a chain. */
  function Survivors(children: seq<Entry>): multiset<Info> {
    if children == [] then multiset{}
    else
      (if Collapsible(children[0].dir) then multiset{} else multiset{InfoOf(children[0].dir)})
      + Survivors(children[0].dir.children) + Survivors(children[1..])
  }

  /** All top-level directories, and below them those that are not links of a chain. */
  function TopSurvivors(children: seq<Entry>): multiset<Info> {
    if children == [] then multiset{}
    else multiset{InfoOf(children[0].dir)} + Survivors(children[0].dir.children) + TopSurvivors(children[1..])
  }

  /** Only the root has the empty path. */
  ghost predicate Labelled(children: seq<Entry>) {
    forall e | e in children :: e.dir.fullPath != "" && Labelled(e.dir.children)
  }

  ghost predicate NoChains(children: seq<Entry>) {
    forall e | e in children :: !Collapsible(e.dir) && NoChains(e.dir.children)
  }

  /** Whether a directory is a link of a chain does not change while its children are compressed. */
  lemma CollapsedOnce(d: Dir)
    requires NoChains(d.children)
    ensures Collapsed(d) == if Collapsible(d) then d.children[0].dir.(name := d.name + "/" + d.children[0].key) else d
    ensures !Collapsible(Collapsed(d)) && NoChains(Collapsed(d).children)
  {
    if Collapsible(d) {
      var e := d.children[0];
      assert e in d.children;
      assert !Collapsible(e.dir.(name := d.name + "/" + e.key));
    }
  }

  /** Below the top level no chain is left. */
  lemma {:induction false} ForestHasNoChains(children: seq<Entry>)
    requires Labelled(children)
    ensures NoChains(FlattenedForest(false, children))
  {
    if children != [] {
      var e := children[0];
      assert e in children;
      assert forall x | x in children[1..] :: x in children;
      ForestHasNoChains(e.dir.children);
      ForestHasNoChains(children[1..]);
      CollapsedOnce(e.dir.(children := FlattenedForest(false, e.dir.children)));
    }
  }

  lemma OneDirectory(e: Entry)
    ensures Infos([e]) == multiset{InfoOf(e.dir)} + Infos(e.dir.children)
  {
    assert [e][1..] == [];
  }

  lemma CollapseSurvivors(e: Entry, flat: Dir)
    requires flat == e.dir.(children := flat.children)
    requires |flat.children| == |e.dir.children| && NoChains(flat.children)
    requires Infos(flat.children) == Survivors(e.dir.children)
    ensures multiset{InfoOf(Collapsed(flat))} + Infos(Collapsed(flat).children)
         == (if Collapsible(e.dir) then multiset{} else multiset{InfoOf(e.dir)}) + Survivors(e.dir.children)
  {
    CollapsedOnce(flat);
    if Collapsible(e.dir) {
      assert flat.children == [flat.children[0]];
      OneDirectory(flat.children[0]);
    }
  }

  lemma InfosOfCons(e: Entry, rest: seq<Entry>)
    ensures Infos([e] + rest) == multiset{InfoOf(e.dir)} + Infos(e.dir.children) + Infos(rest)
  {
    assert ([e] + rest)[1..] == rest;
  }

  /** Compression below the top level keeps exactly the directories that are not links of a chain, each once. */
  lemma {:induction false} ForestSurvivors(children: seq<Entry>)
    requires Labelled(children)
    ensures Infos(FlattenedForest(false, children)) == Survivors(children)
  {
    if children != [] {
      var e := children[0];
      assert e in children;
      assert forall x | x in children[1..] :: x in children;
      ForestSurvivors(e.dir.children);
      ForestSurvivors(children[1..]);
      ForestHasNoChains(e.dir.children);
      var flat := e.dir.(children := FlattenedForest(false, e.dir.children));
      CollapseSurvivors(e, flat);
      InfosOfCons(Entry(e.key, Collapsed(flat)), FlattenedForest(false, children[1..]));
    }
  }

  lemma {:induction false} TopForestSurvivors(children: seq<Entry>)
    requires Labelled(children)
    ensures Infos(FlattenedForest(true, children)) == TopSurvivors(children)
  {
    if children != [] {
      var e := children[0];
      assert e in children;
      assert forall x | x in children[1..] :: x in children;
      ForestSurvivors(e.dir.children);
      TopForestSurvivors(children[1..]);
      assert FlattenedForest(true, children)[1..] == FlattenedForest(true, children[1..]);
    }
  }

  /** The nodes filed directly in the directories of a forest. */
  function AllDirect(children: seq<Entry>): multiset<GraphNode> {
    if children == [] then multiset{}
    else multiset(children[0].dir.directNodes) + AllDirect(children[0].dir.children) + AllDirect(children[1..])
  }

  lemma {:induction false} CollapseKeepsDirect(d: Dir)
    ensures multiset(Collapsed(d).directNodes) + AllDirect(Collapsed(d).children) == multiset(d.directNodes)
                                                                                     + AllDirect(d.children)
    decreases Height(d.children)
  {
    if Collapsible(d) {
      var e := d.children[0];
      assert e in d.children;
      CollapseKeepsDirect(e.dir.(name := d.name + "/" + e.key));
      assert d.children == [e] && [e][1..] == [];
    }
  }

  /** Compression loses no node filed directly in a directory and repeats none. */
  lemma {:induction false} ForestKeepsDirect(top: bool, children: seq<Entry>)
    ensures AllDirect(FlattenedForest(top, children)) == AllDirect(children)
    decreases children
  {
    if children != [] {
      var e := children[0];
      ForestKeepsDirect(e.dir.fullPath == "", e.dir.children);
      ForestKeepsDirect(top, children[1..]);
      var flat := e.dir.(children := FlattenedForest(e.dir.fullPath == "", e.dir.children));
      CollapseKeepsDirect(flat);
      assert FlattenedForest(top, children)[1..] == FlattenedForest(top, children[1..]);
    }
  }

  // ----- the tree of the nodes

  lemma JoinNonEmpty(path: seq<string>)
    requires path != [] && AreSegments(path)
    ensures Join(path) != ""
  {
    assert path[0] in path;
    assert IsSegment(path[0]);
  }

  lemma FiledUnderSegments(node: GraphNode, path: seq<string>)
    requires FiledUnder(node, path)
    ensures AreSegments(path)
  {
    var s := ForwardSlashes(node.filePath.value);
    SegmentsAreSegments(s);
    var parts := Segments(s);
    forall p | p in path ensures IsSegment(p) {
      var i :| 0 <= i < |path| && path[i] == p;
      assert path[i] == parts[i];
    }
  }

  lemma {:induction false} TreeIsLabelled(d: Dir, nodes: seq<GraphNode>, path: seq<string>)
    requires IsTree(d, nodes, path)
    ensures Labelled(d.children)
    decreases d
  {
    forall e | e in d.children ensures e.dir.fullPath != "" && Labelled(e.dir.children) {
      var n :| n in nodes && FiledUnder(n, path + [e.key]);
      FiledUnderSegments(n, path + [e.key]);
      JoinNonEmpty(path + [e.key]);
      TreeIsLabelled(e.dir, nodes, path + [e.key]);
    }
  }

  /**
   Compressing the tree of any nodes: the root and every top-level directory stay, every deeper directory stays
   unless it is a link of a chain, and each that stays keeps its path and its nodes.
   */
  lemma CompressionKeeps(root: Dir, nodes: seq<GraphNode>)
    requires IsTree(root, nodes, [])
    ensures InfoOf(Flattened(root)) == InfoOf(root)
    ensures Infos(Flattened(root).children) == TopSurvivors(root.children)
    ensures AllDirect(Flattened(root).children) == AllDirect(root.children)
  {
    TreeIsLabelled(root, nodes, []);
    TopForestSurvivors(root.children);
    ForestKeepsDirect(true, root.children);
  }

  /** The top level is the same, and no directory below it has a single child and no nodes of its own. */
  lemma CompressionShortens(root: Dir, nodes: seq<GraphNode>, i: nat)
    requires IsTree(root, nodes, []) && i < |root.children|
    ensures var e := Flattened(root).children[i];
            && e.key == root.children[i].key && e.dir.name == root.children[i].dir.name
            && InfoOf(e.dir) == InfoOf(root.children[i].dir)
            && NoChains(e.dir.children)
  {
    TreeIsLabelled(root, nodes, []);
    var e := root.children[i];
    assert e in root.children;
    FlattenedAt(true, root.children, i);
    ForestHasNoChains(e.dir.children);
  }
}
