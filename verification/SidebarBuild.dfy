/** Building the directory tree of the sidebar in place: directories are objects that gain children and nodes. */
module SidebarBuild {
  import opened GraphScope
  import opened Options
  import opened SidebarTree
  import opened Sorting
  import opened StellarKeys

  datatype Link = Link(key: string, dir: DirNode)

  class DirNode {
    var name: string
    var fullPath: string
    var children: seq<Link>
    var nodeIds: set<int>
    var directNodes: seq<GraphNode>

    constructor (name: string, fullPath: string)
      ensures this.name == name && this.fullPath == fullPath
      ensures children == [] && nodeIds == {} && directNodes == []
    {
      this.name, this.fullPath := name, fullPath;
      children, nodeIds, directNodes := [], {}, [];
    }
  }

  /** All directories of a tree under their paths. */
  type Registry = map<seq<string>, DirNode>

  function NameAt(path: seq<string>): string { if path == [] then "/" else path[|path| - 1] }

  function IndexOfKey(children: seq<Link>, key: string): (i: nat)
    ensures i <= |children|
    ensures i < |children| ==> children[i].key == key
    ensures forall j | 0 <= j < i :: children[j].key != key
  {
    if children == [] || children[0].key == key then 0 else 1 + IndexOfKey(children[1..], key)
  }

  /** The children of the directory at `path` are the directories one segment longer. */
  ghost predicate Linked(dirs: Registry, path: seq<string>, children: seq<Link>) {
    && (forall i, j | 0 <= i < j < |children| :: children[i].key != children[j].key)
    && (forall i | 0 <= i < |children| ::
          path + [children[i].key] in dirs && dirs[path + [children[i].key]] == children[i].dir)
    && (forall k | path + [k] in dirs :: exists i :: 0 <= i < |children| && children[i].key == k)
  }

  function Parent(path: seq<string>): seq<string>
    requires path != []
  {
    path[..|path| - 1]
  }

  /** Parents are there, and no object stands for two directories. */
  ghost predicate Closed(dirs: Registry) {
    && [] in dirs
    && (forall p {:trigger Parent(p)} | p in dirs && p != [] :: Parent(p) in dirs)
    && (forall p, q | p in dirs && q in dirs && p != q :: dirs[p] != dirs[q])
  }

  ghost predicate WellFormed(dirs: Registry)
    reads dirs.Values`name, dirs.Values`fullPath, dirs.Values`children
  {
    && Closed(dirs)
    && (forall p {:trigger NameAt(p)} {:trigger Join(p)} | p in dirs ::
          dirs[p].name == NameAt(p) && dirs[p].fullPath == Join(p))
    && (forall p {:trigger Linked(dirs, p, dirs[p].children)} | p in dirs :: Linked(dirs, p, dirs[p].children))
  }

  lemma {:induction false} PrefixClosed(dirs: Registry, p: seq<string>, n: nat)
    requires Closed(dirs) && p in dirs && n <= |p|
    ensures p[..n] in dirs
    decreases |p|
  {
    if n < |p| {
      PrefixClosed(dirs, Parent(p), n);
      assert Parent(p)[..n] == p[..n];
    } else {
      assert p[..n] == p;
    }
  }

  lemma NothingBelowNew(dirs: Registry, path: seq<string>, key: string, k: string)
    requires Closed(dirs) && path + [key] !in dirs
    ensures path + [key] + [k] !in dirs
  {
    var q := path + [key] + [k];
    assert Parent(q) == path + [key];
  }

  lemma LinkedGrows(dirs: Registry, path: seq<string>, key: string, child: DirNode, children: seq<Link>)
    requires Linked(dirs, path, children) && path + [key] !in dirs
    ensures Linked(dirs[path + [key] := child], path, children + [Link(key, child)])
  {
    var after, links := dirs[path + [key] := child], children + [Link(key, child)];
    forall i | 0 <= i < |links| ensures path + [links[i].key] in after && after[path + [links[i].key]] == links[i].dir {
      if i < |children| {
        assert links[i] == children[i];
        assert path + [children[i].key] in dirs;
        assert path + [children[i].key] != path + [key];
      }
    }
    forall k | path + [k] in after ensures exists i :: 0 <= i < |links| && links[i].key == k {
      if k == key {
        assert links[|children|].key == k;
      } else {
        assert (path + [k])[|path|] == k && (path + [key])[|path|] == key;
        var i :| 0 <= i < |children| && children[i].key == k;
        assert links[i].key == k;
      }
    }
  }

  lemma LinkedElsewhere(dirs: Registry, path: seq<string>, key: string, child: DirNode, p: seq<string>,
                        children: seq<Link>)
    requires Linked(dirs, p, children) && p != path && path + [key] !in dirs
    ensures Linked(dirs[path + [key] := child], p, children)
  {
    forall k ensures p + [k] != path + [key] {
      assert (p + [k])[..|p|] == p && (path + [key])[..|path|] == path;
    }
  }

  lemma ClosedGrows(dirs: Registry, path: seq<string>, key: string, child: DirNode)
    requires Closed(dirs) && path in dirs && path + [key] !in dirs && child !in dirs.Values
    ensures Closed(dirs[path + [key] := child])
  {
    assert Parent(path + [key]) == path;
  }

  lemma NewIsLeaf(dirs: Registry, path: seq<string>, key: string, child: DirNode)
    requires Closed(dirs) && path + [key] !in dirs
    ensures Linked(dirs[path + [key] := child], path + [key], [])
  {
    forall k ensures path + [key] + [k] !in dirs[path + [key] := child] {
      NothingBelowNew(dirs, path, key, k);
      assert |path + [key] + [k]| != |path + [key]|;
    }
  }

  /** After the parent has gained its link the tree is well formed again. */
  lemma Grown(dirs: Registry, path: seq<string>, key: string, child: DirNode, before: seq<Link>)
    requires Closed(dirs) && path in dirs && path + [key] !in dirs && child !in dirs.Values
    requires forall p | p in dirs :: dirs[p].name == NameAt(p) && dirs[p].fullPath == Join(p)
    requires forall p | p in dirs && p != path :: Linked(dirs, p, dirs[p].children)
    requires Linked(dirs, path, before) && dirs[path].children == before + [Link(key, child)]
    requires child.name == key && child.fullPath == Join(path + [key]) && child.children == []
    ensures WellFormed(dirs[path + [key] := child])
  {
    var dirs': Registry := dirs[path + [key] := child];
    ClosedGrows(dirs, path, key, child);
    forall p | p in dirs' ensures Linked(dirs', p, dirs'[p].children) {
      if p == path + [key] {
        NewIsLeaf(dirs, path, key, child);
      } else if p == path {
        LinkedGrows(dirs, path, key, child, before);
      } else {
        LinkedElsewhere(dirs, path, key, child, p, dirs[p].children);
      }
    }
  }

  method AddChild(current: DirNode, key: string, prefix: string, ghost dirs: Registry, ghost path: seq<string>)
    returns (child: DirNode)
    requires WellFormed(dirs) && path in dirs && dirs[path] == current && prefix == Join(path + [key])
    requires path + [key] !in dirs
    modifies current`children
    ensures fresh(child) && child.directNodes == [] && child.nodeIds == {}
    ensures WellFormed(dirs[path + [key] := child])
  {
    child := new DirNode(key, prefix);
    ghost var before := current.children;
    assert child !in dirs.Values;
    current.children := current.children + [Link(key, child)];
    forall p | p in dirs && p != path ensures Linked(dirs, p, dirs[p].children) {
      assert dirs[p] != current;
    }
    Grown(dirs, path, key, child, before);
  }

  /** The child of that name, created if it is not there yet. */
  method EnsureChild(current: DirNode, key: string, prefix: string, ghost dirs: Registry, ghost path: seq<string>)
    returns (child: DirNode, ghost dirs': Registry)
    requires WellFormed(dirs) && path in dirs && dirs[path] == current && prefix == Join(path + [key])
    modifies current`children
    ensures WellFormed(dirs')
    ensures path + [key] in dirs' && dirs'[path + [key]] == child
    ensures path + [key] in dirs ==> dirs' == dirs
    ensures path + [key] !in dirs ==>
              dirs' == dirs[path + [key] := child] && fresh(child) && child.directNodes == [] && child.nodeIds == {}
  {
    var i := IndexOfKey(current.children, key);
    assert Linked(dirs, path, current.children);
    if i < |current.children| {
      child, dirs' := current.children[i].dir, dirs;
    } else {
      child := AddChild(current, key, prefix, dirs, path);
      dirs' := dirs[path + [key] := child];
    }
  }

  // ----- filing the nodes

  ghost predicate Filed(dirs: Registry, nodes: seq<GraphNode>)
    reads dirs.Values`directNodes
  {
    forall p | p in dirs :: dirs[p].directNodes == NodesAt(nodes, p)
  }

  /** The directories are those on the way to a node, and of the next node those up to depth `n`. */
  ghost predicate CoversTo(dirs: Registry, nodes: seq<GraphNode>, segments: seq<string>, n: nat)
    requires n <= |segments|
  {
    forall p :: p in dirs <==> p == [] || SomeUnder(nodes, p) || p <= segments[..n]
  }

  ghost predicate Covers(dirs: Registry, nodes: seq<GraphNode>) {
    forall p :: p in dirs <==> p == [] || SomeUnder(nodes, p)
  }

  lemma NobodyAtNew(nodes: seq<GraphNode>, p: seq<string>)
    requires !SomeUnder(nodes, p)
    ensures NodesAt(nodes, p) == []
  {
    if NodesAt(nodes, p) != [] {
      var n := NodesAt(nodes, p)[0];
      assert n in NodesAt(nodes, p);
      assert FiledUnder(n, p);
    }
  }

  lemma PrefixOfNext(segments: seq<string>, n: nat, p: seq<string>)
    requires n < |segments|
    ensures p <= segments[..n + 1] <==> p <= segments[..n] || p == segments[..n + 1]
  {
    PrefixGrows(segments, n);
    if p <= segments[..n + 1] && |p| <= n {
      assert p == segments[..n + 1][..|p|] == segments[..n][..|p|];
    }
  }

  lemma CoversNext(dirs: Registry, dirs': Registry, nodes: seq<GraphNode>, segments: seq<string>, n: nat)
    requires n < |segments| && CoversTo(dirs, nodes, segments, n)
    requires dirs'.Keys == dirs.Keys + {segments[..n + 1]}
    ensures CoversTo(dirs', nodes, segments, n + 1)
  {
    forall p ensures p in dirs' <==> p == [] || SomeUnder(nodes, p) || p <= segments[..n + 1] {
      PrefixOfNext(segments, n, p);
      assert p in dirs' <==> p in dirs'.Keys;
      assert p in dirs <==> p in dirs.Keys;
    }
  }

  lemma FiledNext(nodes: seq<GraphNode>, node: GraphNode, p: seq<string>)
    ensures NodesAt(nodes + [node], p) == NodesAt(nodes, p) + if Sits(node, p) then [node] else []
    ensures SomeUnder(nodes + [node], p) <==> SomeUnder(nodes, p) || FiledUnder(node, p)
  {
    var more := nodes + [node];
    assert more[..|more| - 1] == nodes;
    assert forall n :: n in more <==> n in nodes || n == node;
  }

  lemma ValuesGrow(dirs: Registry, path: seq<string>, child: DirNode)
    requires path !in dirs
    ensures dirs[path := child].Values == dirs.Values + {child}
    ensures dirs[path := child].Keys == dirs.Keys + {path}
  {
    var dirs': Registry := dirs[path := child];
    forall d | d in dirs.Values + {child} ensures d in dirs'.Values {
      if d != child {
        var p :| p in dirs && dirs[p] == d;
        assert dirs'[p] == d;
      } else {
        assert dirs'[path] == d;
      }
    }
  }

  method WalkStep(current: DirNode, segments: seq<string>, index: nat, ghost dirs: Registry,
                  ghost nodes: seq<GraphNode>)
    returns (child: DirNode, ghost dirs': Registry)
    requires WellFormed(dirs) && Filed(dirs, nodes) && index < |segments| && CoversTo(dirs, nodes, segments, index)
    requires segments[..index] in dirs && dirs[segments[..index]] == current
    modifies current`children
    ensures WellFormed(dirs') && Filed(dirs', nodes) && CoversTo(dirs', nodes, segments, index + 1)
    ensures segments[..index + 1] in dirs' && dirs'[segments[..index + 1]] == child
    ensures [] in dirs ==> [] in dirs' && dirs'[[]] == dirs[[]]
    ensures dirs.Values <= dirs'.Values && fresh(dirs'.Values - dirs.Values)
  {
    PrefixGrows(segments, index);
    ghost var path := segments[..index];
    child, dirs' := EnsureChild(current, segments[index], Join(segments[..index + 1]), dirs, path);
    if segments[..index + 1] !in dirs {
      ValuesGrow(dirs, segments[..index + 1], child);
      NobodyAtNew(nodes, segments[..index + 1]);
    } else {
      assert dirs'.Keys == dirs.Keys + {segments[..index + 1]};
    }
    CoversNext(dirs, dirs', nodes, segments, index);
  }

  /** Walks down to the node's directory, creating what is missing on the way. */
  method WalkTo(root: DirNode, segments: seq<string>, ghost dirs: Registry, ghost nodes: seq<GraphNode>)
    returns (current: DirNode, ghost dirs': Registry)
    requires WellFormed(dirs) && Filed(dirs, nodes) && Covers(dirs, nodes) && dirs[[]] == root
    modifies dirs.Values`children
    ensures WellFormed(dirs') && Filed(dirs', nodes) && CoversTo(dirs', nodes, segments, |segments|)
    ensures segments in dirs' && dirs'[segments] == current && dirs'[[]] == root
    ensures dirs.Values <= dirs'.Values && fresh(dirs'.Values - dirs.Values)
  {
    current, dirs' := root, dirs;
    assert segments[..0] == [];
    for index := 0 to |segments|
      invariant WellFormed(dirs') && Filed(dirs', nodes) && CoversTo(dirs', nodes, segments, index)
      invariant segments[..index] in dirs' && dirs'[segments[..index]] == current && dirs'[[]] == root
      invariant dirs.Values <= dirs'.Values && fresh(dirs'.Values - dirs.Values)
    {
      current, dirs' := WalkStep(current, segments, index, dirs', nodes);
    }
    assert segments[..|segments|] == segments;
  }

  ghost predicate Holds(dirs: Registry, root: DirNode, nodes: seq<GraphNode>)
    reads dirs.Values`name, dirs.Values`fullPath, dirs.Values`children, dirs.Values`directNodes
  {
    WellFormed(dirs) && Filed(dirs, nodes) && Covers(dirs, nodes) && dirs[[]] == root
  }

  lemma CoversDone(dirs: Registry, nodes: seq<GraphNode>, node: GraphNode)
    requires match DirectorySegments(node)
             case None => Covers(dirs, nodes)
             case Some(segments) => CoversTo(dirs, nodes, segments, |segments|)
    ensures Covers(dirs, nodes + [node])
  {
    forall p ensures p in dirs <==> p == [] || SomeUnder(nodes + [node], p) {
      FiledNext(nodes, node, p);
      var d := DirectorySegments(node);
      if d.Some? {
        assert d.value[..|d.value|] == d.value;
      }
    }
  }

  method FileHere(current: DirNode, node: GraphNode, ghost dirs: Registry, ghost segments: seq<string>,
                  ghost nodes: seq<GraphNode>)
    requires WellFormed(dirs) && Filed(dirs, nodes) && DirectorySegments(node) == Some(segments)
    requires segments in dirs && dirs[segments] == current
    modifies current`directNodes
    ensures WellFormed(dirs) && Filed(dirs, nodes + [node])
  {
    current.directNodes := current.directNodes + [node];
    forall p | p in dirs ensures dirs[p].directNodes == NodesAt(nodes + [node], p) {
      FiledNext(nodes, node, p);
      assert p != segments ==> dirs[p] != current;
    }
  }

  /** Files one node, creating the directories on its way. */
  method AddNode(root: DirNode, node: GraphNode, ghost dirs: Registry, ghost nodes: seq<GraphNode>)
    returns (ghost dirs': Registry)
    requires Holds(dirs, root, nodes)
    modifies dirs.Values`children, dirs.Values`directNodes
    ensures Holds(dirs', root, nodes + [node])
    ensures dirs.Values <= dirs'.Values && fresh(dirs'.Values - dirs.Values)
  {
    dirs' := dirs;
    var segments := DirectorySegments(node);
    if segments.Some? {
      var current;
      current, dirs' := WalkTo(root, segments.value, dirs, nodes);
      FileHere(current, node, dirs', segments.value, nodes);
    } else {
      forall p | p in dirs ensures dirs[p].directNodes == NodesAt(nodes + [node], p) {
        FiledNext(nodes, node, p);
      }
    }
    CoversDone(dirs', nodes, node);
  }

  // ----- collecting the ids

  ghost predicate NoDeeperThan(dirs: Registry, depth: nat) { forall p | p in dirs :: |p| <= depth }

  /** `path` or one of the first `n` children's subtrees holds `p`. */
  ghost predicate InChildren(path: seq<string>, children: seq<Link>, n: nat, p: seq<string>)
    requires n <= |children|
  {
    exists j :: 0 <= j < n && path + [children[j].key] <= p
  }

  function IdsOfNodes(nodes: seq<GraphNode>): set<int> { set n | n in nodes :: n.id }

  /** `id` is an id under one of the first `n` children. */
  ghost predicate IdBelow(nodes: seq<GraphNode>, path: seq<string>, children: seq<Link>, n: nat, id: int)
    requires n <= |children|
  {
    exists j :: 0 <= j < n && id in IdsUnder(nodes, path + [children[j].key])
  }

  lemma OneMoreChild(nodes: seq<GraphNode>, path: seq<string>, children: seq<Link>, n: nat, p: seq<string>, id: int)
    requires n < |children|
    ensures InChildren(path, children, n + 1, p) <==> InChildren(path, children, n, p) || path + [children[n].key] <= p
    ensures IdBelow(nodes, path, children, n + 1, id)
       <==> IdBelow(nodes, path, children, n, id) || id in IdsUnder(nodes, path + [children[n].key])
  {
  }

  lemma ShorterPrefix(a: seq<string>, b: seq<string>, q: seq<string>)
    requires a + b <= q
    ensures a <= q
  {
    assert q[..|a|] == (a + b)[..|a|] == a;
  }

  /** Whatever lies under a directory lies in one of its children. */
  lemma EveryoneInChildren(dirs: Registry, path: seq<string>, children: seq<Link>, p: seq<string>)
    requires Closed(dirs) && Linked(dirs, path, children) && p in dirs && p != path
    ensures path <= p <==> InChildren(path, children, |children|, p)
  {
    if path <= p {
      PrefixClosed(dirs, p, |path| + 1);
      assert p[..|path| + 1] == path + [p[|path|]];
      var j :| 0 <= j < |children| && children[j].key == p[|path|];
      assert path + [children[j].key] <= p;
    }
    if j :| 0 <= j < |children| && path + [children[j].key] <= p {
      ShorterPrefix(path, [children[j].key], p);
    }
  }

  lemma ChildOnTheWay(dirs: Registry, nodes: seq<GraphNode>, path: seq<string>, children: seq<Link>, n: GraphNode)
    requires Closed(dirs) && Covers(dirs, nodes) && Linked(dirs, path, children)
    requires n in nodes && FiledUnder(n, path) && DirectorySegments(n).value != path
    ensures exists j :: 0 <= j < |children| && n.id in IdsUnder(nodes, path + [children[j].key])
  {
    var q := DirectorySegments(n).value;
    var k := q[|path|];
    assert path + [k] <= q;
    assert FiledUnder(n, path + [k]);
    assert path + [k] in dirs;
    var j :| 0 <= j < |children| && children[j].key == k;
  }

  /** The ids under `path` are those of its own nodes and those under its children. */
  lemma IdsSplit(dirs: Registry, nodes: seq<GraphNode>, path: seq<string>, children: seq<Link>, id: int)
    requires Closed(dirs) && Covers(dirs, nodes) && Linked(dirs, path, children)
    ensures id in IdsUnder(nodes, path) <==>
            id in IdsOfNodes(NodesAt(nodes, path)) || IdBelow(nodes, path, children, |children|, id)
  {
    if id in IdsUnder(nodes, path) && id !in IdsOfNodes(NodesAt(nodes, path)) {
      var n :| n in nodes && FiledUnder(n, path) && n.id == id;
      var q := DirectorySegments(n).value;
      if q != path {
        ChildOnTheWay(dirs, nodes, path, children, n);
      }
    }
    if id in IdsOfNodes(NodesAt(nodes, path)) {
      var n :| n in NodesAt(nodes, path) && n.id == id;
      assert FiledUnder(n, path);
    }
    if j :| 0 <= j < |children| && id in IdsUnder(nodes, path + [children[j].key]) {
      var n :| n in nodes && FiledUnder(n, path + [children[j].key]) && n.id == id;
      ShorterPrefix(path, [children[j].key], DirectorySegments(n).value);
    }
  }

  method OwnIds(nodes: seq<GraphNode>) returns (ids: set<int>)
    ensures ids == IdsOfNodes(nodes)
  {
    ids := {};
    for i := 0 to |nodes|
      invariant ids == IdsOfNodes(nodes[..i])
    {
      PrefixGrows(nodes, i);
      ids := ids + {nodes[i].id};
    }
    assert nodes[..|nodes|] == nodes;
  }

  ghost predicate AreIdsBelow(ids: set<int>, nodes: seq<GraphNode>, path: seq<string>, children: seq<Link>, n: nat)
    requires n <= |children|
  {
    forall id :: id in ids <==> IdBelow(nodes, path, children, n, id)
  }

  lemma IdsComplete(dirs: Registry, nodes: seq<GraphNode>, path: seq<string>, children: seq<Link>, own: set<int>,
                    below: set<int>)
    requires Closed(dirs) && Covers(dirs, nodes) && Linked(dirs, path, children)
    requires own == IdsOfNodes(NodesAt(nodes, path))
    requires AreIdsBelow(below, nodes, path, children, |children|)
    ensures own + below == IdsUnder(nodes, path)
  {
    forall id ensures id in own + below <==> id in IdsUnder(nodes, path) {
      IdsSplit(dirs, nodes, path, children, id);
    }
  }

  type IdTable = map<seq<string>, set<int>>

  /** The node ids of all directories as they are now. */
  ghost function IdsNow(dirs: Registry): IdTable
    reads dirs.Values`nodeIds
  {
    map p | p in dirs :: dirs[p].nodeIds
  }

  /** From `path` down the ids are set, elsewhere they are as before. */
  ghost predicate Collected(now: IdTable, before: IdTable, nodes: seq<GraphNode>, path: seq<string>) {
    now.Keys == before.Keys && forall p | p in now :: now[p] == if path <= p then IdsUnder(nodes, p) else before[p]
  }

  /** In the subtrees of the first `n` children the ids are set, elsewhere they are as before. */
  ghost predicate CollectedTo(now: IdTable, before: IdTable, nodes: seq<GraphNode>, path: seq<string>,
                              children: seq<Link>, n: nat)
    requires n <= |children|
  {
    && now.Keys == before.Keys
    && forall p | p in now :: now[p] == if InChildren(path, children, n, p) then IdsUnder(nodes, p) else before[p]
  }

  lemma NextCollected(now: IdTable, was: IdTable, before: IdTable, nodes: seq<GraphNode>, path: seq<string>,
                      children: seq<Link>, n: nat)
    requires n < |children| && CollectedTo(was, before, nodes, path, children, n)
    requires Collected(now, was, nodes, path + [children[n].key])
    ensures CollectedTo(now, before, nodes, path, children, n + 1)
  {
    forall p | p in now
      ensures now[p] == if InChildren(path, children, n + 1, p) then IdsUnder(nodes, p) else before[p] {
      OneMoreChild(nodes, path, children, n, p, 0);
      assert p in was;
    }
  }

  lemma NextIdsBelow(ids: set<int>, more: set<int>, nodes: seq<GraphNode>, path: seq<string>, children: seq<Link>,
                     n: nat)
    requires n < |children| && AreIdsBelow(ids, nodes, path, children, n)
    requires more == IdsUnder(nodes, path + [children[n].key])
    ensures AreIdsBelow(ids + more, nodes, path, children, n + 1)
  {
    forall id ensures id in ids + more <==> IdBelow(nodes, path, children, n + 1, id) {
      OneMoreChild(nodes, path, children, n, path, id);
    }
  }

  lemma NextChild(now: IdTable, was: IdTable, before: IdTable, ids: set<int>, more: set<int>, nodes: seq<GraphNode>,
                  path: seq<string>, children: seq<Link>, n: nat)
    requires n < |children| && CollectedTo(was, before, nodes, path, children, n)
             && AreIdsBelow(ids, nodes, path, children, n)
    requires Collected(now, was, nodes, path + [children[n].key]) && more == IdsUnder(nodes, path + [children[n].key])
    ensures CollectedTo(now, before, nodes, path, children, n + 1)
            && AreIdsBelow(ids + more, nodes, path, children, n + 1)
  {
    NextCollected(now, was, before, nodes, path, children, n);
    NextIdsBelow(ids, more, nodes, path, children, n);
  }

  /** Once the children are collected, setting the directory's own ids completes its subtree. */
  lemma AllCollected(dirs: Registry, mid: IdTable, before: IdTable, nodes: seq<GraphNode>, path: seq<string>,
                     children: seq<Link>)
    requires Closed(dirs) && Linked(dirs, path, children) && mid.Keys == dirs.Keys && path in dirs
    requires CollectedTo(mid, before, nodes, path, children, |children|)
    ensures Collected(mid[path := IdsUnder(nodes, path)], before, nodes, path)
  {
    var now: IdTable := mid[path := IdsUnder(nodes, path)];
    assert path in mid.Keys;
    forall p | p in now ensures now[p] == if path <= p then IdsUnder(nodes, p) else before[p] {
      if p != path {
        assert p in mid.Keys;
        EveryoneInChildren(dirs, path, children, p);
      }
    }
  }

  method SetIds(directory: DirNode, ids: set<int>, ghost dirs: Registry, ghost path: seq<string>)
    requires Closed(dirs) && path in dirs && dirs[path] == directory
    modifies directory`nodeIds
    ensures IdsNow(dirs) == old(IdsNow(dirs))[path := ids]
  {
    directory.nodeIds := ids;
  }

  /** Sets the node ids of a directory and of everything under it. */
  method Collect(directory: DirNode, ghost dirs: Registry, ghost nodes: seq<GraphNode>, ghost path: seq<string>,
                 ghost depth: nat)
    returns (ids: set<int>)
    requires WellFormed(dirs) && Filed(dirs, nodes) && Covers(dirs, nodes) && NoDeeperThan(dirs, depth)
    requires path in dirs && dirs[path] == directory
    modifies dirs.Values`nodeIds
    ensures ids == IdsUnder(nodes, path)
    ensures Collected(IdsNow(dirs), old(IdsNow(dirs)), nodes, path)
    decreases depth - |path|, 2
  {
    ghost var before := IdsNow(dirs);
    ids := OwnIds(directory.directNodes);
    var below := CollectChildren(directory, dirs, nodes, path, depth);
    IdsComplete(dirs, nodes, path, directory.children, ids, below);
    ids := ids + below;
    ghost var mid := IdsNow(dirs);
    AllCollected(dirs, mid, before, nodes, path, directory.children);
    SetIds(directory, ids, dirs, path);
  }

  method CollectChildren(directory: DirNode, ghost dirs: Registry, ghost nodes: seq<GraphNode>, ghost path: seq<string>,
                         ghost depth: nat)
    returns (ids: set<int>)
    requires WellFormed(dirs) && Filed(dirs, nodes) && Covers(dirs, nodes) && NoDeeperThan(dirs, depth)
    requires path in dirs && dirs[path] == directory
    modifies dirs.Values`nodeIds
    ensures AreIdsBelow(ids, nodes, path, directory.children, |directory.children|)
    ensures CollectedTo(IdsNow(dirs), old(IdsNow(dirs)), nodes, path, directory.children, |directory.children|)
    decreases depth - |path|, 1
  {
    ids := {};
    ghost var before := IdsNow(dirs);
    var children := directory.children;
    for i := 0 to |children|
      invariant AreIdsBelow(ids, nodes, path, children, i)
      invariant CollectedTo(IdsNow(dirs), before, nodes, path, children, i)
    {
      var more := CollectChild(children, i, dirs, nodes, path, depth, before, ids);
      ids := ids + more;
    }
  }

  lemma LinkedChild(dirs: Registry, path: seq<string>, children: seq<Link>, i: nat)
    requires Linked(dirs, path, children) && i < |children|
    ensures path + [children[i].key] in dirs && dirs[path + [children[i].key]] == children[i].dir
  {
  }

  method CollectChild(children: seq<Link>, i: nat, ghost dirs: Registry, ghost nodes: seq<GraphNode>,
                      ghost path: seq<string>,
                      ghost depth: nat, ghost before: IdTable, ghost ids: set<int>)
    returns (more: set<int>)
    requires WellFormed(dirs) && Filed(dirs, nodes) && Covers(dirs, nodes) && NoDeeperThan(dirs, depth)
    requires path in dirs && dirs[path].children == children && i < |children|
    requires AreIdsBelow(ids, nodes, path, children, i) && CollectedTo(IdsNow(dirs), before, nodes, path, children, i)
    modifies dirs.Values`nodeIds
    ensures AreIdsBelow(ids + more, nodes, path, children, i + 1)
    ensures CollectedTo(IdsNow(dirs), before, nodes, path, children, i + 1)
    decreases depth - |path|, 0
  {
    LinkedChild(dirs, path, children, i);
    ghost var was := IdsNow(dirs);
    more := Collect(children[i].dir, dirs, nodes, path + [children[i].key], depth);
    NextChild(IdsNow(dirs), was, before, ids, more, nodes, path, children, i);
  }

  // ----- the finished tree

  ghost function MaxDepth(nodes: seq<GraphNode>): nat {
    if nodes == [] then 0
    else
      var before, d := MaxDepth(nodes[..|nodes| - 1]), DirectorySegments(nodes[|nodes| - 1]);
      if d.Some? && |d.value| > before then |d.value| else before
  }

  lemma {:induction false} DepthBound(nodes: seq<GraphNode>, n: GraphNode)
    requires n in nodes && DirectorySegments(n).Some?
    ensures |DirectorySegments(n).value| <= MaxDepth(nodes)
  {
    if n in nodes[..|nodes| - 1] {
      DepthBound(nodes[..|nodes| - 1], n);
    }
  }

  lemma DepthOfDirs(dirs: Registry, nodes: seq<GraphNode>)
    requires Covers(dirs, nodes)
    ensures NoDeeperThan(dirs, MaxDepth(nodes))
  {
    forall p | p in dirs ensures |p| <= MaxDepth(nodes) {
      if p != [] {
        var n :| n in nodes && FiledUnder(n, p);
        DepthBound(nodes, n);
      }
    }
  }

  /** The tree of objects below a directory as a value. */
  ghost function Snapshot(dirs: Registry, path: seq<string>, depth: nat): Dir
    requires path in dirs && NoDeeperThan(dirs, depth)
    reads dirs.Values
    decreases depth - |path|, 1, 0
  {
    var d := dirs[path];
    Dir(d.name, d.fullPath, Snapshots(dirs, path, d.children, depth), d.nodeIds, d.directNodes)
  }

  ghost function Snapshots(dirs: Registry, path: seq<string>, links: seq<Link>, depth: nat): (r: seq<Entry>)
    requires path in dirs && NoDeeperThan(dirs, depth)
    reads dirs.Values
    ensures (forall l | l in links :: path + [l.key] in dirs) ==>
              |r| == |links|
              && forall i | 0 <= i < |r| :: r[i] == Entry(links[i].key, Snapshot(dirs, path + [links[i].key], depth))
    decreases depth - |path|, 0, |links|
  {
    if links == [] then []
    else if path + [links[0].key] in dirs then
      assert |path + [links[0].key]| <= depth;
      [Entry(links[0].key, Snapshot(dirs, path + [links[0].key], depth))] + Snapshots(dirs, path, links[1..], depth)
    else []
  }

  ghost predicate AllIdsSet(dirs: Registry, nodes: seq<GraphNode>)
    reads dirs.Values`nodeIds
  {
    forall p | p in dirs :: dirs[p].nodeIds == IdsUnder(nodes, p)
  }

  lemma ChildrenOf(dirs: Registry, nodes: seq<GraphNode>, path: seq<string>, children: seq<Link>, k: string)
    requires Linked(dirs, path, children) && Covers(dirs, nodes)
    ensures SomeUnder(nodes, path + [k]) <==> exists i :: 0 <= i < |children| && children[i].key == k
  {
    assert path + [k] in dirs <==> SomeUnder(nodes, path + [k]);
  }

  lemma SnapshotLinks(dirs: Registry, path: seq<string>, links: seq<Link>, depth: nat)
    requires path in dirs && NoDeeperThan(dirs, depth) && Linked(dirs, path, links)
    ensures var r := Snapshots(dirs, path, links, depth);
            && |r| == |links| && DistinctKeys(r)
            && forall i | 0 <= i < |r| ::
                 path + [links[i].key] in dirs
                 && r[i] == Entry(links[i].key, Snapshot(dirs, path + [links[i].key], depth))
  {
    forall l | l in links ensures path + [l.key] in dirs {
      var i :| 0 <= i < |links| && links[i] == l;
      LinkedChild(dirs, path, links, i);
    }
  }

  /** The children in a snapshot are just the directories one segment longer on the way to some node. */
  lemma SnapshotKeys(dirs: Registry, nodes: seq<GraphNode>, path: seq<string>, links: seq<Link>, depth: nat)
    requires path in dirs && NoDeeperThan(dirs, depth) && Linked(dirs, path, links) && Covers(dirs, nodes)
    ensures var r := Snapshots(dirs, path, links, depth);
            && (forall e | e in r ::
                  SomeUnder(nodes, path + [e.key]) && path + [e.key] in dirs
                  && e.dir == Snapshot(dirs, path + [e.key], depth))
            && (forall k | SomeUnder(nodes, path + [k]) :: exists e :: e in r && e.key == k)
  {
    SnapshotLinks(dirs, path, links, depth);
    var r := Snapshots(dirs, path, links, depth);
    forall e | e in r
      ensures SomeUnder(nodes, path + [e.key]) && path + [e.key] in dirs
              && e.dir == Snapshot(dirs, path + [e.key], depth)
    {
      var i :| 0 <= i < |r| && r[i] == e;
      ChildrenOf(dirs, nodes, path, links, links[i].key);
    }
    forall k | SomeUnder(nodes, path + [k]) ensures exists e :: e in r && e.key == k {
      ChildrenOf(dirs, nodes, path, links, k);
      var i :| 0 <= i < |links| && links[i].key == k;
      assert r[i] in r;
    }
  }

  lemma {:induction false} SnapshotIsTree(dirs: Registry, nodes: seq<GraphNode>, path: seq<string>, depth: nat)
    requires WellFormed(dirs) && Filed(dirs, nodes) && Covers(dirs, nodes) && AllIdsSet(dirs, nodes)
    requires path in dirs && NoDeeperThan(dirs, depth)
    ensures IsTree(Snapshot(dirs, path, depth), nodes, path)
    decreases depth - |path|
  {
    var links := dirs[path].children;
    assert Linked(dirs, path, links);
    SnapshotLinks(dirs, path, links, depth);
    SnapshotKeys(dirs, nodes, path, links, depth);
    forall e | e in Snapshots(dirs, path, links, depth) ensures IsTree(e.dir, nodes, path + [e.key]) {
      assert |path + [e.key]| <= depth;
      SnapshotIsTree(dirs, nodes, path + [e.key], depth);
    }
    assert dirs[path].name == NameAt(path) && dirs[path].fullPath == Join(path);
  }

  method FileNodes(nodes: seq<GraphNode>) returns (root: DirNode, ghost dirs: Registry)
    ensures fresh(dirs.Values) && Holds(dirs, root, nodes)
  {
    root := new DirNode("/", "");
    dirs := map[[] := root];
    for i := 0 to |nodes|
      invariant fresh(dirs.Values) && Holds(dirs, root, nodes[..i])
    {
      PrefixGrows(nodes, i);
      dirs := AddNode(root, nodes[i], dirs, nodes[..i]);
    }
    assert nodes[..|nodes|] == nodes;
  }

  /** The whole tree: files every node, then collects the ids. */
  method BuildFileTree(nodes: seq<GraphNode>) returns (root: DirNode, ghost dirs: Registry)
    ensures fresh(dirs.Values) && [] in dirs && dirs[[]] == root
    ensures NoDeeperThan(dirs, MaxDepth(nodes)) && IsTree(Snapshot(dirs, [], MaxDepth(nodes)), nodes, [])
  {
    root, dirs := FileNodes(nodes);
    DepthOfDirs(dirs, nodes);
    var _ := Collect(root, dirs, nodes, [], MaxDepth(nodes));
    forall p | p in dirs ensures dirs[p].nodeIds == IdsUnder(nodes, p) {
      assert p in IdsNow(dirs);
    }
    SnapshotIsTree(dirs, nodes, [], MaxDepth(nodes));
  }
}
