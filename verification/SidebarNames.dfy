/**
 The names of compressed directories. A chain of directories is to be shown as one entry named by the path from its
 parent; the names come out so for chains of two and no longer.
 */
module SidebarNames {
  import opened GraphScope
  import opened Options
  import opened SidebarTree
  import opened StellarKeys

  /** The keys from the entry down to the first directory that is no link of a chain. */
  function Chain(e: Entry): (r: seq<string>)
    ensures |r| >= 1 && r[0] == e.key
    decreases Height(e.dir.children)
  {
    if Collapsible(e.dir) then
      assert e.dir.children[0] in e.dir.children;
      [e.key] + Chain(e.dir.children[0])
    else [e.key]
  }

  function ChainEnd(e: Entry): Dir
    decreases Height(e.dir.children)
  {
    if Collapsible(e.dir) then
      assert e.dir.children[0] in e.dir.children;
      ChainEnd(e.dir.children[0])
    else e.dir
  }

  /** What is shown for an entry of a directory below the root. */
  function Shown(e: Entry): Dir { Collapsed(Flattened(e.dir)) }

  /** Every entry of a directory below the root is shown as its `Shown`. */
  lemma EntriesShown(d: Dir, i: nat)
    requires d.fullPath != "" && i < |d.children|
    ensures |Flattened(d).children| == |d.children|
    ensures Flattened(d).children[i] == Entry(d.children[i].key, Shown(d.children[i]))
  {
    FlattenedAt(false, d.children, i);
  }

  /** The entry stands for the end of its chain, and its name for the first two links at most. */
  lemma {:induction false} ShownIsEnd(e: Entry)
    requires e.dir.fullPath != "" && Labelled(e.dir.children)
    ensures InfoOf(Shown(e)) == InfoOf(ChainEnd(e))
    ensures Shown(e).name == e.dir.name + if |Chain(e)| == 1 then "" else "/" + Chain(e)[1]
    decreases Height(e.dir.children)
  {
    ForestHasNoChains(e.dir.children);
    CollapsedOnce(Flattened(e.dir));
    if Collapsible(e.dir) {
      var only := e.dir.children[0];
      assert only in e.dir.children;
      EntriesShown(e.dir, 0);
      ShownIsEnd(only);
      assert Collapsible(Flattened(e.dir));
    } else {
      assert !Collapsible(Flattened(e.dir));
    }
  }

  /** What a directory of the tree says of its own level. */
  lemma OneLevel(d: Dir, nodes: seq<GraphNode>, path: seq<string>)
    requires IsTree(d, nodes, path)
    ensures d.name == (if path == [] then "/" else path[|path| - 1]) && d.fullPath == Join(path)
    ensures d.directNodes == NodesAt(nodes, path) && DistinctKeys(d.children)
    ensures forall e | e in d.children :: SomeUnder(nodes, path + [e.key])
    ensures forall e | e in d.children :: IsTree(e.dir, nodes, path + [e.key])
    ensures forall k | SomeUnder(nodes, path + [k]) :: exists e :: e in d.children && e.key == k
  {
  }

  lemma TreePath(d: Dir, nodes: seq<GraphNode>, path: seq<string>)
    requires IsTree(d, nodes, path)
    ensures d.fullPath == Join(path)
  {
  }

  lemma TreeBelow(d: Dir, nodes: seq<GraphNode>, path: seq<string>, e: Entry)
    requires IsTree(d, nodes, path) && e in d.children
    ensures IsTree(e.dir, nodes, path + [e.key])
  {
  }

  lemma ChainGoesOn(e: Entry, path: seq<string>)
    requires Collapsible(e.dir)
    ensures path + [e.key] + Chain(e.dir.children[0]) == path + Chain(e)
    ensures ChainEnd(e) == ChainEnd(e.dir.children[0])
  {
  }

  lemma ChainStops(e: Entry, path: seq<string>)
    requires !Collapsible(e.dir)
    ensures path + Chain(e) == path + [e.key] && ChainEnd(e) == e.dir
  {
  }

  /** In the tree of some nodes the end of the chain is where the keys lead. */
  lemma {:induction false} EndIsBelow(e: Entry, nodes: seq<GraphNode>, path: seq<string>)
    requires IsTree(e.dir, nodes, path + [e.key])
    ensures ChainEnd(e).fullPath == Join(path + Chain(e))
    decreases Height(e.dir.children)
  {
    if Collapsible(e.dir) {
      var only := e.dir.children[0];
      assert only in e.dir.children;
      TreeBelow(e.dir, nodes, path + [e.key], only);
      EndIsBelow(only, nodes, path + [e.key]);
      ChainGoesOn(e, path);
    } else {
      TreePath(e.dir, nodes, path + [e.key]);
      ChainStops(e, path);
    }
  }

  lemma JoinOfMore(a: string, rest: seq<string>)
    requires rest != []
    ensures Join([a] + rest) == a + "/" + Join(rest)
  {
    assert ([a] + rest)[1..] == rest;
  }

  /** The first two links spell the whole chain only when there are no more. */
  lemma TwoLinks(chain: seq<string>)
    requires |chain| >= 2
    ensures chain[0] + "/" + chain[1] == Join(chain) <==> |chain| == 2
  {
    var rest := chain[1..];
    assert chain == [chain[0]] + rest;
    JoinOfMore(chain[0], rest);
    if |chain| > 2 {
      assert rest == [rest[0]] + rest[1..];
      JoinOfMore(rest[0], rest[1..]);
      assert |Join(chain)| > |chain[0] + "/" + chain[1]|;
    } else {
      assert rest == [chain[1]];
    }
  }

  lemma EntryLabelled(e: Entry, nodes: seq<GraphNode>, path: seq<string>)
    requires IsTree(e.dir, nodes, path + [e.key]) && SomeUnder(nodes, path + [e.key])
    ensures e.dir.fullPath != "" && Labelled(e.dir.children) && e.dir.name == e.key
  {
    var n :| n in nodes && FiledUnder(n, path + [e.key]);
    FiledUnderSegments(n, path + [e.key]);
    JoinNonEmpty(path + [e.key]);
    TreeIsLabelled(e.dir, nodes, path + [e.key]);
  }

  lemma NameTells(e: Entry, name: string)
    requires name == e.key + if |Chain(e)| == 1 then "" else "/" + Chain(e)[1]
    ensures name == if |Chain(e)| == 1 then e.key else e.key + "/" + Chain(e)[1]
    ensures name == Join(Chain(e)) <==> |Chain(e)| <= 2
  {
    if |Chain(e)| >= 2 {
      assert name == e.key + "/" + Chain(e)[1];
      TwoLinks(Chain(e));
    } else {
      assert Chain(e) == [e.key];
    }
  }

  /**
   An entry below the top level stands for the directory at the end of its chain. Its name is the path there from its
   parent exactly when the chain has no more than two links; the name of a longer one stops after the second.
   */
  lemma NameOfChain(e: Entry, nodes: seq<GraphNode>, path: seq<string>)
    requires IsTree(e.dir, nodes, path + [e.key]) && SomeUnder(nodes, path + [e.key])
    ensures Shown(e).fullPath == Join(path + Chain(e))
    ensures Shown(e).name == if |Chain(e)| == 1 then e.key else e.key + "/" + Chain(e)[1]
    ensures Shown(e).name == Join(Chain(e)) <==> |Chain(e)| <= 2
  {
    EntryLabelled(e, nodes, path);
    ShownIsEnd(e);
    EndIsBelow(e, nodes, path);
    NameTells(e, Shown(e).name);
  }

  // ----- one deep file

  lemma UnderOne(n: GraphNode, path: seq<string>, parts: seq<string>, k: string)
    requires DirectorySegments(n) == Some(parts) && path < parts
    ensures SomeUnder([n], path + [k]) <==> k == parts[|path|]
  {
    if SomeUnder([n], path + [k]) {
      var v :| v in [n] && FiledUnder(v, path + [k]);
      assert (path + [k])[|path|] == parts[|path|];
    }
    if k == parts[|path|] {
      assert path + [k] <= parts;
      assert n in [n] && FiledUnder(n, path + [k]);
    }
  }

  lemma SamePlace(children: seq<Entry>, k: string, i: nat, j: nat)
    requires DistinctKeys(children) && (forall e | e in children :: e.key == k)
    requires i < |children| && j < |children|
    ensures i == j
  {
    assert children[i] in children && children[j] in children;
  }

  lemma OnlyOne(children: seq<Entry>, k: string)
    requires DistinctKeys(children) && forall e | e in children :: e.key == k
    requires exists e :: e in children && e.key == k
    ensures |children| == 1 && children[0].key == k
  {
    var e :| e in children && e.key == k;
    var i :| 0 <= i < |children| && children[i] == e;
    SamePlace(children, k, 0, i);
    SamePlace(children, k, |children| - 1, i);
  }

  lemma NobodyHere(n: GraphNode, path: seq<string>, parts: seq<string>)
    requires DirectorySegments(n) == Some(parts) && path < parts
    ensures NodesAt([n], path) == []
  {
    assert !Sits(n, path);
    assert [n][..0] == [];
  }

  /** On the way to the one node a directory has one child and no nodes of its own. */
  lemma OnTheWay(d: Dir, n: GraphNode, path: seq<string>, parts: seq<string>)
    requires IsTree(d, [n], path) && DirectorySegments(n) == Some(parts) && path < parts
    ensures Collapsible(d) && d.children[0].key == parts[|path|]
    ensures var e := d.children[0]; IsTree(e.dir, [n], path + [e.key]) && SomeUnder([n], path + [e.key])
  {
    var k := parts[|path|];
    OneLevel(d, [n], path);
    UnderOne(n, path, parts, k);
    forall e | e in d.children ensures e.key == k {
      UnderOne(n, path, parts, e.key);
    }
    OnlyOne(d.children, k);
    NobodyHere(n, path, parts);
    assert d.children[0] in d.children;
  }

  lemma EndsHere(e: Entry, n: GraphNode, path: seq<string>)
    requires IsTree(e.dir, [n], path) && DirectorySegments(n) == Some(path)
    ensures !Collapsible(e.dir)
  {
    OneLevel(e.dir, [n], path);
    assert n in NodesAt([n], path);
  }

  lemma OneStepOn(path: seq<string>, parts: seq<string>)
    requires path < parts
    ensures path + [parts[|path|]] <= parts
  {
  }

  lemma {:induction false} ChainToNode(e: Entry, n: GraphNode, path: seq<string>, parts: seq<string>)
    requires IsTree(e.dir, [n], path + [e.key]) && DirectorySegments(n) == Some(parts) && path + [e.key] <= parts
    ensures path + Chain(e) == parts
    decreases |parts| - |path|
  {
    var here := path + [e.key];
    if here == parts {
      EndsHere(e, n, here);
      ChainStops(e, path);
    } else {
      assert here < parts;
      OnTheWay(e.dir, n, here, parts);
      OneStepOn(here, parts);
      ChainToNode(e.dir.children[0], n, here, parts);
      ChainGoesOn(e, path);
    }
  }

  lemma RestOfChain(e: Entry, path: seq<string>, parts: seq<string>)
    requires path + Chain(e) == parts
    ensures Chain(e) == parts[|path|..]
  {
  }

  lemma EntryOnTheWay(e: Entry, n: GraphNode, path: seq<string>, parts: seq<string>)
    requires IsTree(e.dir, [n], path + [e.key]) && SomeUnder([n], path + [e.key])
    requires DirectorySegments(n) == Some(parts) && path + [e.key] <= parts && |parts| >= |path| + 3
    ensures Shown(e).fullPath == Join(parts) && Shown(e).name == e.key + "/" + parts[|path| + 1]
    ensures Shown(e).name != Join(parts[|path|..])
  {
    ChainToNode(e, n, path, parts);
    RestOfChain(e, path, parts);
    NameOfChain(e, [n], path);
  }

  /**
   The tree of one file in `src/a/b/c` shows an entry named `a/b` under `src`, though it stands for the directory
   `src/a/b/c`.
   */
  lemma DeepNameStopsShort(root: Dir, n: GraphNode)
    requires IsTree(root, [n], []) && DirectorySegments(n) == Some(["src", "a", "b", "c"])
    ensures |root.children| == 1 && |root.children[0].dir.children| == 1
    ensures var shown := Shown(root.children[0].dir.children[0]);
            shown.name == "a" + "/" + "b" && shown.fullPath == Join(["src", "a", "b", "c"])
  {
    var parts := ["src", "a", "b", "c"];
    OnTheWay(root, n, [], parts);
    var top := root.children[0];
    assert [] + [top.key] == parts[..1];
    OnTheWay(top.dir, n, parts[..1], parts);
    var e := top.dir.children[0];
    assert parts[..1] + [e.key] == parts[..2];
    EntryOnTheWay(e, n, parts[..1], parts);
  }
}
