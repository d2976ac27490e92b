/** Bounded breadth-first search over the directed edges of the visible graph, against walks. */
module StellarDepths {

  const MAX_FLOW_DEPTH: nat := 4

  type Adjacency = map<int, seq<int>>

  function Neighbors(adjacency: Adjacency, v: int): seq<int> {
    if v in adjacency then adjacency[v] else []
  }

  predicate IsStep(adjacency: Adjacency, u: int, v: int) { v in Neighbors(adjacency, u) }

  /** A walk along the edges, as its vertices. */
  ghost predicate IsWalk(adjacency: Adjacency, path: seq<int>) {
    path != [] && forall i | 0 <= i < |path| - 1 :: IsStep(adjacency, path[i], path[i + 1])
  }

  /** Some walk of `n` edges leads from `start` to `v`. */
  ghost predicate Reaches(adjacency: Adjacency, start: int, v: int, n: nat)
    decreases n
  {
    if n == 0 then v == start else exists u :: Reaches(adjacency, start, u, n - 1) && IsStep(adjacency, u, v)
  }

  /** The shortest walk from `start` to `v` has `d` edges. */
  ghost predicate IsDistance(adjacency: Adjacency, start: int, v: int, d: nat) {
    Reaches(adjacency, start, v, d) && forall e: nat | e < d :: !Reaches(adjacency, start, v, e)
  }

  ghost predicate WalkFromTo(adjacency: Adjacency, path: seq<int>, start: int, v: int, n: nat) {
    IsWalk(adjacency, path) && |path| == n + 1 && path[0] == start && path[n] == v
  }

  lemma {:induction false} WalkOfReach(adjacency: Adjacency, start: int, v: int, n: nat) returns (path: seq<int>)
    requires Reaches(adjacency, start, v, n)
    ensures WalkFromTo(adjacency, path, start, v, n)
    decreases n
  {
    if n == 0 {
      path := [v];
    } else {
      var u :| Reaches(adjacency, start, u, n - 1) && IsStep(adjacency, u, v);
      var before := WalkOfReach(adjacency, start, u, n - 1);
      path := before + [v];
      assert forall i | 0 <= i < n :: path[i] == before[i];
    }
  }

  lemma {:induction false} ReachOfWalk(adjacency: Adjacency, path: seq<int>, start: int, v: int, n: nat)
    requires WalkFromTo(adjacency, path, start, v, n)
    ensures Reaches(adjacency, start, v, n)
    decreases n
  {
    if n > 0 {
      var before := path[..n];
      assert forall i | 0 <= i < n :: path[i] == before[i];
      ReachOfWalk(adjacency, before, start, path[n - 1], n - 1);
      assert IsStep(adjacency, path[n - 1], path[n]);
    }
  }

  /** Distances are the lengths of shortest walks. */
  lemma DistanceByWalks(adjacency: Adjacency, start: int, v: int, d: nat)
    ensures IsDistance(adjacency, start, v, d) <==>
            && (exists path :: WalkFromTo(adjacency, path, start, v, d))
            && (forall path, e: nat | e < d :: !WalkFromTo(adjacency, path, start, v, e))
  {
    if IsDistance(adjacency, start, v, d) {
      var path := WalkOfReach(adjacency, start, v, d);
      forall p, e: nat | e < d ensures !WalkFromTo(adjacency, p, start, v, e) {
        if WalkFromTo(adjacency, p, start, v, e) {
          ReachOfWalk(adjacency, p, start, v, e);
        }
      }
    }
    if path :| WalkFromTo(adjacency, path, start, v, d) {
      ReachOfWalk(adjacency, path, start, v, d);
      if e: nat :| e < d && Reaches(adjacency, start, v, e) {
        var p := WalkOfReach(adjacency, start, v, e);
      }
    }
  }

  /** The vertex before the last of a shortest walk is one edge nearer. */
  lemma DistancePredecessor(adjacency: Adjacency, start: int, v: int, d: nat) returns (u: int)
    requires d > 0 && IsDistance(adjacency, start, v, d)
    ensures IsDistance(adjacency, start, u, d - 1) && IsStep(adjacency, u, v)
  {
    u :| Reaches(adjacency, start, u, d - 1) && IsStep(adjacency, u, v);
    forall e: nat | e < d - 1 ensures !Reaches(adjacency, start, u, e) {
      if Reaches(adjacency, start, u, e) {
        assert Reaches(adjacency, start, v, e + 1);
      }
    }
  }

  lemma DistanceUnique(adjacency: Adjacency, start: int, v: int, d: nat, e: nat)
    requires IsDistance(adjacency, start, v, d) && IsDistance(adjacency, start, v, e)
    ensures d == e
  {
  }

  lemma {:induction false} Least(adjacency: Adjacency, start: int, v: int, n: nat) returns (e: nat)
    requires Reaches(adjacency, start, v, n)
    ensures e <= n && IsDistance(adjacency, start, v, e)
  {
    if e' : nat :| e' < n && Reaches(adjacency, start, v, e') {
      e := Least(adjacency, start, v, e');
    } else {
      e := n;
    }
  }

  /** An edge leads at most one farther: the far end is already known, or its distance is the next one. */
  lemma EdgeDistance(adjacency: Adjacency, start: int, u: int, v: int, d: nat)
    requires IsDistance(adjacency, start, u, d) && IsStep(adjacency, u, v)
    ensures IsDistance(adjacency, start, v, d + 1) || exists e: nat :: e <= d && IsDistance(adjacency, start, v, e)
  {
    assert Reaches(adjacency, start, v, d + 1);
    var e := Least(adjacency, start, v, d + 1);
  }

  /** With nobody at distance `d` there is nobody beyond. */
  lemma {:induction false} NobodyBeyond(adjacency: Adjacency, start: int, d: nat, e: nat)
    requires d <= e && forall v :: !IsDistance(adjacency, start, v, d)
    ensures forall v :: !IsDistance(adjacency, start, v, e)
  {
    if d < e {
      NobodyBeyond(adjacency, start, d, e - 1);
      forall v ensures !IsDistance(adjacency, start, v, e) {
        if IsDistance(adjacency, start, v, e) {
          var u := DistancePredecessor(adjacency, start, v, e);
          assert false;
        }
      }
    }
  }

  /** `depths` holds exactly the vertices nearer than `bound`, each with its distance. */
  ghost predicate KnowsBelow(depths: map<int, nat>, adjacency: Adjacency, start: int, bound: nat) {
    && (forall v | v in depths :: depths[v] < bound && IsDistance(adjacency, start, v, depths[v]))
    && (forall v, d: nat | d < bound && IsDistance(adjacency, start, v, d) :: v in depths)
  }

  ghost predicate IsFrontier(frontier: seq<int>, adjacency: Adjacency, start: int, d: nat) {
    forall v :: v in frontier <==> IsDistance(adjacency, start, v, d)
  }

  /** The vertices added while the frontier is expanded: new neighbours of the part of it already visited. */
  ghost predicate Expanded(before: map<int, nat>, after: map<int, nat>, next: seq<int>, depth: nat) {
    && (forall v | v in before :: v in after && after[v] == before[v])
    && (forall v :: v in next <==> v in after && v !in before)
    && (forall v | v in next :: after[v] == depth)
  }

  /** Visits the neighbours of one vertex of the frontier. */
  method Expand(neighbors: seq<int>, depth: nat, ghost before: map<int, nat>, depths: map<int, nat>, next: seq<int>)
    returns (depths': map<int, nat>, next': seq<int>)
    requires Expanded(before, depths, next, depth)
    ensures Expanded(before, depths', next', depth)
    ensures depths'.Keys == depths.Keys + (set v | v in neighbors)
  {
    depths', next' := depths, next;
    for j := 0 to |neighbors|
      invariant Expanded(before, depths', next', depth)
      invariant depths'.Keys == depths.Keys + (set v | v in neighbors[..j])
    {
      var neighbor := neighbors[j];
      assert neighbors[..j + 1] == neighbors[..j] + [neighbor];
      if neighbor !in depths' {
        depths' := depths'[neighbor := depth];
        next' := next' + [neighbor];
      }
    }
    assert neighbors[..|neighbors|] == neighbors;
  }

  ghost predicate HasStepFrom(adjacency: Adjacency, visited: seq<int>, v: int) {
    exists u :: u in visited && IsStep(adjacency, u, v)
  }

  /** Just the neighbours of the visited vertices have been added. */
  ghost predicate Visited(adjacency: Adjacency, visited: seq<int>, before: map<int, nat>, after: map<int, nat>) {
    forall v :: v in after <==> v in before || HasStepFrom(adjacency, visited, v)
  }

  lemma StepFromMore(adjacency: Adjacency, part: seq<int>, next: int, v: int)
    ensures HasStepFrom(adjacency, part + [next], v) <==> HasStepFrom(adjacency, part, v) || IsStep(adjacency, next, v)
  {
    assert forall u :: u in part + [next] <==> u in part || u == next;
  }

  lemma OneMoreVisited(adjacency: Adjacency, frontier: seq<int>, i: nat,
                       before: map<int, nat>, was: map<int, nat>, now: map<int, nat>)
    requires i < |frontier| && Visited(adjacency, frontier[..i], before, was)
    requires now.Keys == was.Keys + (set v | v in Neighbors(adjacency, frontier[i]))
    ensures Visited(adjacency, frontier[..i + 1], before, now)
  {
    assert frontier[..i + 1] == frontier[..i] + [frontier[i]];
    forall v ensures v in now <==> v in before || HasStepFrom(adjacency, frontier[..i + 1], v) {
      StepFromMore(adjacency, frontier[..i], frontier[i], v);
      assert v in now.Keys <==> v in was.Keys || v in Neighbors(adjacency, frontier[i]);
    }
  }

  lemma NewIsNext(adjacency: Adjacency, start: int, depth: nat, frontier: seq<int>, before: map<int, nat>, v: int)
    requires depth > 0 && KnowsBelow(before, adjacency, start, depth)
             && IsFrontier(frontier, adjacency, start, depth - 1)
    requires v !in before && HasStepFrom(adjacency, frontier, v)
    ensures IsDistance(adjacency, start, v, depth)
  {
    var u :| u in frontier && IsStep(adjacency, u, v);
    EdgeDistance(adjacency, start, u, v, depth - 1);
  }

  lemma NextIsNew(adjacency: Adjacency, start: int, depth: nat, frontier: seq<int>, before: map<int, nat>, v: int)
    requires depth > 0 && KnowsBelow(before, adjacency, start, depth)
             && IsFrontier(frontier, adjacency, start, depth - 1)
    requires IsDistance(adjacency, start, v, depth)
    ensures v !in before && HasStepFrom(adjacency, frontier, v)
  {
    var u := DistancePredecessor(adjacency, start, v, depth);
    if v in before {
      DistanceUnique(adjacency, start, v, depth, before[v]);
    }
  }

  /** One level: the new vertices are exactly those at the next distance. */
  lemma LevelDone(adjacency: Adjacency, start: int, depth: nat, frontier: seq<int>,
                  before: map<int, nat>, after: map<int, nat>, next: seq<int>)
    requires depth > 0 && KnowsBelow(before, adjacency, start, depth)
             && IsFrontier(frontier, adjacency, start, depth - 1)
    requires Expanded(before, after, next, depth)
    requires Visited(adjacency, frontier, before, after)
    ensures KnowsBelow(after, adjacency, start, depth + 1) && IsFrontier(next, adjacency, start, depth)
  {
    forall v ensures v in next <==> IsDistance(adjacency, start, v, depth) {
      if v in next {
        NewIsNext(adjacency, start, depth, frontier, before, v);
      }
      if IsDistance(adjacency, start, v, depth) {
        NextIsNew(adjacency, start, depth, frontier, before, v);
      }
    }
  }

  /** Visits the whole frontier. */
  method ExpandLevel(adjacency: Adjacency, frontier: seq<int>, depth: nat, before: map<int, nat>)
    returns (depths: map<int, nat>, next: seq<int>)
    ensures Expanded(before, depths, next, depth) && Visited(adjacency, frontier, before, depths)
  {
    depths, next := before, [];
    for i := 0 to |frontier|
      invariant Expanded(before, depths, next, depth)
      invariant Visited(adjacency, frontier[..i], before, depths)
    {
      ghost var was := depths;
      depths, next := Expand(Neighbors(adjacency, frontier[i]), depth, before, depths, next);
      OneMoreVisited(adjacency, frontier, i, before, was, depths);
    }
    assert frontier[..|frontier|] == frontier;
  }

  lemma StartKnown(adjacency: Adjacency, start: int)
    ensures KnowsBelow(map[start := 0], adjacency, start, 1) && IsFrontier([start], adjacency, start, 0)
  {
  }

  lemma AllKnown(adjacency: Adjacency, start: int, depths: map<int, nat>, frontier: seq<int>, depth: nat)
    requires 1 <= depth && KnowsBelow(depths, adjacency, start, depth)
             && IsFrontier(frontier, adjacency, start, depth - 1)
    requires depth == MAX_FLOW_DEPTH + 1 || frontier == []
    ensures forall v, d: nat | d <= MAX_FLOW_DEPTH && IsDistance(adjacency, start, v, d) ::
              v in depths && depths[v] == d
  {
    forall v, d: nat | d <= MAX_FLOW_DEPTH && IsDistance(adjacency, start, v, d)
      ensures v in depths && depths[v] == d
    {
      if d >= depth {
        assert forall u :: u !in frontier;
        NobodyBeyond(adjacency, start, depth - 1, d);
        assert false;
      } else {
        DistanceUnique(adjacency, start, v, d, depths[v]);
      }
    }
  }

  /** The shortest directed distances up to four from `start`, and nothing else. */
  method BreadthFirstDepths(start: int, adjacency: Adjacency) returns (depths: map<int, nat>)
    ensures forall v | v in depths :: depths[v] <= MAX_FLOW_DEPTH && IsDistance(adjacency, start, v, depths[v])
    ensures forall v, d: nat | d <= MAX_FLOW_DEPTH && IsDistance(adjacency, start, v, d) ::
              v in depths && depths[v] == d
  {
    depths := map[start := 0];
    var frontier := [start];
    StartKnown(adjacency, start);
    var depth := 1;
    while depth <= MAX_FLOW_DEPTH && |frontier| > 0
      invariant 1 <= depth <= MAX_FLOW_DEPTH + 1
      invariant KnowsBelow(depths, adjacency, start, depth)
      invariant IsFrontier(frontier, adjacency, start, depth - 1)
      decreases MAX_FLOW_DEPTH + 1 - depth
    {
      var deeper, next := ExpandLevel(adjacency, frontier, depth, depths);
      LevelDone(adjacency, start, depth, frontier, depths, deeper, next);
      depths, frontier := deeper, next;
      depth := depth + 1;
    }
    AllKnown(adjacency, start, depths, frontier, depth);
  }
}
