/** The depth-first enumeration of paths from START, and what it enumerates. */
module PathSearch {
  import opened Common
  import opened GraphConfig

  ghost predicate Within(adj: Adjacency, s: seq<NodeId>) {
    forall n | n in s :: n in Targets(adj)
  }

  ghost function Unvisited(adj: Adjacency, path: seq<NodeId>): set<NodeId> {
    Targets(adj) - set n | n in path
  }

  lemma UnvisitedShrinks(adj: Adjacency, path: seq<NodeId>, next: NodeId)
    requires next in Targets(adj) && next !in path
    ensures |Unvisited(adj, path + [next])| < |Unvisited(adj, path)|
  {
    assert Unvisited(adj, path) == Unvisited(adj, path + [next]) + {next};
    assert next !in Unvisited(adj, path + [next]);
  }

  lemma SuccessorsWithin(adj: Adjacency, a: NodeId)
    ensures Within(adj, Successors(adj, a))
  {
  }

  /** The paths recorded from `current` once `path` has been walked, in the order found. */
  ghost function PathsFrom(adj: Adjacency, target: NodeId, current: NodeId, path: seq<NodeId>): seq<seq<NodeId>>
    decreases |Unvisited(adj, path)|, 1, 0
  {
    if current == target then [path]
    else
      SuccessorsWithin(adj, current);
      PathsThrough(adj, target, Successors(adj, current), path)
  }

  ghost function PathsThrough(adj: Adjacency, target: NodeId, nexts: seq<NodeId>, path: seq<NodeId>): seq<seq<NodeId>>
    requires Within(adj, nexts)
    decreases |Unvisited(adj, path)|, 0, |nexts|
  {
    if nexts == [] then []
    else
      PathsThrough(adj, target, nexts[..|nexts| - 1], path) +
      PathsVia(adj, target, nexts[|nexts| - 1], path)
  }

  ghost function PathsVia(adj: Adjacency, target: NodeId, next: NodeId, path: seq<NodeId>): seq<seq<NodeId>>
    requires next in Targets(adj)
    decreases |Unvisited(adj, path)|, 0, 0
  {
    if next == EndNode || next in path then []
    else
      UnvisitedShrinks(adj, path, next);
      PathsFrom(adj, target, next, path + [next])
  }

  /** The closure `walk` and the list it appends to. */
  class PathCollector {
    const adj: Adjacency
    const target: NodeId
    var paths: seq<seq<NodeId>>

    constructor (adj: Adjacency, target: NodeId)
      ensures this.adj == adj && this.target == target && paths == []
    {
      this.adj, this.target := adj, target;
      paths := [];
    }

    method Walk(current: NodeId, path: seq<NodeId>)
      modifies this
      ensures paths == old(paths) + PathsFrom(adj, target, current, path)
      decreases |Unvisited(adj, path)|, 1
    {
      if current == target {
        paths := paths + [path];
        return;
      }
      var nexts := Successors(adj, current);
      SuccessorsWithin(adj, current);
      for i := 0 to |nexts|
        invariant Within(adj, nexts[..i])
        invariant paths == old(paths) + PathsThrough(adj, target, nexts[..i], path)
      {
        PathsThroughSnoc(adj, target, nexts, i, path);
        ghost var found, more := PathsThrough(adj, target, nexts[..i], path), PathsVia(adj, target, nexts[i], path);
        Enter(nexts[i], path);
        assert paths == (old(paths) + found) + more == old(paths) + (found + more);
      }
      assert nexts[..|nexts|] == nexts;
    }

    /** One round of the loop over the neighbours: END and nodes already on the path are skipped. */
    method Enter(next: NodeId, path: seq<NodeId>)
      requires next in Targets(adj)
      modifies this
      ensures paths == old(paths) + PathsVia(adj, target, next, path)
      decreases |Unvisited(adj, path)|, 0
    {
      if next != EndNode && next !in path {
        UnvisitedShrinks(adj, path, next);
        Walk(next, path + [next]);
      }
    }
  }

  lemma PathsThroughSnoc(adj: Adjacency, target: NodeId, nexts: seq<NodeId>, i: nat, path: seq<NodeId>)
    requires i < |nexts| && Within(adj, nexts)
    ensures Within(adj, nexts[..i]) && Within(adj, nexts[..i + 1]) && nexts[i] in Targets(adj)
    ensures PathsThrough(adj, target, nexts[..i + 1], path) ==
            PathsThrough(adj, target, nexts[..i], path) + PathsVia(adj, target, nexts[i], path)
  {
    assert nexts[i] in nexts;
    assert nexts[..i + 1][..i] == nexts[..i];
  }

  // ------------------------------------------------ soundness and completeness

  /** Where the search stands after walking `path`. */
  ghost function Here(path: seq<NodeId>): NodeId {
    if path == [] then StartNode else path[|path| - 1]
  }

  ghost predicate Extends(q: seq<NodeId>, path: seq<NodeId>) {
    path <= q
  }

  ghost predicate Partial(adj: Adjacency, path: seq<NodeId>) {
    IsWalk(adj, StartNode, path) && Distinct(path)
  }

  lemma PartialStep(adj: Adjacency, path: seq<NodeId>, next: NodeId)
    requires Partial(adj, path) && next != EndNode && next !in path && HasEdge(adj, Here(path), next)
    ensures Partial(adj, path + [next])
  {
    var q := path + [next];
    forall i | 0 <= i < |q| ensures Hop(adj, StartNode, q, i) {
      if i < |path| {
        assert Hop(adj, StartNode, path, i);
      }
    }
  }

  /** On a simple path every node is new when it is entered, so the target is entered last. */
  lemma SimplePathEntersFresh(adj: Adjacency, target: NodeId, q: seq<NodeId>, k: nat)
    requires IsSimplePath(adj, target, q) && k < |q|
    ensures q[k] != EndNode && q[k] !in q[..k]
    ensures HasEdge(adj, Here(q[..k]), q[k])
    ensures q[k] == target ==> k == |q| - 1
  {
    assert Hop(adj, StartNode, q, k);
  }

  /** From a partial path that has not reached the target, the search records exactly the
      simple paths that extend it. */
  lemma {:induction false} PathsFromExact(adj: Adjacency, target: NodeId, path: seq<NodeId>, q: seq<NodeId>)
    requires Partial(adj, path) && (path == [] ==> target != StartNode)
    ensures q in PathsFrom(adj, target, Here(path), path) <==> Extends(q, path) && IsSimplePath(adj, target, q)
    decreases |Unvisited(adj, path)|, 1, 0
  {
    var current := Here(path);
    if current == target {
      assert IsSimplePath(adj, target, path);
      if Extends(q, path) && IsSimplePath(adj, target, q) {
        SimplePathEntersFresh(adj, target, q, |path| - 1);
        assert q == path;
      }
      assert PathsFrom(adj, target, current, path) == [path];
    } else {
      SuccessorsWithin(adj, current);
      PathsThroughExact(adj, target, Successors(adj, current), path, q);
      if Extends(q, path) && IsSimplePath(adj, target, q) {
        SimplePathEntersFresh(adj, target, q, |path|);
        assert q[..|path|] == path;
      }
    }
  }

  lemma {:induction false} PathsThroughExact(adj: Adjacency, target: NodeId, nexts: seq<NodeId>,
                                             path: seq<NodeId>, q: seq<NodeId>)
    requires Partial(adj, path) && Within(adj, nexts)
    requires forall n | n in nexts :: HasEdge(adj, Here(path), n)
    ensures q in PathsThrough(adj, target, nexts, path)
       <==> Extends(q, path) && |q| > |path| && q[|path|] in nexts && IsSimplePath(adj, target, q)
    decreases |Unvisited(adj, path)|, 0, |nexts|
  {
    if nexts != [] {
      var front, next := nexts[..|nexts| - 1], nexts[|nexts| - 1];
      assert forall n :: n in nexts <==> n in front || n == next;
      PathsThroughExact(adj, target, front, path, q);
      if Extends(q, path) && |q| > |path| && IsSimplePath(adj, target, q) {
        SimplePathEntersFresh(adj, target, q, |path|);
        assert q[..|path|] == path;
      }
      if next != EndNode && next !in path {
        PartialStep(adj, path, next);
        UnvisitedShrinks(adj, path, next);
        PathsFromExact(adj, target, path + [next], q);
        assert Extends(q, path + [next]) <==> Extends(q, path) && |q| > |path| && q[|path|] == next;
      }
    }
  }

  /** The paths reported for a target other than START are exactly the simple ones. */
  lemma PathsAreTheSimplePaths(adj: Adjacency, target: NodeId, q: seq<NodeId>)
    requires target != StartNode
    ensures q in PathsFrom(adj, target, StartNode, []) <==> IsSimplePath(adj, target, q)
  {
    PathsFromExact(adj, target, [], q);
  }

  method PathsToTarget(adj: Adjacency, target: NodeId) returns (paths: seq<seq<NodeId>>)
    ensures paths == PathsFrom(adj, target, StartNode, [])
    ensures target != StartNode ==> forall q :: q in paths <==> IsSimplePath(adj, target, q)
  {
    var collector := new PathCollector(adj, target);
    collector.Walk(StartNode, []);
    paths := collector.paths;
    if target != StartNode {
      forall q ensures q in paths <==> IsSimplePath(adj, target, q) {
        PathsAreTheSimplePaths(adj, target, q);
      }
    }
  }
}
