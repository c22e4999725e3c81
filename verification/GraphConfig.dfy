/** The graph configuration a tenant submits, and the walks it allows. */
module GraphConfig {
  import opened Common

  /** Node ids and handler names are strings in the source; the reserved ones are constructors
      here and every other string s is Named(s). */
  datatype NodeId =
    | StartNode | EndNode
    | LoadConstitution | CreateFeatureSpec | Clarify | CreatePlan | CreateTaskList
    | ReadinessGate | Coder | Tester | Reviewer | PrePrSync | PrCreator | Escalate
    | Named(name: string)

  const REQUIRED_SYSTEM_NODES: seq<NodeId> :=
    [LoadConstitution, CreateFeatureSpec, Clarify, CreatePlan, CreateTaskList, ReadinessGate,
     Coder, Tester, Reviewer, PrePrSync, PrCreator, Escalate]

  const REQUIRED_PR_PATH_NODES: seq<NodeId> :=
    [ReadinessGate, Coder, Tester, Reviewer, PrePrSync, PrCreator]

  datatype HandlerKind = SystemHandler | TenantConfigurable
  datatype Transition = Success | Retry | Escalation | Terminal | BreakGlass

  datatype Node = Node(nodeId: NodeId, handlerName: NodeId, handlerKind: HandlerKind,
                       writesRepo: bool, isHumanApproval: bool)
  datatype Edge = Edge(source: NodeId, target: NodeId, transition: Transition,
                       escalationReason: Option<string>)

  /** The only invariant profile the type admits is the protected one. */
  datatype Config = Config(nodes: seq<Node>, edges: seq<Edge>, routeHandlers: seq<NodeId>)

  type Adjacency = map<NodeId, seq<NodeId>>

  ghost predicate HasEdge(adj: Adjacency, a: NodeId, b: NodeId) {
    a in adj && b in adj[a]
  }

  function Successors(adj: Adjacency, a: NodeId): seq<NodeId> {
    if a in adj then adj[a] else []
  }

  /** Every node some edge leads to. */
  ghost function Targets(adj: Adjacency): set<NodeId> {
    set a, b | a in adj && b in adj[a] :: b
  }

  function AddEdge(adj: Adjacency, e: Edge): Adjacency {
    adj[e.source := Successors(adj, e.source) + [e.target]]
  }

  function AdjacencyOf(edges: seq<Edge>): Adjacency {
    if edges == [] then map[]
    else AddEdge(AdjacencyOf(edges[..|edges| - 1]), edges[|edges| - 1])
  }

  /** Some edge of the configuration leads from a to b. */
  ghost predicate Connects(edges: seq<Edge>, a: NodeId, b: NodeId) {
    exists e :: e in edges && e.source == a && e.target == b
  }

  lemma {:induction false} AdjacencyIsTheEdgeRelation(edges: seq<Edge>, a: NodeId, b: NodeId)
    ensures HasEdge(AdjacencyOf(edges), a, b) <==> Connects(edges, a, b)
  {
    if edges != [] {
      var front, last := edges[..|edges| - 1], edges[|edges| - 1];
      calc {
        HasEdge(AdjacencyOf(edges), a, b);
      == { assert AdjacencyOf(edges) == AddEdge(AdjacencyOf(front), last); }
        HasEdge(AddEdge(AdjacencyOf(front), last), a, b);
      == { AddEdgeAddsOne(AdjacencyOf(front), last, a, b); }
        HasEdge(AdjacencyOf(front), a, b) || (last.source == a && last.target == b);
      == { AdjacencyIsTheEdgeRelation(front, a, b); }
        Connects(front, a, b) || (last.source == a && last.target == b);
      == { ConnectsSnoc(front, last, a, b); assert edges == front + [last]; }
        Connects(edges, a, b);
      }
    }
  }

  lemma ConnectsSnoc(front: seq<Edge>, last: Edge, a: NodeId, b: NodeId)
    ensures Connects(front + [last], a, b) <==> Connects(front, a, b) || (last.source == a && last.target == b)
  {
    if Connects(front, a, b) {
      var e :| e in front && e.source == a && e.target == b;
      assert e in front + [last];
    }
    assert last in front + [last];
  }

  lemma AddEdgeAddsOne(adj: Adjacency, e: Edge, a: NodeId, b: NodeId)
    ensures HasEdge(AddEdge(adj, e), a, b) <==> HasEdge(adj, a, b) || (e.source == a && e.target == b)
  {
  }

  // ---------------------------------------------------------------- walks

  /** w lists the nodes visited after leaving `from`; nodes may repeat, END is never entered. */
  ghost predicate IsWalk(adj: Adjacency, from: NodeId, w: seq<NodeId>) {
    forall i | 0 <= i < |w| :: Hop(adj, from, w, i)
  }

  ghost predicate Hop(adj: Adjacency, from: NodeId, w: seq<NodeId>, i: nat)
    requires i < |w|
  {
    w[i] != EndNode && HasEdge(adj, if i == 0 then from else w[i - 1], w[i])
  }

  ghost predicate WalksTo(adj: Adjacency, from: NodeId, target: NodeId, w: seq<NodeId>) {
    IsWalk(adj, from, w) && |w| > 0 && w[|w| - 1] == target
  }

  ghost predicate IsSimplePath(adj: Adjacency, target: NodeId, p: seq<NodeId>) {
    WalksTo(adj, StartNode, target, p) && Distinct(p)
  }

  lemma WalkConcat(adj: Adjacency, from: NodeId, mid: NodeId, u: seq<NodeId>, v: seq<NodeId>)
    requires WalksTo(adj, from, mid, u) && IsWalk(adj, mid, v)
    ensures IsWalk(adj, from, u + v)
  {
    forall i | 0 <= i < |u + v|
      ensures Hop(adj, from, u + v, i)
    {
      if i < |u| {
        assert Hop(adj, from, u, i);
      } else {
        assert Hop(adj, mid, v, i - |u|);
      }
    }
  }

  lemma WalkSplit(adj: Adjacency, from: NodeId, w: seq<NodeId>, k: nat)
    requires k < |w| && IsWalk(adj, from, w)
    ensures WalksTo(adj, from, w[k], w[..k + 1]) && IsWalk(adj, w[k], w[k + 1..])
  {
    var u, v := w[..k + 1], w[k + 1..];
    forall i | 0 <= i < |u| ensures Hop(adj, from, u, i) {
      assert Hop(adj, from, w, i);
    }
    forall i | 0 <= i < |v| ensures Hop(adj, w[k], v, i) {
      assert Hop(adj, from, w, k + 1 + i);
    }
  }

  /** Cutting the cycles out of a walk leaves a walk to the same target through nodes of the
      original only. */
  lemma {:induction false} EraseLoops(adj: Adjacency, from: NodeId, target: NodeId, w: seq<NodeId>)
    returns (p: seq<NodeId>)
    requires WalksTo(adj, from, target, w)
    ensures WalksTo(adj, from, target, p) && Distinct(p)
    ensures forall n | n in p :: n in w
    decreases |w|
  {
    if Distinct(w) {
      p := w;
    } else {
      var i, j :| 0 <= i < j < |w| && w[i] == w[j];
      var u, v := w[..i + 1], w[j + 1..];
      WalkSplit(adj, from, w, i);
      WalkSplit(adj, from, w, j);
      WalkConcat(adj, from, w[i], u, v);
      p := EraseLoops(adj, from, target, u + v);
    }
  }
}
