/** A configuration the validator accepts although one of its walks lets a human-approved,
    repository-writing node run before the readiness gate. */
module GraphDetour {
  import opened Common
  import opened GraphConfig
  import opened PathSearch
  import opened GraphValidator

  const DRAFT := Named("draft")

  /** The success path of the protected profile. */
  const CHAIN: seq<NodeId> :=
    [LoadConstitution, CreateFeatureSpec, Clarify, CreatePlan, CreateTaskList, ReadinessGate,
     Coder, Tester, Reviewer, PrePrSync, PrCreator]

  function SystemNode(id: NodeId): Node {
    Node(id, id, SystemHandler, id == Coder, false)
  }

  /** The chain, plus a node that create_plan calls and that returns to create_plan. */
  const LINKS: seq<(NodeId, NodeId)> :=
    [(StartNode, LoadConstitution), (LoadConstitution, CreateFeatureSpec), (CreateFeatureSpec, Clarify),
     (Clarify, CreatePlan), (CreatePlan, CreateTaskList), (CreateTaskList, ReadinessGate),
     (ReadinessGate, Coder), (Coder, Tester), (Tester, Reviewer), (Reviewer, PrePrSync),
     (PrePrSync, PrCreator), (CreatePlan, DRAFT), (DRAFT, CreatePlan)]

  ghost function Edges(links: seq<(NodeId, NodeId)>): seq<Edge> {
    seq(|links|, i requires 0 <= i < |links| => Edge(links[i].0, links[i].1, Success, None))
  }

  ghost const DETOUR := Config(
    seq(12, i requires 0 <= i < 12 => SystemNode(REQUIRED_SYSTEM_NODES[i]))
      + [Node(DRAFT, DRAFT, TenantConfigurable, true, true)],
    Edges(LINKS), REQUIRED_SYSTEM_NODES + [DRAFT])

  function DetourRegistry(): Registry {
    (map id | id in REQUIRED_SYSTEM_NODES :: SystemHandler)[DRAFT := TenantConfigurable]
  }

  lemma LinksConnect(a: NodeId, b: NodeId)
    ensures HasEdge(AdjacencyOf(DETOUR.edges), a, b) <==> (a, b) in LINKS
  {
    AdjacencyIsTheEdgeRelation(DETOUR.edges, a, b);
    if Connects(DETOUR.edges, a, b) {
      var e :| e in Edges(LINKS) && e.source == a && e.target == b;
      var i :| 0 <= i < |LINKS| && Edges(LINKS)[i] == e;
      assert LINKS[i] == (a, b);
    }
    if (a, b) in LINKS {
      var i :| 0 <= i < |LINKS| && LINKS[i] == (a, b);
      assert Edges(LINKS)[i] in Edges(LINKS);
    }
  }

  /** Position k of the chain is left along the chain, or from create_plan to the draft. */
  lemma ChainLinks(k: nat, b: NodeId)
    requires k < |CHAIN| && (CHAIN[k], b) in LINKS
    ensures k + 1 < |CHAIN| && (b == CHAIN[k + 1] || (k == 3 && b == DRAFT))
  {
  }

  /** The chain is the only simple path: one that leaves through the draft can only come back to
      a node it has already visited. */
  lemma {:induction false} OnlyTheChain(p: seq<NodeId>, k: nat)
    requires PrPath(DETOUR, p) && k < |p|
    ensures k < |CHAIN| && p[k] == CHAIN[k]
  {
    var adj := AdjacencyOf(DETOUR.edges);
    assert Hop(adj, StartNode, p, k);
    if k == 0 {
      LinksConnect(StartNode, p[0]);
    } else {
      OnlyTheChain(p, k - 1);
      LinksConnect(p[k - 1], p[k]);
      ChainLinks(k - 1, p[k]);
      if p[k] == DRAFT {
        NoReturnFromDraft(p, k);
      }
    }
  }

  lemma NoReturnFromDraft(p: seq<NodeId>, k: nat)
    requires PrPath(DETOUR, p) && 0 < k < |p| && p[k - 1] == CreatePlan
    ensures p[k] != DRAFT
  {
    if k + 1 < |p| {
      var adj := AdjacencyOf(DETOUR.edges);
      SimplePathEntersFresh(adj, PrCreator, p, k + 1);
      assert p[..k + 1][k - 1] == CreatePlan;
      assert Hop(adj, StartNode, p, k + 1);
      LinksConnect(p[k], p[k + 1]);
    }
  }

  lemma ChainIsAPath()
    ensures PrPath(DETOUR, CHAIN)
  {
    var adj := AdjacencyOf(DETOUR.edges);
    forall k | 0 <= k < |CHAIN| ensures Hop(adj, StartNode, CHAIN, k) {
      LinksConnect(if k == 0 then StartNode else CHAIN[k - 1], CHAIN[k]);
    }
  }

  lemma PrPathIsTheChain(p: seq<NodeId>)
    requires PrPath(DETOUR, p)
    ensures p == CHAIN
  {
    forall k | 0 <= k < |p| ensures k < |CHAIN| && p[k] == CHAIN[k] {
      OnlyTheChain(p, k);
    }
  }

  lemma DetourNodes(n: Node)
    requires n in DETOUR.nodes
    ensures n.nodeId in REQUIRED_SYSTEM_NODES ==> n == SystemNode(n.nodeId)
    ensures n.nodeId !in REQUIRED_SYSTEM_NODES ==> n == Node(DRAFT, DRAFT, TenantConfigurable, true, true)
  {
    var i :| 0 <= i < |DETOUR.nodes| && DETOUR.nodes[i] == n;
  }

  lemma AllDefined(id: NodeId)
    requires id in REQUIRED_SYSTEM_NODES || id == DRAFT
    ensures Defined(DETOUR.nodes, id)
  {
    if id == DRAFT {
      assert DETOUR.nodes[12].nodeId == DRAFT;
    } else {
      var i :| 0 <= i < 12 && REQUIRED_SYSTEM_NODES[i] == id;
      assert DETOUR.nodes[i].nodeId == id;
    }
  }

  lemma LinksAreDefined(a: NodeId, b: NodeId)
    requires (a, b) in LINKS
    ensures (a == StartNode || a in REQUIRED_SYSTEM_NODES || a == DRAFT) && (b in REQUIRED_SYSTEM_NODES || b == DRAFT)
  {
  }

  lemma DetourNodeHasNoFault(i: nat, e: CompileError)
    requires i < |DETOUR.nodes|
    ensures !NodeFault(DETOUR.nodes, i, DETOUR.routeHandlers, DetourRegistry(), e)
  {
    var n := DETOUR.nodes[i];
    DetourNodes(n);
    forall j | 0 <= j < i ensures DETOUR.nodes[j].nodeId != n.nodeId {
      assert DETOUR.nodes[j].nodeId == REQUIRED_SYSTEM_NODES[j];
    }
    assert n.handlerName == DETOUR.routeHandlers[i];
  }

  lemma DetourEdgeHasNoFault(edge: Edge, e: CompileError)
    requires edge in DETOUR.edges
    ensures !EdgeFault(DETOUR.nodes, edge, e)
  {
    var i :| 0 <= i < |LINKS| && Edges(LINKS)[i] == edge;
    assert (edge.source, edge.target) in LINKS;
    LinksAreDefined(edge.source, edge.target);
    AllDefined(edge.target);
    if edge.source != StartNode {
      AllDefined(edge.source);
    }
  }

  lemma DetourCompiles()
    ensures Compiles(DETOUR, DetourRegistry())
  {
    forall e ensures !CompileFault(DETOUR, DetourRegistry(), e) {
      forall i | 0 <= i < |DETOUR.nodes|
        ensures !NodeFault(DETOUR.nodes, i, DETOUR.routeHandlers, DetourRegistry(), e)
      {
        DetourNodeHasNoFault(i, e);
      }
      forall edge | edge in DETOUR.edges ensures !EdgeFault(DETOUR.nodes, edge, e) {
        DetourEdgeHasNoFault(edge, e);
      }
    }
  }

  lemma DetourHasNoFault(e: InvariantError)
    ensures !InvariantFault(DETOUR, e)
  {
    forall id | id in REQUIRED_SYSTEM_NODES ensures !RequiredNodeFault(DETOUR.nodes, id, e) {
      AllDefined(id);
      forall n | n in DETOUR.nodes ensures n.nodeId == id ==> n == SystemNode(id) {
        DetourNodes(n);
      }
    }
    ChainIsAPath();
    forall p | PrPath(DETOUR, p) ensures !PathFault(DETOUR.nodes, p, e) {
      PrPathIsTheChain(p);
      forall n | n in DETOUR.nodes ensures n.nodeId in p ==> !n.isHumanApproval {
        DetourNodes(n);
      }
    }
  }

  lemma DetourHasNoEarlyWrite(id: NodeId)
    ensures !ProtectedPathViolation(DETOUR, id)
  {
    forall p | PrPath(DETOUR, p) ensures !EarlyWrite(DETOUR.nodes, p, id) {
      PrPathIsTheChain(p);
      forall n | n in DETOUR.nodes && n.writesRepo ensures n.nodeId == Coder || n.nodeId == DRAFT {
        DetourNodes(n);
      }
      assert CHAIN[..7][5] == ReadinessGate;
    }
  }

  lemma DetourIsAccepted()
    ensures Accepted(DETOUR, DetourRegistry(), {})
  {
    DetourCompiles();
    forall e ensures !InvariantFault(DETOUR, e) {
      DetourHasNoFault(e);
    }
    forall id ensures !ProtectedPathViolation(DETOUR, id) {
      DetourHasNoEarlyWrite(id);
    }
    forall r ensures !MissingSink(DETOUR.edges, {}, r) {
      forall edge | edge in DETOUR.edges ensures !LacksSink(edge, {}, r) {
        var i :| 0 <= i < |LINKS| && Edges(LINKS)[i] == edge;
      }
    }
  }

  lemma DetourWalk() returns (w: seq<NodeId>)
    ensures WalksTo(AdjacencyOf(DETOUR.edges), StartNode, PrCreator, w)
    ensures |w| > 4 && w[4] == DRAFT && BeforeGate(w, 4)
  {
    w := [LoadConstitution, CreateFeatureSpec, Clarify, CreatePlan, DRAFT, CreatePlan, CreateTaskList,
          ReadinessGate, Coder, Tester, Reviewer, PrePrSync, PrCreator];
    var adj := AdjacencyOf(DETOUR.edges);
    forall k | 0 <= k < |w| ensures Hop(adj, StartNode, w, k) {
      var a := if k == 0 then StartNode else w[k - 1];
      LinksConnect(a, w[k]);
    }
  }

  /** Acceptance does not bound what a walk with a cycle does before the gate. */
  lemma AcceptedGraphWritesBeforeGate() returns (w: seq<NodeId>)
    ensures Accepted(DETOUR, DetourRegistry(), {})
    ensures WalksTo(AdjacencyOf(DETOUR.edges), StartNode, PrCreator, w)
    ensures |w| > 4 && w[4] == DRAFT && BeforeGate(w, 4) && Writes(DETOUR, DRAFT)
    ensures Approves(DETOUR, DRAFT)
    ensures !GateGuardsEachWriter(DETOUR) && !NoApprovalLeadsOn(DETOUR)
  {
    DetourIsAccepted();
    w := DetourWalk();
    var n := DETOUR.nodes[12];
    assert n.nodeId == DRAFT && n.writesRepo && n.isHumanApproval;
    WalkGuardIsPathGuard(DETOUR);
    WalksMeetNoApprovalIff(DETOUR);
  }
}
