/** The validator of graph configurations: what it reports, and what acceptance means for
    every walk through the graph. */
module GraphValidator {
  import opened Common
  import opened GraphConfig
  import opened PathSearch

  datatype CompileError =
    | DuplicateNode(id: NodeId)
    | UnknownHandler(id: NodeId, handler: NodeId)
    | HandlerNotRegistered(handler: NodeId)
    | HandlerKindMismatch(handler: NodeId, id: NodeId)
    | UndefinedSource(id: NodeId)
    | UndefinedTarget(id: NodeId)

  datatype InvariantError =
    | MissingSystemNode(id: NodeId)
    | ReboundSystemNode(id: NodeId)
    | NoSuccessPath
    | PathMissesNode(id: NodeId)
    | ManualApprovalOnPath
    | EscalationReasonMissing(source: NodeId, target: NodeId)

  /** Sorted duplicate-free lists of the source are sets here. */
  datatype ValidationResult =
    | Rejected(compileErrors: seq<CompileError>)
    | Compiled(invariantErrors: set<InvariantError>, missingSinks: set<string>, earlyWrites: set<NodeId>)

  /** The handler registry, as the map its `resolve` looks names up in. */
  type Registry = map<NodeId, HandlerKind>

  // ------------------------------------------------ what each report means

  ghost predicate FirstAt(nodes: seq<Node>, i: nat)
    requires i < |nodes|
  {
    forall j | 0 <= j < i :: nodes[j].nodeId != nodes[i].nodeId
  }

  /** Node i is at fault with e: a duplicate is reported as such and judged no further. */
  ghost predicate NodeFault(nodes: seq<Node>, i: nat, handlers: seq<NodeId>, registry: Registry, e: CompileError)
    requires i < |nodes|
  {
    var n := nodes[i];
    match e
    case DuplicateNode(id) => n.nodeId == id && !FirstAt(nodes, i)
    case UnknownHandler(id, h) => n.nodeId == id && n.handlerName == h && FirstAt(nodes, i) && h !in handlers
    case HandlerNotRegistered(h) => n.handlerName == h && FirstAt(nodes, i) && h in handlers && h !in registry
    case HandlerKindMismatch(h, id) =>
      n.nodeId == id && n.handlerName == h && FirstAt(nodes, i) && h in handlers && h in registry
      && registry[h] != n.handlerKind
    case _ => false
  }

  ghost predicate Defined(nodes: seq<Node>, id: NodeId) {
    exists n :: n in nodes && n.nodeId == id
  }

  ghost predicate EdgeFault(nodes: seq<Node>, edge: Edge, e: CompileError) {
    match e
    case UndefinedSource(id) => edge.source == id && id != StartNode && !Defined(nodes, id)
    case UndefinedTarget(id) => edge.target == id && id != EndNode && !Defined(nodes, id)
    case _ => false
  }

  ghost predicate SomeNodeFault(nodes: seq<Node>, handlers: seq<NodeId>, registry: Registry, e: CompileError) {
    exists i | 0 <= i < |nodes| :: NodeFault(nodes, i, handlers, registry, e)
  }

  ghost predicate SomeEdgeFault(nodes: seq<Node>, edges: seq<Edge>, e: CompileError) {
    exists edge | edge in edges :: EdgeFault(nodes, edge, e)
  }

  ghost predicate CompileFault(config: Config, registry: Registry, e: CompileError) {
    || SomeNodeFault(config.nodes, config.routeHandlers, registry, e)
    || SomeEdgeFault(config.nodes, config.edges, e)
  }

  ghost predicate Compiles(config: Config, registry: Registry) {
    forall e :: !CompileFault(config, registry, e)
  }

  ghost predicate PrPath(config: Config, p: seq<NodeId>) {
    IsSimplePath(AdjacencyOf(config.edges), PrCreator, p)
  }

  /** What one PR-reaching path is blamed for. */
  ghost predicate PathFault(nodes: seq<Node>, p: seq<NodeId>, e: InvariantError) {
    match e
    case PathMissesNode(id) => id in REQUIRED_PR_PATH_NODES && id !in p
    case ManualApprovalOnPath => exists n :: n in nodes && n.nodeId in p && n.isHumanApproval
    case _ => false
  }

  /** Position k of p is reached without having passed the readiness gate. */
  ghost predicate BeforeGate(p: seq<NodeId>, k: nat)
    requires k < |p|
  {
    ReadinessGate !in p[..k + 1]
  }

  ghost predicate EarlyWrite(nodes: seq<Node>, p: seq<NodeId>, id: NodeId) {
    && (exists n :: n in nodes && n.nodeId == id && n.writesRepo)
    && exists k | 0 <= k < |p| :: p[k] == id && BeforeGate(p, k)
  }

  ghost predicate SystemNodeFault(required: seq<NodeId>, nodes: seq<Node>, e: InvariantError) {
    exists id | id in required :: RequiredNodeFault(nodes, id, e)
  }

  ghost predicate RequiredNodeFault(nodes: seq<Node>, id: NodeId, e: InvariantError) {
    || (e == MissingSystemNode(id) && !Defined(nodes, id))
    || (e == ReboundSystemNode(id) && Rebound(nodes, id))
  }

  ghost predicate Rebound(nodes: seq<Node>, id: NodeId) {
    exists n :: n in nodes && n.nodeId == id && (n.handlerKind != SystemHandler || n.handlerName != id)
  }

  ghost predicate NeedsReason(edge: Edge) {
    edge.transition == Escalation || edge.transition == Terminal
  }

  ghost predicate Unexplained(edge: Edge, e: InvariantError) {
    NeedsReason(edge) && edge.escalationReason == None && e == EscalationReasonMissing(edge.source, edge.target)
  }

  ghost predicate SomeUnexplained(edges: seq<Edge>, e: InvariantError) {
    exists edge | edge in edges :: Unexplained(edge, e)
  }

  ghost predicate SomePathFault(config: Config, e: InvariantError) {
    exists p | PrPath(config, p) :: PathFault(config.nodes, p, e)
  }

  ghost predicate InvariantFault(config: Config, e: InvariantError) {
    || SystemNodeFault(REQUIRED_SYSTEM_NODES, config.nodes, e)
    || (e == NoSuccessPath && forall p :: !PrPath(config, p))
    || SomePathFault(config, e)
    || SomeUnexplained(config.edges, e)
  }

  ghost predicate LacksSink(edge: Edge, sinks: set<string>, reason: string) {
    NeedsReason(edge) && edge.escalationReason == Some(reason) && reason !in sinks
  }

  ghost predicate MissingSink(edges: seq<Edge>, sinks: set<string>, reason: string) {
    exists edge | edge in edges :: LacksSink(edge, sinks, reason)
  }

  ghost predicate ProtectedPathViolation(config: Config, id: NodeId) {
    exists p | PrPath(config, p) :: EarlyWrite(config.nodes, p, id)
  }

  /** A configuration the validator has nothing to say against. */
  ghost predicate Accepted(config: Config, registry: Registry, sinks: set<string>) {
    && Compiles(config, registry)
    && (forall e :: !InvariantFault(config, e))
    && (forall r :: !MissingSink(config.edges, sinks, r))
    && (forall id :: !ProtectedPathViolation(config, id))
  }

  predicate Clean(r: ValidationResult) {
    r.Compiled? && r.invariantErrors == {} && r.missingSinks == {} && r.earlyWrites == {}
  }

  // ------------------------------------------------ the validator

  /** Fills the node index with the first node of each id. */
  method IndexNodes(nodes: seq<Node>, handlers: seq<NodeId>, registry: Registry)
    returns (nodeIndex: map<NodeId, Node>, errors: seq<CompileError>)
    ensures forall id :: id in nodeIndex <==> Defined(nodes, id)
    ensures forall id | id in nodeIndex :: nodeIndex[id] in nodes && nodeIndex[id].nodeId == id
    ensures forall e :: e in errors <==> SomeNodeFault(nodes, handlers, registry, e)
  {
    nodeIndex, errors := map[], [];
    for k := 0 to |nodes|
      invariant forall id :: id in nodeIndex <==> exists i | 0 <= i < k :: nodes[i].nodeId == id
      invariant forall id | id in nodeIndex :: nodeIndex[id] in nodes && nodeIndex[id].nodeId == id
      invariant forall e :: e in errors <==> exists i | 0 <= i < k :: NodeFault(nodes, i, handlers, registry, e)
    {
      var node := nodes[k];
      ghost var before := errors;
      assert FirstAt(nodes, k) <==> node.nodeId !in nodeIndex;
      if node.nodeId in nodeIndex {
        errors := errors + [DuplicateNode(node.nodeId)];
      } else {
        nodeIndex := nodeIndex[node.nodeId := node];
        if node.handlerName !in handlers {
          errors := errors + [UnknownHandler(node.nodeId, node.handlerName)];
        } else if node.handlerName !in registry {
          errors := errors + [HandlerNotRegistered(node.handlerName)];
        } else if registry[node.handlerName] != node.handlerKind {
          errors := errors + [HandlerKindMismatch(node.handlerName, node.nodeId)];
        }
      }
      assert forall e :: e in errors <==> e in before || NodeFault(nodes, k, handlers, registry, e);
    }
  }

  method BuildAdjacency(nodes: seq<Node>, edges: seq<Edge>, nodeIndex: map<NodeId, Node>)
    returns (adj: Adjacency, errors: seq<CompileError>)
    requires forall id :: id in nodeIndex <==> Defined(nodes, id)
    ensures adj == AdjacencyOf(edges)
    ensures forall e :: e in errors <==> SomeEdgeFault(nodes, edges, e)
  {
    adj, errors := map[], [];
    for k := 0 to |edges|
      invariant adj == AdjacencyOf(edges[..k])
      invariant forall e :: e in errors <==> exists i | 0 <= i < k :: EdgeFault(nodes, edges[i], e)
    {
      var edge := edges[k];
      ghost var before := errors;
      if edge.source != StartNode && edge.source !in nodeIndex {
        errors := errors + [UndefinedSource(edge.source)];
      }
      if edge.target != EndNode && edge.target !in nodeIndex {
        errors := errors + [UndefinedTarget(edge.target)];
      }
      assert forall e :: e in errors <==> e in before || EdgeFault(nodes, edge, e);
      assert edges[..k + 1][..k] == edges[..k];
      adj := AddEdge(adj, edge);
    }
    assert edges[..|edges|] == edges;
  }

  method CheckSystemNodes(required: seq<NodeId>, nodes: seq<Node>, nodeIndex: map<NodeId, Node>)
    returns (errors: set<InvariantError>)
    requires forall id :: id in nodeIndex <==> Defined(nodes, id)
    requires forall id | id in nodeIndex :: nodeIndex[id] in nodes && nodeIndex[id].nodeId == id
    requires forall i, j | 0 <= i < j < |nodes| :: nodes[i].nodeId != nodes[j].nodeId
    ensures forall e :: e in errors <==> SystemNodeFault(required, nodes, e)
  {
    errors := {};
    for k := 0 to |required|
      invariant forall e :: e in errors <==> exists i | 0 <= i < k :: RequiredNodeFault(nodes, required[i], e)
    {
      var id := required[k];
      ghost var before := errors;
      if id !in nodeIndex {
        errors := errors + {MissingSystemNode(id)};
      } else {
        assert Rebound(nodes, id) <==> nodeIndex[id].handlerKind != SystemHandler || nodeIndex[id].handlerName != id;
        if nodeIndex[id].handlerKind != SystemHandler || nodeIndex[id].handlerName != id {
          errors := errors + {ReboundSystemNode(id)};
        }
      }
      assert forall e :: e in errors <==> e in before || RequiredNodeFault(nodes, id, e);
    }
  }

  /** The first position of x. */
  function IndexOf(s: seq<NodeId>, x: NodeId): (i: nat)
    requires x in s
    ensures i < |s| && s[i] == x && x !in s[..i]
  {
    if s[0] == x then 0 else 1 + IndexOf(s[1..], x)
  }

  method MissedNodes(path: seq<NodeId>) returns (errors: set<InvariantError>)
    ensures forall e :: e in errors <==> e.PathMissesNode? && e.id !in path && e.id in REQUIRED_PR_PATH_NODES
  {
    errors := {};
    for k := 0 to |REQUIRED_PR_PATH_NODES|
      invariant forall e :: e in errors <==> e.PathMissesNode? && e.id !in path && e.id in REQUIRED_PR_PATH_NODES[..k]
    {
      if REQUIRED_PR_PATH_NODES[k] !in path {
        errors := errors + {PathMissesNode(REQUIRED_PR_PATH_NODES[k])};
      }
    }
  }

  method JudgePath(nodes: seq<Node>, nodeIndex: map<NodeId, Node>, path: seq<NodeId>)
    returns (errors: set<InvariantError>, earlyWrites: set<NodeId>)
    requires Distinct(path) && forall id | id in path :: id in nodeIndex
    requires forall id | id in nodeIndex :: nodeIndex[id] in nodes && nodeIndex[id].nodeId == id
    requires forall i, j | 0 <= i < j < |nodes| :: nodes[i].nodeId != nodes[j].nodeId
    ensures forall e :: e in errors <==> PathFault(nodes, path, e)
    ensures forall id :: id in earlyWrites <==> EarlyWrite(nodes, path, id)
  {
    errors := MissedNodes(path);
    earlyWrites := {};
    for k := 0 to |path|
      invariant forall e :: e in errors <==>
        || (e.PathMissesNode? && PathFault(nodes, path, e))
        || (e.ManualApprovalOnPath? && exists i | 0 <= i < k :: nodeIndex[path[i]].isHumanApproval)
      invariant forall id :: id in earlyWrites <==>
        exists i | 0 <= i < k :: path[i] == id && nodeIndex[id].writesRepo && BeforeGate(path, i)
    {
      var node := nodeIndex[path[k]];
      if node.isHumanApproval {
        errors := errors + {ManualApprovalOnPath};
      }
      if node.writesRepo {
        if ReadinessGate !in path || IndexOf(path, path[k]) < IndexOf(path, ReadinessGate) {
          earlyWrites := earlyWrites + {path[k]};
        }
      }
      assert IndexOf(path, path[k]) == k;
      GateIndex(path, k);
    }
  }

  lemma GateIndex(path: seq<NodeId>, k: nat)
    requires k < |path|
    ensures BeforeGate(path, k) <==> ReadinessGate !in path || k < IndexOf(path, ReadinessGate)
  {
    if ReadinessGate in path {
      var g := IndexOf(path, ReadinessGate);
      if g <= k {
        assert path[..k + 1][g] == ReadinessGate;
      } else {
        assert forall i | 0 <= i < k + 1 :: path[..k + 1][i] == path[..g][i];
      }
    }
  }

  method CheckEscalations(edges: seq<Edge>, sinks: set<string>)
    returns (errors: set<InvariantError>, missing: set<string>)
    ensures forall e :: e in errors <==> SomeUnexplained(edges, e)
    ensures forall r :: r in missing <==> MissingSink(edges, sinks, r)
  {
    errors, missing := {}, {};
    for k := 0 to |edges|
      invariant forall e :: e in errors <==> exists i | 0 <= i < k :: Unexplained(edges[i], e)
      invariant forall r :: r in missing <==> exists i | 0 <= i < k :: LacksSink(edges[i], sinks, r)
    {
      var edge := edges[k];
      if edge.transition == Escalation || edge.transition == Terminal {
        match edge.escalationReason
        case None => errors := errors + {EscalationReasonMissing(edge.source, edge.target)};
        case Some(reason) =>
          if reason !in sinks {
            missing := missing + {reason};
          }
      }
    }
  }

  lemma CompiledIdsAreUnique(config: Config, registry: Registry)
    requires Compiles(config, registry)
    ensures forall i, j | 0 <= i < j < |config.nodes| :: config.nodes[i].nodeId != config.nodes[j].nodeId
  {
    forall i, j | 0 <= i < j < |config.nodes|
      ensures config.nodes[i].nodeId != config.nodes[j].nodeId
    {
      var e := DuplicateNode(config.nodes[j].nodeId);
      assert !CompileFault(config, registry, e);
      assert !NodeFault(config.nodes, j, config.routeHandlers, registry, e);
    }
  }

  /** On a compiled graph every node of a walk has a declaration, so looking it up in the node
      index cannot miss. */
  lemma WalksStayOnDeclaredNodes(config: Config, registry: Registry, from: NodeId, w: seq<NodeId>, k: nat)
    requires Compiles(config, registry) && IsWalk(AdjacencyOf(config.edges), from, w) && k < |w|
    ensures Defined(config.nodes, w[k])
  {
    assert Hop(AdjacencyOf(config.edges), from, w, k);
    var a := if k == 0 then from else w[k - 1];
    AdjacencyIsTheEdgeRelation(config.edges, a, w[k]);
    var edge :| edge in config.edges && edge.source == a && edge.target == w[k];
    assert !CompileFault(config, registry, UndefinedTarget(w[k]));
    assert !EdgeFault(config.nodes, edge, UndefinedTarget(w[k]));
  }

  method CheckPaths(config: Config, registry: Registry, nodeIndex: map<NodeId, Node>, paths: seq<seq<NodeId>>)
    returns (errors: set<InvariantError>, earlyWrites: set<NodeId>)
    requires Compiles(config, registry)
    requires forall id :: id in nodeIndex <==> Defined(config.nodes, id)
    requires forall id | id in nodeIndex :: nodeIndex[id] in config.nodes && nodeIndex[id].nodeId == id
    requires forall p :: p in paths <==> PrPath(config, p)
    ensures forall e :: e in errors <==> SomePathFault(config, e)
    ensures forall id :: id in earlyWrites <==> ProtectedPathViolation(config, id)
  {
    CompiledIdsAreUnique(config, registry);
    errors, earlyWrites := {}, {};
    for k := 0 to |paths|
      invariant forall e :: e in errors <==> exists i | 0 <= i < k :: PathFault(config.nodes, paths[i], e)
      invariant forall id :: id in earlyWrites <==> exists i | 0 <= i < k :: EarlyWrite(config.nodes, paths[i], id)
    {
      assert paths[k] in paths;
      forall id | id in paths[k] ensures id in nodeIndex {
        var i :| 0 <= i < |paths[k]| && paths[k][i] == id;
        WalksStayOnDeclaredNodes(config, registry, StartNode, paths[k], i);
      }
      var blamed, early := JudgePath(config.nodes, nodeIndex, paths[k]);
      errors, earlyWrites := errors + blamed, earlyWrites + early;
    }
  }

  /** The four lists of a result hold exactly the faults of their kinds. */
  ghost predicate Reports(config: Config, sinks: set<string>, r: ValidationResult)
    requires r.Compiled?
  {
    && (forall e :: e in r.invariantErrors <==> InvariantFault(config, e))
    && (forall reason :: reason in r.missingSinks <==> MissingSink(config.edges, sinks, reason))
    && (forall id :: id in r.earlyWrites <==> ProtectedPathViolation(config, id))
  }

  lemma CleanIsAccepted(config: Config, registry: Registry, sinks: set<string>, r: ValidationResult)
    requires Compiles(config, registry) && r.Compiled? && Reports(config, sinks, r)
    ensures Clean(r) <==> Accepted(config, registry, sinks)
  {
    if Accepted(config, registry, sinks) {
      assert forall e :: e !in r.invariantErrors;
      assert forall e :: e !in r.missingSinks;
      assert forall e :: e !in r.earlyWrites;
    }
  }

  method CheckInvariants(config: Config, registry: Registry, sinks: set<string>, nodeIndex: map<NodeId, Node>,
                         adj: Adjacency)
    returns (r: ValidationResult)
    requires Compiles(config, registry) && adj == AdjacencyOf(config.edges)
    requires forall id :: id in nodeIndex <==> Defined(config.nodes, id)
    requires forall id | id in nodeIndex :: nodeIndex[id] in config.nodes && nodeIndex[id].nodeId == id
    ensures r.Compiled? && Reports(config, sinks, r)
  {
    CompiledIdsAreUnique(config, registry);
    var nodeErrors := CheckSystemNodes(REQUIRED_SYSTEM_NODES, config.nodes, nodeIndex);
    var paths := PathsToTarget(adj, PrCreator);
    assert forall p :: PrPath(config, p) <==> p in paths;
    var reachErrors: set<InvariantError> := {};
    if paths == [] {
      reachErrors := {NoSuccessPath};
    } else {
      assert paths[0] in paths;
    }
    assert forall e :: e in reachErrors <==> e == NoSuccessPath && forall p :: !PrPath(config, p);
    var pathErrors, earlyWrites := CheckPaths(config, registry, nodeIndex, paths);
    var escalationErrors, missing := CheckEscalations(config.edges, sinks);
    r := Compiled(nodeErrors + reachErrors + pathErrors + escalationErrors, missing, earlyWrites);
  }

  /** Every list the validator returns holds exactly the faults of its kind, and nothing is
      reported exactly for the configurations that satisfy Accepted. */
  method Validate(config: Config, registry: Registry, sinks: set<string>) returns (r: ValidationResult)
    ensures r.Compiled? <==> Compiles(config, registry)
    ensures r.Rejected? ==> forall e :: e in r.compileErrors <==> CompileFault(config, registry, e)
    ensures r.Compiled? ==> Reports(config, sinks, r)
    ensures Clean(r) <==> Accepted(config, registry, sinks)
  {
    var nodeIndex, nodeErrors := IndexNodes(config.nodes, config.routeHandlers, registry);
    var adj, edgeErrors := BuildAdjacency(config.nodes, config.edges, nodeIndex);
    var compileErrors := nodeErrors + edgeErrors;
    assert forall e :: e in compileErrors <==> CompileFault(config, registry, e);
    if compileErrors != [] {
      assert compileErrors[0] in compileErrors;
      r := Rejected(compileErrors);
    } else {
      r := CheckInvariants(config, registry, sinks, nodeIndex, adj);
      CleanIsAccepted(config, registry, sinks, r);
    }
  }

  // ------------------------------------------------ what acceptance guarantees

  /** Every walk from START to the PR creator, however often it loops, passes every node the
      protected profile requires, although only simple paths were inspected. */
  lemma EveryPrWalkVisitsRequiredNodes(config: Config, registry: Registry, sinks: set<string>,
                                       w: seq<NodeId>, n: NodeId)
    requires Accepted(config, registry, sinks)
    requires WalksTo(AdjacencyOf(config.edges), StartNode, PrCreator, w)
    requires n in REQUIRED_PR_PATH_NODES
    ensures n in w
  {
    var p := EraseLoops(AdjacencyOf(config.edges), StartNode, PrCreator, w);
    assert PrPath(config, p);
    assert !InvariantFault(config, PathMissesNode(n));
    assert !PathFault(config.nodes, p, PathMissesNode(n));
  }

  /** The verdict depends on the edges as a set: neither their order nor duplicates matter. */
  lemma EdgeOrderIsIrrelevant(c: Config, d: Config, registry: Registry, sinks: set<string>)
    requires c.nodes == d.nodes && c.routeHandlers == d.routeHandlers
    requires forall e :: e in c.edges <==> e in d.edges
    ensures forall e :: CompileFault(c, registry, e) <==> CompileFault(d, registry, e)
    ensures forall e :: InvariantFault(c, e) <==> InvariantFault(d, e)
    ensures forall r :: MissingSink(c.edges, sinks, r) <==> MissingSink(d.edges, sinks, r)
    ensures forall id :: ProtectedPathViolation(c, id) <==> ProtectedPathViolation(d, id)
  {
    forall p ensures PrPath(c, p) <==> PrPath(d, p) {
      SameEdgesSameWalks(c.edges, d.edges, p);
    }
  }

  lemma SameEdgesSameWalks(es: seq<Edge>, fs: seq<Edge>, p: seq<NodeId>)
    requires forall e :: e in es <==> e in fs
    ensures IsWalk(AdjacencyOf(es), StartNode, p) <==> IsWalk(AdjacencyOf(fs), StartNode, p)
  {
    forall k | 0 <= k < |p|
      ensures Hop(AdjacencyOf(es), StartNode, p, k) <==> Hop(AdjacencyOf(fs), StartNode, p, k)
    {
      var a := if k == 0 then StartNode else p[k - 1];
      AdjacencyIsTheEdgeRelation(es, a, p[k]);
      AdjacencyIsTheEdgeRelation(fs, a, p[k]);
    }
  }

  // ------------------------------------------------ repository writes before the gate

  ghost predicate Writes(config: Config, id: NodeId) {
    exists n :: n in config.nodes && n.nodeId == id && n.writesRepo
  }

  /** No walk to the PR creator writes the repository before it has passed the gate. */
  ghost predicate WalksWriteOnlyAfterGate(config: Config) {
    forall w, k: nat | WalksTo(AdjacencyOf(config.edges), StartNode, PrCreator, w) && k < |w| && Writes(config, w[k])
      :: !BeforeGate(w, k)
  }

  ghost predicate CanFinish(config: Config, n: NodeId) {
    n == PrCreator || exists v :: WalksTo(AdjacencyOf(config.edges), n, PrCreator, v)
  }

  /** Each simple path to a repository writer that can still reach the PR creator passes the
      gate: the check the validator makes, with the writer as the target of the search. */
  ghost predicate GateGuardsEachWriter(config: Config) {
    forall n, p | Writes(config, n) && CanFinish(config, n) && IsSimplePath(AdjacencyOf(config.edges), n, p)
      :: ReadinessGate in p
  }

  lemma WalkGuardIsPathGuard(config: Config)
    ensures WalksWriteOnlyAfterGate(config) <==> GateGuardsEachWriter(config)
  {
    if WalksWriteOnlyAfterGate(config) {
      forall n, p | Writes(config, n) && CanFinish(config, n) && IsSimplePath(AdjacencyOf(config.edges), n, p)
        ensures ReadinessGate in p
      {
        GuardedWalksGuardPath(config, n, p);
      }
    }
    if GateGuardsEachWriter(config) {
      forall w, k: nat | WalksTo(AdjacencyOf(config.edges), StartNode, PrCreator, w) && k < |w| && Writes(config, w[k])
        ensures !BeforeGate(w, k)
      {
        GuardedPathsGuardWalk(config, w, k);
      }
    }
  }

  lemma GuardedWalksGuardPath(config: Config, n: NodeId, p: seq<NodeId>)
    requires WalksWriteOnlyAfterGate(config)
    requires Writes(config, n) && CanFinish(config, n) && IsSimplePath(AdjacencyOf(config.edges), n, p)
    ensures ReadinessGate in p
  {
    var adj := AdjacencyOf(config.edges);
    var w := p;
    if n != PrCreator {
      var v :| WalksTo(adj, n, PrCreator, v);
      WalkConcat(adj, StartNode, n, p, v);
      w := p + v;
    }
    assert WalksTo(adj, StartNode, PrCreator, w) && w[|p| - 1] == n;
    assert !BeforeGate(w, |p| - 1);
    assert w[..|p|] == p;
  }

  lemma GuardedPathsGuardWalk(config: Config, w: seq<NodeId>, k: nat)
    requires GateGuardsEachWriter(config)
    requires WalksTo(AdjacencyOf(config.edges), StartNode, PrCreator, w) && k < |w| && Writes(config, w[k])
    ensures !BeforeGate(w, k)
  {
    var adj := AdjacencyOf(config.edges);
    WalkSplit(adj, StartNode, w, k);
    if k + 1 < |w| {
      assert WalksTo(adj, w[k], PrCreator, w[k + 1..]);
    }
    assert CanFinish(config, w[k]);
    var p := EraseLoops(adj, StartNode, w[k], w[..k + 1]);
    assert IsSimplePath(adj, w[k], p);
  }

  // ------------------------------------------------ manual approvals on the way to the PR creator

  ghost predicate Approves(config: Config, id: NodeId) {
    exists n :: n in config.nodes && n.nodeId == id && n.isHumanApproval
  }

  /** No walk to the PR creator meets a manual approval, however it loops. */
  ghost predicate WalksMeetNoApproval(config: Config) {
    forall w, k: nat | WalksTo(AdjacencyOf(config.edges), StartNode, PrCreator, w) && k < |w| :: !Approves(config, w[k])
  }

  /** No simple path leads to an approval node from which the PR creator can still be reached. */
  ghost predicate NoApprovalLeadsOn(config: Config) {
    forall n, p | CanFinish(config, n) && IsSimplePath(AdjacencyOf(config.edges), n, p) :: !Approves(config, n)
  }

  lemma WalksMeetNoApprovalIff(config: Config)
    ensures WalksMeetNoApproval(config) <==> NoApprovalLeadsOn(config)
  {
    var adj := AdjacencyOf(config.edges);
    if WalksMeetNoApproval(config) {
      forall n, p | CanFinish(config, n) && IsSimplePath(adj, n, p) ensures !Approves(config, n) {
        var w := p;
        if n != PrCreator {
          var v :| WalksTo(adj, n, PrCreator, v);
          WalkConcat(adj, StartNode, n, p, v);
          w := p + v;
        }
        assert WalksTo(adj, StartNode, PrCreator, w) && w[|p| - 1] == n;
      }
    }
    if NoApprovalLeadsOn(config) {
      forall w, k: nat | WalksTo(adj, StartNode, PrCreator, w) && k < |w| ensures !Approves(config, w[k]) {
        WalkSplit(adj, StartNode, w, k);
        if k + 1 < |w| {
          assert WalksTo(adj, w[k], PrCreator, w[k + 1..]);
        }
        assert CanFinish(config, w[k]);
        var p := EraseLoops(adj, StartNode, w[k], w[..k + 1]);
        assert IsSimplePath(adj, w[k], p);
      }
    }
  }
}
