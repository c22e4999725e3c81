/** What the validator accepts and reports, in the fields of the nodes and edges of a configuration. */
module GraphAcceptance {
  import opened Common
  import opened GraphConfig
  import opened GraphValidator

  // ------------------------------------------------ compile errors

  /** Node i is n, the first of its id: later ones are only reported as duplicates. */
  ghost predicate IsFirst(nodes: seq<Node>, n: Node, i: nat) {
    i < |nodes| && nodes[i] == n && forall j | 0 <= j < i :: nodes[j].nodeId != n.nodeId
  }

  /** A duplicate is reported exactly for ids that occur twice. */
  lemma DuplicatesByFields(config: Config, registry: Registry, id: NodeId)
    ensures CompileFault(config, registry, DuplicateNode(id))
       <==> exists i, j | 0 <= i < j < |config.nodes| :: config.nodes[i].nodeId == id && config.nodes[j].nodeId == id
  {
    var nodes := config.nodes;
    if CompileFault(config, registry, DuplicateNode(id)) {
      var j :| 0 <= j < |nodes| && NodeFault(nodes, j, config.routeHandlers, registry, DuplicateNode(id));
      var i :| 0 <= i < j && nodes[i].nodeId == nodes[j].nodeId;
    }
    if i, j :| 0 <= i < j < |nodes| && nodes[i].nodeId == id && nodes[j].nodeId == id {
      assert NodeFault(nodes, j, config.routeHandlers, registry, DuplicateNode(id));
    }
  }

  lemma FaultOfFirst(config: Config, registry: Registry, e: CompileError)
    requires e.UnknownHandler? || e.HandlerNotRegistered? || e.HandlerKindMismatch?
    ensures CompileFault(config, registry, e) <==>
            exists i | 0 <= i < |config.nodes| ::
              IsFirst(config.nodes, config.nodes[i], i) && IsHandlerFault(config, registry, config.nodes[i], e)
  {
    var nodes := config.nodes;
    if CompileFault(config, registry, e) {
      var i :| 0 <= i < |nodes| && NodeFault(nodes, i, config.routeHandlers, registry, e);
      assert IsFirst(nodes, nodes[i], i) && IsHandlerFault(config, registry, nodes[i], e);
    }
    if i :| 0 <= i < |nodes| && IsFirst(nodes, nodes[i], i) && IsHandlerFault(config, registry, nodes[i], e) {
      assert FirstAt(nodes, i) && NodeFault(nodes, i, config.routeHandlers, registry, e);
    }
  }

  /** The handler of n is not declared, declared but not registered, or registered as of another kind. */
  ghost predicate IsHandlerFault(config: Config, registry: Registry, n: Node, e: CompileError) {
    var h := n.handlerName;
    if h !in config.routeHandlers then e == UnknownHandler(n.nodeId, h)
    else if h !in registry then e == HandlerNotRegistered(h)
    else registry[h] != n.handlerKind && e == HandlerKindMismatch(h, n.nodeId)
  }

  lemma EndPointsByFields(config: Config, registry: Registry, id: NodeId)
    ensures CompileFault(config, registry, UndefinedSource(id)) <==>
            (exists e :: e in config.edges && e.source == id) && id != StartNode
            && forall n | n in config.nodes :: n.nodeId != id
    ensures CompileFault(config, registry, UndefinedTarget(id)) <==>
            (exists e :: e in config.edges && e.target == id) && id != EndNode
            && forall n | n in config.nodes :: n.nodeId != id
  {
    if e :| e in config.edges && e.source == id {
      assert EdgeFault(config.nodes, e, UndefinedSource(id)) <==> id != StartNode && !Defined(config.nodes, id);
    }
    if e :| e in config.edges && e.target == id {
      assert EdgeFault(config.nodes, e, UndefinedTarget(id)) <==> id != EndNode && !Defined(config.nodes, id);
    }
  }

  /** A configuration compiles exactly if its ids are distinct, every handler is declared and registered
      as of the kind the node says, and every edge leads between START, END and declared nodes. */
  ghost predicate IsWellBuilt(config: Config, registry: Registry) {
    && (forall i, j | 0 <= i < j < |config.nodes| :: config.nodes[i].nodeId != config.nodes[j].nodeId)
    && (forall n | n in config.nodes ::
          && n.handlerName in config.routeHandlers && n.handlerName in registry
          && registry[n.handlerName] == n.handlerKind)
    && (forall e | e in config.edges ::
          && (e.source == StartNode || exists n :: n in config.nodes && n.nodeId == e.source)
          && (e.target == EndNode || exists n :: n in config.nodes && n.nodeId == e.target))
  }

  lemma CompilesIff(config: Config, registry: Registry)
    ensures Compiles(config, registry) <==> IsWellBuilt(config, registry)
  {
    if Compiles(config, registry) {
      CompiledIsWellBuilt(config, registry);
    }
    if IsWellBuilt(config, registry) {
      WellBuiltCompiles(config, registry);
    }
  }

  lemma CompiledIsWellBuilt(config: Config, registry: Registry)
    requires Compiles(config, registry)
    ensures IsWellBuilt(config, registry)
  {
    CompiledIdsAreUnique(config, registry);
    forall n | n in config.nodes
      ensures n.handlerName in config.routeHandlers && n.handlerName in registry
              && registry[n.handlerName] == n.handlerKind
    {
      var i :| 0 <= i < |config.nodes| && config.nodes[i] == n;
      HandlerIsFine(config, registry, i);
    }
    forall e | e in config.edges
      ensures e.source == StartNode || exists n :: n in config.nodes && n.nodeId == e.source
      ensures e.target == EndNode || exists n :: n in config.nodes && n.nodeId == e.target
    {
      EndPointsByFields(config, registry, e.source);
      EndPointsByFields(config, registry, e.target);
      assert !CompileFault(config, registry, UndefinedSource(e.source));
      assert !CompileFault(config, registry, UndefinedTarget(e.target));
    }
  }

  lemma HandlerIsFine(config: Config, registry: Registry, i: nat)
    requires Compiles(config, registry) && i < |config.nodes|
    ensures var n := config.nodes[i];
      n.handlerName in config.routeHandlers && n.handlerName in registry && registry[n.handlerName] == n.handlerKind
  {
    CompiledIdsAreUnique(config, registry);
    var n := config.nodes[i];
    assert IsFirst(config.nodes, n, i);
    var h := n.handlerName;
    FaultOfFirst(config, registry, UnknownHandler(n.nodeId, h));
    FaultOfFirst(config, registry, HandlerNotRegistered(h));
    FaultOfFirst(config, registry, HandlerKindMismatch(h, n.nodeId));
    assert !CompileFault(config, registry, UnknownHandler(n.nodeId, h));
    assert !CompileFault(config, registry, HandlerNotRegistered(h));
    assert !CompileFault(config, registry, HandlerKindMismatch(h, n.nodeId));
  }

  lemma WellBuiltCompiles(config: Config, registry: Registry)
    requires IsWellBuilt(config, registry)
    ensures Compiles(config, registry)
  {
    forall e ensures !CompileFault(config, registry, e) {
      match e
      case DuplicateNode(id) => DuplicatesByFields(config, registry, id);
      case UndefinedSource(id) => EndPointsByFields(config, registry, id);
      case UndefinedTarget(id) => EndPointsByFields(config, registry, id);
      case _ =>
        FaultOfFirst(config, registry, e);
        forall i | 0 <= i < |config.nodes| ensures !IsHandlerFault(config, registry, config.nodes[i], e) {
          assert config.nodes[i] in config.nodes;
        }
    }
  }

  // ------------------------------------------------ invariant errors

  predicate IsSystemNode(id: NodeId) {
    id in {LoadConstitution, CreateFeatureSpec, Clarify, CreatePlan, CreateTaskList, ReadinessGate,
           Coder, Tester, Reviewer, PrePrSync, PrCreator, Escalate}
  }

  predicate IsOnEveryPrPath(id: NodeId) {
    id in {ReadinessGate, Coder, Tester, Reviewer, PrePrSync, PrCreator}
  }

  lemma RequiredNodesByName(id: NodeId)
    ensures id in REQUIRED_SYSTEM_NODES <==> IsSystemNode(id)
    ensures id in REQUIRED_PR_PATH_NODES <==> IsOnEveryPrPath(id)
  {
    assert REQUIRED_SYSTEM_NODES ==
      [LoadConstitution, CreateFeatureSpec, Clarify, CreatePlan, CreateTaskList, ReadinessGate,
       Coder, Tester, Reviewer, PrePrSync, PrCreator, Escalate];
    assert REQUIRED_PR_PATH_NODES == [ReadinessGate, Coder, Tester, Reviewer, PrePrSync, PrCreator];
  }

  /** A simple path from START to the PR creator along the edges of the configuration. */
  ghost predicate IsPrPath(config: Config, p: seq<NodeId>) {
    && |p| > 0 && p[|p| - 1] == PrCreator
    && (forall i, j | 0 <= i < j < |p| :: p[i] != p[j])
    && (forall i | 0 <= i < |p| :: p[i] != EndNode && LeadsInto(config, p, i))
  }

  /** Some edge leads to p[i] from the node before it. */
  ghost predicate LeadsInto(config: Config, p: seq<NodeId>, i: nat)
    requires i < |p|
  {
    exists e :: e in config.edges && e.target == p[i] && e.source == if i == 0 then StartNode else p[i - 1]
  }

  lemma PrPathByEdges(config: Config, p: seq<NodeId>)
    ensures PrPath(config, p) <==> IsPrPath(config, p)
  {
    var adj := AdjacencyOf(config.edges);
    forall i | 0 <= i < |p|
      ensures Hop(adj, StartNode, p, i) <==> p[i] != EndNode && LeadsInto(config, p, i)
    {
      AdjacencyIsTheEdgeRelation(config.edges, if i == 0 then StartNode else p[i - 1], p[i]);
    }
  }

  lemma SamePrPaths(config: Config)
    ensures forall p :: PrPath(config, p) <==> IsPrPath(config, p)
  {
    forall p ensures PrPath(config, p) <==> IsPrPath(config, p) {
      PrPathByEdges(config, p);
    }
  }

  lemma SystemErrorsByList(config: Config, id: NodeId)
    ensures InvariantFault(config, MissingSystemNode(id)) <==> id in REQUIRED_SYSTEM_NODES && !Defined(config.nodes, id)
    ensures InvariantFault(config, ReboundSystemNode(id)) <==> id in REQUIRED_SYSTEM_NODES && Rebound(config.nodes, id)
  {
    ListErrors(REQUIRED_SYSTEM_NODES, config.nodes, id);
  }

  lemma ListErrors(required: seq<NodeId>, nodes: seq<Node>, id: NodeId)
    ensures SystemNodeFault(required, nodes, MissingSystemNode(id)) <==> id in required && !Defined(nodes, id)
    ensures SystemNodeFault(required, nodes, ReboundSystemNode(id)) <==> id in required && Rebound(nodes, id)
  {
    if id in required {
      assert RequiredNodeFault(nodes, id, MissingSystemNode(id)) <==> !Defined(nodes, id);
      assert RequiredNodeFault(nodes, id, ReboundSystemNode(id)) <==> Rebound(nodes, id);
    }
  }

  /** A system node is reported missing or rebound exactly if it is. */
  lemma SystemErrorsByFields(config: Config, id: NodeId)
    ensures InvariantFault(config, MissingSystemNode(id))
       <==> IsSystemNode(id) && forall n | n in config.nodes :: n.nodeId != id
    ensures InvariantFault(config, ReboundSystemNode(id))
       <==> IsSystemNode(id) && exists n :: n in config.nodes && n.nodeId == id
                                            && (n.handlerKind != SystemHandler || n.handlerName != id)
  {
    RequiredNodesByName(id);
    SystemErrorsByList(config, id);
  }

  ghost predicate MissedOnSomePath(config: Config, id: NodeId) {
    exists p :: IsPrPath(config, p) && id !in p
  }

  ghost predicate ApprovedOn(config: Config, p: seq<NodeId>) {
    exists n :: n in config.nodes && n.nodeId in p && n.isHumanApproval
  }

  ghost predicate ApprovedOnSomePath(config: Config) {
    exists p :: IsPrPath(config, p) && ApprovedOn(config, p)
  }

  lemma MissedByPath(config: Config, id: NodeId)
    ensures InvariantFault(config, PathMissesNode(id))
       <==> id in REQUIRED_PR_PATH_NODES && exists p :: PrPath(config, p) && id !in p
  {
    if p :| PrPath(config, p) && id !in p {
      assert PathFault(config.nodes, p, PathMissesNode(id)) <==> id in REQUIRED_PR_PATH_NODES;
    }
  }

  lemma ApprovedByPath(config: Config)
    ensures InvariantFault(config, ManualApprovalOnPath) <==> exists p :: PrPath(config, p) && ApprovedOn(config, p)
  {
    if p :| PrPath(config, p) && ApprovedOn(config, p) {
      assert PathFault(config.nodes, p, ManualApprovalOnPath);
    }
  }

  /** A path is wanted, and on each of them the required nodes and no approval. */
  lemma PathErrorsByFields(config: Config, id: NodeId)
    ensures InvariantFault(config, NoSuccessPath) <==> forall p :: !IsPrPath(config, p)
    ensures InvariantFault(config, PathMissesNode(id)) <==> IsOnEveryPrPath(id) && MissedOnSomePath(config, id)
    ensures InvariantFault(config, ManualApprovalOnPath) <==> ApprovedOnSomePath(config)
  {
    SamePrPaths(config);
    RequiredNodesByName(id);
    MissedByPath(config, id);
    ApprovedByPath(config);
  }

  predicate Escalates(e: Edge) {
    e.transition == Escalation || e.transition == Terminal
  }

  /** A reason is reported missing exactly on escalations and terminal edges without one, and a sink
      exactly if one of them names a reason that has none. */
  lemma EscalationsByFields(config: Config, sinks: set<string>, source: NodeId, to: NodeId, reason: string)
    ensures InvariantFault(config, EscalationReasonMissing(source, to)) <==>
            exists e :: e in config.edges && e.source == source && e.target == to && Escalates(e)
                        && e.escalationReason == None
    ensures MissingSink(config.edges, sinks, reason) <==>
            reason !in sinks && exists e :: e in config.edges && Escalates(e) && e.escalationReason == Some(reason)
  {
    if e :| e in config.edges && e.source == source && e.target == to && Escalates(e) && e.escalationReason == None {
      assert Unexplained(e, EscalationReasonMissing(source, to));
    }
    if e :| e in config.edges && Escalates(e) && e.escalationReason == Some(reason) {
      assert LacksSink(e, sinks, reason) <==> reason !in sinks;
    }
  }

  /** id stands on the path with no readiness gate up to it. */
  ghost predicate StandsBeforeGate(p: seq<NodeId>, id: NodeId) {
    exists k | 0 <= k < |p| :: p[k] == id && GateNotBy(p, k)
  }

  ghost predicate GateNotBy(p: seq<NodeId>, k: nat)
    requires k < |p|
  {
    forall j | 0 <= j <= k :: p[j] != ReadinessGate
  }

  lemma BeforeGateByPosition(p: seq<NodeId>, k: nat)
    requires k < |p|
    ensures BeforeGate(p, k) <==> GateNotBy(p, k)
  {
    assert forall j | 0 <= j <= k :: p[j] == p[..k + 1][j];
  }

  ghost predicate EarlyOnSomePath(config: Config, id: NodeId) {
    exists p :: IsPrPath(config, p) && StandsBeforeGate(p, id)
  }

  lemma EarlyWriteByPosition(config: Config, p: seq<NodeId>, id: NodeId)
    ensures EarlyWrite(config.nodes, p, id) <==> Writes(config, id) && StandsBeforeGate(p, id)
  {
    forall k | 0 <= k < |p| ensures BeforeGate(p, k) <==> GateNotBy(p, k) {
      BeforeGateByPosition(p, k);
    }
  }

  /** A writer is reported exactly if some path to the PR creator reaches it before the gate. */
  lemma EarlyWritesByFields(config: Config, id: NodeId)
    ensures ProtectedPathViolation(config, id) <==> Writes(config, id) && EarlyOnSomePath(config, id)
  {
    SamePrPaths(config);
    forall p ensures EarlyWrite(config.nodes, p, id) <==> Writes(config, id) && StandsBeforeGate(p, id) {
      EarlyWriteByPosition(config, p, id);
    }
  }

  // ------------------------------------------------ acceptance

  ghost predicate SystemNodesAreBound(config: Config) {
    forall id | IsSystemNode(id) ::
      && (exists n :: n in config.nodes && n.nodeId == id)
      && (forall n | n in config.nodes && n.nodeId == id :: n.handlerKind == SystemHandler && n.handlerName == id)
  }

  ghost predicate IsProtected(config: Config, p: seq<NodeId>) {
    && (forall id | IsOnEveryPrPath(id) :: id in p)
    && !ApprovedOn(config, p)
    && (forall n | n in config.nodes && n.writesRepo :: !StandsBeforeGate(p, n.nodeId))
  }

  ghost predicate EscalationsAreSunk(config: Config, sinks: set<string>) {
    forall e | e in config.edges && Escalates(e) :: e.escalationReason.Some? && e.escalationReason.value in sinks
  }

  lemma NoSystemErrorsIff(config: Config)
    ensures SystemNodesAreBound(config) <==>
            forall id ::
              !InvariantFault(config, MissingSystemNode(id)) && !InvariantFault(config, ReboundSystemNode(id))
  {
    forall id
      ensures !InvariantFault(config, MissingSystemNode(id)) && !InvariantFault(config, ReboundSystemNode(id)) <==>
        (IsSystemNode(id) ==>
           && (exists n :: n in config.nodes && n.nodeId == id)
           && (forall n | n in config.nodes && n.nodeId == id :: n.handlerKind == SystemHandler && n.handlerName == id))
    {
      SystemErrorsByFields(config, id);
    }
  }

  ghost predicate PathsAreClear(config: Config) {
    && (forall id :: !InvariantFault(config, PathMissesNode(id)))
    && !InvariantFault(config, ManualApprovalOnPath)
    && (forall id :: !ProtectedPathViolation(config, id))
  }

  lemma ClearPathsIff(config: Config)
    ensures PathsAreClear(config) <==> forall p | IsPrPath(config, p) :: IsProtected(config, p)
  {
    if PathsAreClear(config) {
      forall p | IsPrPath(config, p) ensures IsProtected(config, p) {
        ClearPathIsProtected(config, p);
      }
    }
    if forall p | IsPrPath(config, p) :: IsProtected(config, p) {
      ProtectedPathsAreClear(config);
    }
  }

  lemma ProtectedPathsAreClear(config: Config)
    requires forall p | IsPrPath(config, p) :: IsProtected(config, p)
    ensures PathsAreClear(config)
  {
    forall id ensures !InvariantFault(config, PathMissesNode(id)) && !ProtectedPathViolation(config, id) {
      PathErrorsByFields(config, id);
      EarlyWritesByFields(config, id);
    }
    PathErrorsByFields(config, PrCreator);
  }

  lemma ClearPathIsProtected(config: Config, p: seq<NodeId>)
    requires IsPrPath(config, p) && PathsAreClear(config)
    ensures IsProtected(config, p)
  {
    forall id | IsOnEveryPrPath(id) ensures id in p {
      PathErrorsByFields(config, id);
      assert !InvariantFault(config, PathMissesNode(id));
    }
    PathErrorsByFields(config, PrCreator);
    forall n | n in config.nodes && n.writesRepo ensures !StandsBeforeGate(p, n.nodeId) {
      EarlyWritesByFields(config, n.nodeId);
      assert !ProtectedPathViolation(config, n.nodeId);
      assert Writes(config, n.nodeId);
    }
  }

  ghost predicate NothingUnsunk(config: Config, sinks: set<string>) {
    && (forall source, to :: !InvariantFault(config, EscalationReasonMissing(source, to)))
    && (forall reason :: !MissingSink(config.edges, sinks, reason))
  }

  lemma NothingUnsunkIff(config: Config, sinks: set<string>)
    ensures NothingUnsunk(config, sinks) <==> EscalationsAreSunk(config, sinks)
  {
    if NothingUnsunk(config, sinks) {
      forall e | e in config.edges && Escalates(e)
        ensures e.escalationReason.Some? && e.escalationReason.value in sinks
      {
        var reason := if e.escalationReason.Some? then e.escalationReason.value else "";
        EscalationsByFields(config, sinks, e.source, e.target, reason);
        assert !InvariantFault(config, EscalationReasonMissing(e.source, e.target));
        assert !MissingSink(config.edges, sinks, reason);
      }
    }
    if EscalationsAreSunk(config, sinks) {
      forall source, to ensures !InvariantFault(config, EscalationReasonMissing(source, to)) {
        EscalationsByFields(config, sinks, source, to, "");
      }
      forall reason ensures !MissingSink(config.edges, sinks, reason) {
        EscalationsByFields(config, sinks, StartNode, EndNode, reason);
      }
    }
  }

  lemma AcceptedByErrors(config: Config, registry: Registry, sinks: set<string>)
    ensures Accepted(config, registry, sinks) <==>
      && Compiles(config, registry)
      && (forall id :: !InvariantFault(config, MissingSystemNode(id)) && !InvariantFault(config, ReboundSystemNode(id)))
      && !InvariantFault(config, NoSuccessPath)
      && PathsAreClear(config) && NothingUnsunk(config, sinks)
  {
    if forall id :: !InvariantFault(config, MissingSystemNode(id)) && !InvariantFault(config, ReboundSystemNode(id)) {
      if !InvariantFault(config, NoSuccessPath) && PathsAreClear(config) && NothingUnsunk(config, sinks) {
        forall e ensures !InvariantFault(config, e) {
          match e
          case MissingSystemNode(id) => assert !InvariantFault(config, MissingSystemNode(id));
          case ReboundSystemNode(id) => assert !InvariantFault(config, MissingSystemNode(id));
          case PathMissesNode(id) => assert !InvariantFault(config, PathMissesNode(id));
          case EscalationReasonMissing(a, b) => assert !InvariantFault(config, EscalationReasonMissing(a, b));
          case _ =>
        }
      }
    }
  }

  /** The validator accepts exactly the well-built configurations whose twelve system nodes are there and
      bound to their own handlers, that have a simple path to the PR creator, on each of which the six
      required nodes stand, no one approves by hand and no one writes before the gate, and whose
      escalations all have a reason with a sink. */
  lemma AcceptedIff(config: Config, registry: Registry, sinks: set<string>)
    ensures Accepted(config, registry, sinks) <==>
      && IsWellBuilt(config, registry)
      && SystemNodesAreBound(config)
      && (exists p :: IsPrPath(config, p))
      && (forall p | IsPrPath(config, p) :: IsProtected(config, p))
      && EscalationsAreSunk(config, sinks)
  {
    AcceptedByErrors(config, registry, sinks);
    CompilesIff(config, registry);
    NoSystemErrorsIff(config);
    PathErrorsByFields(config, PrCreator);
    ClearPathsIff(config);
    NothingUnsunkIff(config, sinks);
  }
}
