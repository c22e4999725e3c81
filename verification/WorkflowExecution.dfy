/** The workflow as it is carried out: a run object that the nodes update in place. */
module WorkflowExecution {
  import opened Common
  import opened Planner
  import opened Workflow
  import opened WorkflowTheorems

  class TicketRun {
    const maxClarificationIterations: int
    const maxTestRetries: int
    const maxReviewRetries: int
    var status: RunStatus
    var nodeHistory: seq<RunNode>
    var pausedAtNode: Option<RunNode>
    var escalationReason: Option<Reason>
    var escalationSink: Option<string>
    var clarificationAttempts: int
    var clarificationComplete: bool
    var taskList: Option<TaskList>
    var specReady: bool
    var requiredTestTargets: seq<TestTarget>
    var testRetryCount: int
    var testsPassed: bool
    var reviewRetryCount: int
    var qualityChecksPassed: bool
    var reviewApproved: bool
    var prePrSyncPassed: bool
    var branchProtectionPassed: bool
    var prCreated: bool

    constructor (planning: PlanningRequest)
      ensures View() == NEW_RUN && MadeFor(planning)
    {
      maxClarificationIterations := planning.maxClarificationIterations;
      maxTestRetries := planning.maxTestRetries;
      maxReviewRetries := planning.maxReviewRetries;
      status, nodeHistory := Planning, [Intake];
      pausedAtNode, escalationReason, escalationSink := None, None, None;
      clarificationAttempts, clarificationComplete := 0, false;
      taskList, specReady, requiredTestTargets := None, false, [];
      testRetryCount, testsPassed := 0, false;
      reviewRetryCount, qualityChecksPassed, reviewApproved := 0, false, false;
      prePrSyncPassed, branchProtectionPassed, prCreated := false, false, false;
    }

    function View(): Run
      reads this
    {
      Run(status, nodeHistory, pausedAtNode, escalationReason, escalationSink, clarificationAttempts,
          clarificationComplete, taskList, specReady, requiredTestTargets, testRetryCount, testsPassed,
          reviewRetryCount, qualityChecksPassed, reviewApproved, prePrSyncPassed, branchProtectionPassed, prCreated)
    }

    predicate MadeFor(planning: PlanningRequest) {
      && maxClarificationIterations == planning.maxClarificationIterations
      && maxTestRetries == planning.maxTestRetries
      && maxReviewRetries == planning.maxReviewRetries
    }

    method TransitionTo(node: RunNode)
      modifies `nodeHistory
      ensures View() == Enter(old(View()), node)
    {
      nodeHistory := nodeHistory + [node];
    }

    /** Resuming forgets why the run was paused. */
    method ClearPause()
      modifies `pausedAtNode, `escalationReason, `escalationSink, `status
      ensures View() == old(View()).(pausedAt := None, reason := None, sink := None,
                                     status := if old(status) == Paused then Active else old(status))
    {
      pausedAtNode, escalationReason, escalationSink := None, None, None;
      if status == Paused {
        status := Active;
      }
    }
  }

  method VisitClarify(req: Request, run: TicketRun)
    requires run.MadeFor(req.planning)
    modifies run
    ensures run.View() == DoClarify(req, old(run.View()))
  {
    run.TransitionTo(Clarify);
    if !req.planning.ambiguous {
      run.clarificationComplete := true;
    } else {
      run.clarificationAttempts := run.clarificationAttempts + 1;
      var attempt := req.planning.clarificationResolutionAttempt;
      if attempt.Some? && run.clarificationAttempts >= attempt.value {
        run.clarificationComplete := true;
      } else if run.clarificationAttempts >= run.maxClarificationIterations {
        run.escalationReason, run.pausedAtNode := Some(UnresolvedAmbiguity), Some(Clarify);
      }
    }
  }

  method VisitCreateTaskList(req: Request, run: TicketRun)
    modifies run
    ensures run.View() == DoCreateTaskList(req, old(run.View()))
  {
    run.TransitionTo(RunNode.CreateTaskList);
    var list, ready, errors := Planner.CreateTaskList(req.planning);
    run.taskList := list;
    run.specReady := ready;
    if list.Some? {
      run.requiredTestTargets := list.value.testTargets;
    }
  }

  method VisitReadinessGate(run: TicketRun)
    modifies run
    ensures run.View() == DoReadinessGate(old(run.View()))
  {
    run.TransitionTo(ReadinessGate);
    if run.taskList == None || !run.specReady {
      run.escalationReason, run.pausedAtNode := Some(InvalidRouteAttempt), Some(ReadinessGate);
      return;
    }
    run.status := Active;
  }

  method VisitCoder(run: TicketRun)
    modifies run
    ensures run.View() == DoCoder(old(run.View()))
  {
    run.TransitionTo(Coder);
    run.status := Active;
  }

  method VisitTester(req: Request, run: TicketRun)
    requires run.MadeFor(req.planning)
    modifies run
    ensures run.View() == DoTester(req, old(run.View()))
  {
    run.TransitionTo(Tester);
    var missingOrSkipped := req.execution.missingRequiredTests || req.execution.skipRequiredTests;
    var shouldFail := run.testRetryCount < req.execution.testFailuresBeforePass;
    var missingTargets := run.requiredTestTargets == [];
    if missingOrSkipped || shouldFail || missingTargets {
      if run.testRetryCount >= run.maxTestRetries {
        run.escalationReason, run.pausedAtNode := Some(MissingOrFailingRequiredTests), Some(Tester);
        return;
      }
      run.testRetryCount := run.testRetryCount + 1;
      run.testsPassed := false;
      return;
    }
    run.testsPassed := true;
  }

  method VisitReviewer(req: Request, run: TicketRun)
    requires run.MadeFor(req.planning)
    modifies run
    ensures run.View() == DoReviewer(req, old(run.View()))
  {
    run.TransitionTo(Reviewer);
    if !run.testsPassed {
      run.escalationReason, run.pausedAtNode := Some(InvalidRouteAttempt), Some(Reviewer);
      return;
    }
    if run.reviewRetryCount < req.execution.qualityFailuresBeforePass {
      if run.reviewRetryCount >= run.maxReviewRetries {
        run.escalationReason, run.pausedAtNode := Some(ReviewBudgetExhausted), Some(Reviewer);
        return;
      }
      run.reviewRetryCount := run.reviewRetryCount + 1;
      run.reviewApproved, run.qualityChecksPassed := false, false;
      return;
    }
    run.qualityChecksPassed, run.reviewApproved := true, true;
  }

  method VisitPrePrSync(req: Request, run: TicketRun)
    modifies run
    ensures run.View() == DoPrePrSync(req, old(run.View()))
  {
    run.TransitionTo(PrePrSync);
    if req.execution.diffTooLarge {
      run.escalationReason, run.pausedAtNode := Some(DiffTooLarge), Some(PrePrSync);
      return;
    }
    if req.execution.mergeConflict {
      run.escalationReason, run.pausedAtNode := Some(MergeConflictDetected), Some(PrePrSync);
      return;
    }
    if !req.protection.passed && !req.protection.shadowMode {
      run.escalationReason, run.pausedAtNode := Some(BranchProtectionMissing), Some(PrePrSync);
      return;
    }
    run.branchProtectionPassed := req.protection.passed || req.protection.shadowMode;
    run.prePrSyncPassed := true;
  }

  method VisitPrCreator(run: TicketRun)
    modifies run
    ensures run.View() == DoPrCreator(old(run.View()))
  {
    run.TransitionTo(PrCreator);
    if !(run.testsPassed && run.reviewApproved && run.prePrSyncPassed && run.branchProtectionPassed) {
      run.escalationReason, run.pausedAtNode := Some(InvalidRouteAttempt), Some(PrCreator);
      return;
    }
    run.prCreated := true;
    run.status := Completed;
  }

  method VisitEscalate(req: Request, run: TicketRun)
    modifies run
    ensures run.View() == DoEscalate(req, old(run.View()))
  {
    run.TransitionTo(Escalate);
    run.status := Paused;
    if run.escalationReason == None {
      run.escalationReason := Some(MissingEscalationSink);
      if run.pausedAtNode == None {
        run.pausedAtNode := Some(Escalate);
      }
    }
    if run.escalationReason.value in req.sinks {
      run.escalationSink := Some(req.sinks[run.escalationReason.value]);
    } else {
      run.escalationReason := Some(MissingEscalationSink);
      run.escalationSink := None;
    }
  }

  method VisitNode(req: Request, node: RunNode, run: TicketRun)
    requires run.MadeFor(req.planning)
    modifies run
    ensures run.View() == Visit(req, node, old(run.View()))
  {
    match node {
      case Clarify => VisitClarify(req, run);
      case CreateTaskList => VisitCreateTaskList(req, run);
      case ReadinessGate => VisitReadinessGate(run);
      case Coder => VisitCoder(run);
      case Tester => VisitTester(req, run);
      case Reviewer => VisitReviewer(req, run);
      case PrePrSync => VisitPrePrSync(req, run);
      case PrCreator => VisitPrCreator(run);
      case Escalate => VisitEscalate(req, run);
      case _ => run.TransitionTo(node);
    }
  }

  const DEFAULT_SINKS: map<Reason, string> := map[
    UnresolvedAmbiguity := "ops://clarification",
    TestRetryBudgetExhausted := "ops://testing",
    ReviewBudgetExhausted := "ops://review",
    MissingOrFailingRequiredTests := "ops://quality",
    DiffTooLarge := "ops://diff-guard",
    MergeConflictDetected := "ops://merge-conflict",
    InvalidRouteAttempt := "ops://workflow-guard",
    Reason.MissingEscalationSink := "ops://workflow-guard",
    BudgetExhausted := "ops://budgeting",
    AllProvidersUnavailable := "ops://llm-routing",
    ProviderFailoverExhausted := "ops://llm-routing",
    OrphanedBudgetReservationDetected := "ops://budgeting",
    BillingReconciliationDrift := "ops://metering",
    BranchProtectionMissing := "ops://security-review"]

  function EffectiveSinks(sinks: Option<map<Reason, string>>): map<Reason, string> {
    if sinks == None || sinks.value == map[] then DEFAULT_SINKS else sinks.value
  }

  /** The phase-one reasons that no sink is registered for. */
  method MissingSinks(sinks: map<Reason, string>) returns (missing: seq<Reason>)
    ensures forall reason :: reason in missing <==> reason in PHASE_ONE && reason !in sinks
    ensures missing == [] <==> HasPhaseOneSinks(sinks)
  {
    missing := [];
    for i := 0 to |PHASE_ONE|
      invariant forall reason :: reason in missing <==> reason in PHASE_ONE[..i] && reason !in sinks
    {
      if PHASE_ONE[i] !in sinks {
        missing := missing + [PHASE_ONE[i]];
      }
    }
    assert PHASE_ONE[..|PHASE_ONE|] == PHASE_ONE;
    if missing != [] {
      assert missing[0] in missing;
    }
  }

  /** A workflow run: refused without the phase-one sinks, otherwise carried to its end. */
  method Execute(planning: PlanningRequest, execution: ExecutionRequest, protection: Protection,
                 sinks: Option<map<Reason, string>>)
    returns (result: Result<TicketRun, seq<Reason>>)
    ensures result.Err? <==> !HasPhaseOneSinks(EffectiveSinks(sinks))
    ensures result.Err? ==>
              forall reason :: reason in result.error <==> reason in PHASE_ONE && reason !in EffectiveSinks(sinks)
    ensures result.Ok? ==>
              fresh(result.value)
              && result.value.View() == Final(Request(planning, execution, protection, EffectiveSinks(sinks)))
  {
    var registered := EffectiveSinks(sinks);
    var missing := MissingSinks(registered);
    if missing != [] {
      return Err(missing);
    }
    var req := Request(planning, execution, protection, registered);
    var run := new TicketRun(planning);
    var node := Some(LoadConstitution);
    while node.Some?
      invariant run.MadeFor(planning)
      invariant RunFrom(req, Position(node, run.View())) == Final(req)
      decreases Rank(req, Position(node, run.View()))
    {
      RankDecreases(req, Position(node, run.View()));
      VisitNode(req, node.value, run);
      node := Route(node.value, run.View());
    }
    result := Ok(run);
  }

  ghost function Position(node: Option<RunNode>, r: Run): Machine {
    if node.Some? then At(node.value, r) else Ended(r)
  }

  /** Nobody who relies on the default sinks is ever refused, or left without a sink. */
  lemma DefaultSinksSuffice(req: Request)
    ensures HasPhaseOneSinks(EffectiveSinks(None)) && HasPhaseOneSinks(EffectiveSinks(Some(map[])))
    ensures req.sinks == DEFAULT_SINKS && Final(req).status == Paused ==> Final(req).sink.Some?
  {
    forall reason: Reason ensures reason in DEFAULT_SINKS {
      match reason
      case UnresolvedAmbiguity => case TestRetryBudgetExhausted => case ReviewBudgetExhausted =>
      case MissingOrFailingRequiredTests => case DiffTooLarge => case MergeConflictDetected =>
      case InvalidRouteAttempt => case MissingEscalationSink => case BudgetExhausted =>
      case AllProvidersUnavailable => case ProviderFailoverExhausted => case OrphanedBudgetReservationDetected =>
      case BillingReconciliationDrift => case BranchProtectionMissing =>
    }
    RunEndsAsForeseen(req);
  }
}
