/** The runtime workflow as a state machine over its twelve nodes: what each node does to the
    run, where the run goes next, and what a run amounts to in the end. */
module Workflow {
  import opened Common
  import opened Planner

  datatype RunNode =
    | Intake | LoadConstitution | CreateFeatureSpec | Clarify | CreatePlan | CreateTaskList
    | ReadinessGate | Coder | Tester | Reviewer | PrePrSync | PrCreator | Escalate

  datatype RunStatus = Planning | Active | Paused | Completed

  datatype Reason =
    | UnresolvedAmbiguity | TestRetryBudgetExhausted | ReviewBudgetExhausted | MissingOrFailingRequiredTests
    | DiffTooLarge | MergeConflictDetected | InvalidRouteAttempt | MissingEscalationSink | BudgetExhausted
    | AllProvidersUnavailable | ProviderFailoverExhausted | OrphanedBudgetReservationDetected
    | BillingReconciliationDrift | BranchProtectionMissing

  datatype ExecutionRequest = ExecutionRequest(
    testFailuresBeforePass: int,
    qualityFailuresBeforePass: int,
    missingRequiredTests: bool,
    skipRequiredTests: bool,
    diffTooLarge: bool,
    mergeConflict: bool)

  /** The verifier's answer about the target branch; it is asked at most once in a run. */
  datatype Protection = Protection(passed: bool, shadowMode: bool)

  datatype Request = Request(planning: PlanningRequest, execution: ExecutionRequest, protection: Protection,
                             sinks: map<Reason, string>)

  datatype Run = Run(
    status: RunStatus,
    history: seq<RunNode>,
    pausedAt: Option<RunNode>,
    reason: Option<Reason>,
    sink: Option<string>,
    clarificationAttempts: int,
    clarificationComplete: bool,
    taskList: Option<TaskList>,
    specReady: bool,
    testTargets: seq<TestTarget>,
    testRetries: int,
    testsPassed: bool,
    reviewRetries: int,
    qualityPassed: bool,
    reviewApproved: bool,
    syncPassed: bool,
    protectionPassed: bool,
    prCreated: bool)

  const NEW_RUN := Run(Planning, [Intake], None, None, None, 0, false, None, false, [], 0, false, 0, false, false,
                       false, false, false)

  // ------------------------------------------------ what the nodes do

  /** transition_to: the current node is the last one in the history. */
  function Enter(r: Run, node: RunNode): Run {
    r.(history := r.history + [node])
  }

  predicate Resolved(p: PlanningRequest, attempts: int) {
    p.clarificationResolutionAttempt.Some? && attempts >= p.clarificationResolutionAttempt.value
  }

  function DoClarify(req: Request, r: Run): Run {
    var p := req.planning;
    var attempts := if p.ambiguous then r.clarificationAttempts + 1 else r.clarificationAttempts;
    var done := !p.ambiguous || Resolved(p, attempts);
    var stop := !done && attempts >= p.maxClarificationIterations;
    r.(history := r.history + [Clarify],
       clarificationAttempts := attempts,
       clarificationComplete := done || r.clarificationComplete,
       reason := if stop then Some(UnresolvedAmbiguity) else r.reason,
       pausedAt := if stop then Some(Clarify) else r.pausedAt)
  }

  function DoCreateTaskList(req: Request, r: Run): Run {
    var missing := req.planning.forceMissingTaskList;
    var list := PlannedList(req.planning);
    r.(
      history := r.history + [RunNode.CreateTaskList],
      specReady := PlanReady(req.planning),
      taskList := if missing then None else Some(list),
      testTargets := if missing then r.testTargets else list.testTargets)
  }

  function DoReadinessGate(r: Run): Run {
    var stop := r.taskList == None || !r.specReady;
    r.(history := r.history + [ReadinessGate],
       reason := if stop then Some(InvalidRouteAttempt) else r.reason,
       pausedAt := if stop then Some(ReadinessGate) else r.pausedAt,
       status := if stop then r.status else Active)
  }

  function DoCoder(r: Run): Run {
    r.(history := r.history + [Coder], status := Active)
  }

  predicate TestsFail(req: Request, r: Run) {
    || req.execution.missingRequiredTests
    || req.execution.skipRequiredTests
    || r.testRetries < req.execution.testFailuresBeforePass
    || r.testTargets == []
  }

  function DoTester(req: Request, r: Run): Run {
    var fail := TestsFail(req, r);
    var stop := fail && r.testRetries >= req.planning.maxTestRetries;
    r.(history := r.history + [Tester],
       reason := if stop then Some(MissingOrFailingRequiredTests) else r.reason,
       pausedAt := if stop then Some(Tester) else r.pausedAt,
       testRetries := if fail && !stop then r.testRetries + 1 else r.testRetries,
       testsPassed := if stop then r.testsPassed else !fail)
  }

  function DoReviewer(req: Request, r: Run): Run {
    var fail := r.reviewRetries < req.execution.qualityFailuresBeforePass;
    var stop := !r.testsPassed || (fail && r.reviewRetries >= req.planning.maxReviewRetries);
    r.(history := r.history + [Reviewer],
       reason := if !r.testsPassed then Some(InvalidRouteAttempt)
                 else if stop then Some(ReviewBudgetExhausted) else r.reason,
       pausedAt := if stop then Some(Reviewer) else r.pausedAt,
       reviewRetries := if fail && !stop then r.reviewRetries + 1 else r.reviewRetries,
       reviewApproved := if stop then r.reviewApproved else !fail,
       qualityPassed := if stop then r.qualityPassed else !fail)
  }

  /** Why the sync stops, if it does: the first of three checks that fails. */
  function SyncProblem(req: Request): Option<Reason> {
    if req.execution.diffTooLarge then Some(DiffTooLarge)
    else if req.execution.mergeConflict then Some(MergeConflictDetected)
    else if !req.protection.passed && !req.protection.shadowMode then Some(BranchProtectionMissing)
    else None
  }

  function DoPrePrSync(req: Request, r: Run): Run {
    var problem := SyncProblem(req);
    r.(
      history := r.history + [PrePrSync],
      reason := if problem.Some? then problem else r.reason,
      pausedAt := if problem.Some? then Some(PrePrSync) else r.pausedAt,
      protectionPassed :=
        if problem.Some? then r.protectionPassed else req.protection.passed || req.protection.shadowMode,
      syncPassed := if problem.Some? then r.syncPassed else true)
  }

  predicate MayCreatePr(r: Run) {
    r.testsPassed && r.reviewApproved && r.syncPassed && r.protectionPassed
  }

  function DoPrCreator(r: Run): Run {
    r.(history := r.history + [PrCreator],
       reason := if MayCreatePr(r) then r.reason else Some(InvalidRouteAttempt),
       pausedAt := if MayCreatePr(r) then r.pausedAt else Some(PrCreator),
       prCreated := if MayCreatePr(r) then true else r.prCreated,
       status := if MayCreatePr(r) then Completed else r.status)
  }

  /** The sink of the reason the run was stopped for; a reason without a sink is replaced. */
  function DoEscalate(req: Request, r: Run): Run {
    var reason := if r.reason.Some? then r.reason.value else MissingEscalationSink;
    var known := reason in req.sinks;
    r.(
      history := r.history + [Escalate],
      status := Paused,
      reason := Some(if known then reason else MissingEscalationSink),
      pausedAt := if r.reason == None && r.pausedAt == None then Some(Escalate) else r.pausedAt,
      sink := if known then Some(req.sinks[reason]) else None)
  }

  function Visit(req: Request, node: RunNode, r: Run): Run {
    match node
    case Clarify => DoClarify(req, r)
    case CreateTaskList => DoCreateTaskList(req, r)
    case ReadinessGate => DoReadinessGate(r)
    case Coder => DoCoder(r)
    case Tester => DoTester(req, r)
    case Reviewer => DoReviewer(req, r)
    case PrePrSync => DoPrePrSync(req, r)
    case PrCreator => DoPrCreator(r)
    case Escalate => DoEscalate(req, r)
    case _ => Enter(r, node)
  }

  // ------------------------------------------------ where the run goes next

  /** The node after this one; None is END. */
  function Route(node: RunNode, r: Run): Option<RunNode> {
    match node
    case Intake => Some(LoadConstitution)
    case LoadConstitution => Some(CreateFeatureSpec)
    case CreateFeatureSpec => Some(Clarify)
    case Clarify =>
      if r.reason != None then Some(Escalate) else if r.clarificationComplete then Some(CreatePlan) else Some(Clarify)
    case CreatePlan => Some(CreateTaskList)
    case CreateTaskList => Some(ReadinessGate)
    case ReadinessGate => if r.reason != None then Some(Escalate) else Some(Coder)
    case Coder => Some(Tester)
    case Tester =>
      if r.reason != None then Some(Escalate) else if r.testsPassed then Some(Reviewer) else Some(Coder)
    case Reviewer =>
      if r.reason != None then Some(Escalate) else if r.reviewApproved then Some(PrePrSync) else Some(Coder)
    case PrePrSync => if r.reason != None then Some(Escalate) else Some(PrCreator)
    case PrCreator => if r.prCreated then None else Some(Escalate)
    case Escalate => None
  }

  /** The edges the graph is built with. */
  predicate Wired(a: RunNode, b: RunNode) {
    match a
    case Intake => b == LoadConstitution
    case LoadConstitution => b == CreateFeatureSpec
    case CreateFeatureSpec => b == Clarify
    case Clarify => b == Clarify || b == CreatePlan || b == Escalate
    case CreatePlan => b == CreateTaskList
    case CreateTaskList => b == ReadinessGate
    case ReadinessGate => b == Coder || b == Escalate
    case Coder => b == Tester
    case Tester => b == Coder || b == Reviewer || b == Escalate
    case Reviewer => b == Coder || b == PrePrSync || b == Escalate
    case PrePrSync => b == PrCreator || b == Escalate
    case PrCreator => b == Escalate
    case Escalate => false
  }

  /** A run that is about to enter a node, or has reached END. */
  datatype Machine = At(node: RunNode, run: Run) | Ended(run: Run)

  function Step(req: Request, m: Machine): Machine
    requires m.At?
  {
    var r := Visit(req, m.node, m.run);
    match Route(m.node, r)
    case Some(next) => At(next, r)
    case None => Ended(r)
  }

  const START := At(LoadConstitution, NEW_RUN)

  // ------------------------------------------------ every run ends

  /** How far a node is from the end of the chain. */
  function Distance(node: RunNode): nat {
    match node
    case Intake => 13
    case LoadConstitution => 12
    case CreateFeatureSpec => 11
    case Clarify => 10
    case CreatePlan => 9
    case CreateTaskList => 8
    case ReadinessGate => 7
    case Coder => 6
    case Tester => 5
    case Reviewer => 4
    case PrePrSync => 3
    case PrCreator => 2
    case Escalate => 1
  }

  /** What is left of the three retry budgets, and of the chain. */
  function Rank(req: Request, m: Machine): nat {
    match m
    case Ended(_) => 0
    case At(node, r) =>
      Pos(req.planning.maxClarificationIterations - r.clarificationAttempts)
      + 3 * Pos(req.planning.maxTestRetries - r.testRetries)
      + 3 * Pos(req.planning.maxReviewRetries - r.reviewRetries)
      + Distance(node)
  }

  ghost predicate SameCounters(r: Run, t: Run) {
    && t.clarificationAttempts == r.clarificationAttempts
    && t.testRetries == r.testRetries
    && t.reviewRetries == r.reviewRetries
  }

  lemma ClarifyBudget(req: Request, r: Run)
    ensures var t := DoClarify(req, r);
      && t.testRetries == r.testRetries && t.reviewRetries == r.reviewRetries
      && r.clarificationAttempts <= t.clarificationAttempts
      && (Route(Clarify, t) == Some(Clarify) ==>
            r.clarificationAttempts < t.clarificationAttempts < req.planning.maxClarificationIterations)
  {
  }

  lemma TesterBudget(req: Request, r: Run)
    ensures var t := DoTester(req, r);
      && t.clarificationAttempts == r.clarificationAttempts && t.reviewRetries == r.reviewRetries
      && r.testRetries <= t.testRetries
      && (Route(Tester, t) == Some(Coder) ==> r.testRetries < t.testRetries <= req.planning.maxTestRetries)
  {
  }

  lemma ReviewerBudget(req: Request, r: Run)
    ensures var t := DoReviewer(req, r);
      && t.clarificationAttempts == r.clarificationAttempts && t.testRetries == r.testRetries
      && r.reviewRetries <= t.reviewRetries
      && (Route(Reviewer, t) == Some(Coder) ==> r.reviewRetries < t.reviewRetries <= req.planning.maxReviewRetries)
  {
  }

  /** The other nodes leave the budgets alone and lead forward. */
  lemma OtherNodesGoForward(req: Request, node: RunNode, r: Run)
    requires node != Clarify && node != Tester && node != Reviewer
    ensures SameCounters(r, Visit(req, node, r))
    ensures Route(node, Visit(req, node, r)).Some? ==> Distance(Route(node, Visit(req, node, r)).value) < Distance(node)
  {
  }

  /** Every node brings the run closer to END: going round a loop costs more of its budget than
      the way back is long. */
  lemma RankDecreases(req: Request, m: Machine)
    requires m.At?
    ensures Rank(req, Step(req, m)) < Rank(req, m)
  {
    match m.node
    case Clarify => ClarifyBudget(req, m.run);
    case Tester => TesterBudget(req, m.run);
    case Reviewer => ReviewerBudget(req, m.run);
    case _ => OtherNodesGoForward(req, m.node, m.run);
  }

  function RunFrom(req: Request, m: Machine): Run
    decreases Rank(req, m)
  {
    if m.Ended? then m.run
    else
      RankDecreases(req, m);
      RunFrom(req, Step(req, m))
  }

  /** The state of a run handed back by execute. */
  function Final(req: Request): Run {
    RunFrom(req, START)
  }

  // ------------------------------------------------ the closed form

  datatype Outcome = Created | Stopped(reason: Reason, node: RunNode)

  /** Clarification succeeds by the attempt the request names, if the iterations last that long. */
  predicate ClarificationResolves(p: PlanningRequest) {
    !p.ambiguous
    || (p.clarificationResolutionAttempt.Some?
        && Max(1, p.clarificationResolutionAttempt.value) <= Max(1, p.maxClarificationIterations))
  }

  predicate FailuresFit(failures: int, retries: int) {
    failures <= 0 || failures <= retries
  }

  predicate TestsResolve(req: Request) {
    && !req.execution.missingRequiredTests
    && !req.execution.skipRequiredTests
    && FailuresFit(req.execution.testFailuresBeforePass, req.planning.maxTestRetries)
  }

  predicate ReviewsResolve(req: Request) {
    FailuresFit(req.execution.qualityFailuresBeforePass, req.planning.maxReviewRetries)
  }

  /** What becomes of a request, read off the request alone. */
  function OutcomeOf(req: Request): Outcome {
    if !ClarificationResolves(req.planning) then Stopped(UnresolvedAmbiguity, Clarify)
    else if !PlanReady(req.planning) then Stopped(InvalidRouteAttempt, ReadinessGate)
    else if !TestsResolve(req) then Stopped(MissingOrFailingRequiredTests, Tester)
    else if !ReviewsResolve(req) then Stopped(ReviewBudgetExhausted, Reviewer)
    else if req.execution.diffTooLarge then Stopped(DiffTooLarge, PrePrSync)
    else if req.execution.mergeConflict then Stopped(MergeConflictDetected, PrePrSync)
    else if !req.protection.passed && !req.protection.shadowMode then Stopped(BranchProtectionMissing, PrePrSync)
    else Created
  }

  // ------------------------------------------------ what holds along every run

  function ClarifyVisits(req: Request, r: Run): int {
    if req.planning.ambiguous then r.clarificationAttempts else if r.clarificationComplete then 1 else 0
  }

  /** Visits since intake, when the run is about to enter `node`. */
  function VisitsBefore(req: Request, node: RunNode, r: Run): int {
    var loops := ClarifyVisits(req, r) + 2 * r.testRetries + 3 * r.reviewRetries;
    match node
    case Intake => 0
    case LoadConstitution => 0
    case CreateFeatureSpec => 1
    case Clarify => 2 + loops
    case CreatePlan => 2 + loops
    case CreateTaskList => 3 + loops
    case ReadinessGate => 4 + loops
    case Coder => 5 + loops
    case Tester => 6 + loops
    case Reviewer => 7 + loops
    case PrePrSync => 8 + loops
    case PrCreator => 9 + loops
    case Escalate => 0
  }

  function CoderVisits(h: seq<RunNode>): nat {
    if h == [] then 0 else CoderVisits(h[..|h| - 1]) + if h[|h| - 1] == Coder then 1 else 0
  }

  lemma CoderVisitsSnoc(h: seq<RunNode>, n: RunNode)
    ensures CoderVisits(h + [n]) == CoderVisits(h) + if n == Coder then 1 else 0
  {
    assert (h + [n])[..|h|] == h;
  }

  ghost predicate IsWiredPath(h: seq<RunNode>) {
    && |h| > 0 && h[0] == Intake
    && forall i | 0 <= i < |h| - 1 :: Wired(h[i], h[i + 1])
  }

  /** The history is a path of the wired graph that the next node extends. */
  ghost predicate HistoryLeadsTo(r: Run, node: RunNode) {
    IsWiredPath(r.history) && Wired(r.history[|r.history| - 1], node)
  }

  function Place(node: RunNode): nat {
    13 - Distance(node)
  }

  /** Clarification is over, and how. */
  predicate Clarified(req: Request, r: Run) {
    && r.clarificationComplete
    && ClarificationResolves(req.planning)
    && (req.planning.ambiguous ==>
          r.clarificationAttempts == Max(1, req.planning.clarificationResolutionAttempt.value))
  }

  /** No attempt so far resolved the ambiguity or exhausted the iterations. */
  predicate StillUnclear(req: Request, r: Run) {
    && !r.clarificationComplete
    && r.clarificationAttempts >= 0
    && (r.clarificationAttempts > 0 ==>
          && req.planning.ambiguous
          && r.clarificationAttempts < req.planning.maxClarificationIterations
          && (req.planning.clarificationResolutionAttempt.Some? ==>
                r.clarificationAttempts < req.planning.clarificationResolutionAttempt.value))
  }

  predicate Planned(req: Request, r: Run) {
    && r.specReady == PlanReady(req.planning)
    && (r.taskList == None <==> req.planning.forceMissingTaskList)
    && (r.taskList.Some? ==> r.testTargets == PlannedList(req.planning).testTargets)
  }

  /** The gate has been passed and the retry counters are within their budgets. */
  predicate Gated(req: Request, r: Run) {
    && PlanReady(req.planning) && r.testTargets != []
    && 0 <= r.testRetries <= Pos(req.planning.maxTestRetries)
    && 0 <= r.reviewRetries <= Pos(req.planning.maxReviewRetries)
    && r.reviewRetries <= Pos(req.execution.qualityFailuresBeforePass)
    && (TestsResolve(req) ==> r.testRetries <= Pos(req.execution.testFailuresBeforePass))
    && (r.reviewRetries > 0 ==> Tested(req, r))
  }

  predicate Tested(req: Request, r: Run) {
    TestsResolve(req) && r.testRetries == Pos(req.execution.testFailuresBeforePass)
  }

  predicate Reviewed(req: Request, r: Run) {
    ReviewsResolve(req) && r.reviewRetries == Pos(req.execution.qualityFailuresBeforePass)
  }

  /** What a run that is about to enter a node has been through. */
  predicate Progress(req: Request, node: RunNode, r: Run) {
    var p := Place(node);
    && (p <= 2 ==> r == NEW_RUN.(history := r.history))
    && (p == 3 ==> StillUnclear(req, r))
    && (4 <= p <= 11 ==> Clarified(req, r))
    && (p == 6 ==> Planned(req, r))
    && (p <= 6 ==> r.testRetries == 0 && r.reviewRetries == 0)
    && (7 <= p <= 11 ==> Gated(req, r))
    && (9 <= p <= 11 ==> Tested(req, r) && r.testsPassed)
    && (10 <= p <= 11 ==> Reviewed(req, r) && r.reviewApproved && r.qualityPassed)
    && (p == 11 ==> OutcomeOf(req) == Created && r.syncPassed && r.protectionPassed)
  }

  /** Where the run stands: going, with its progress, or stopped for the reason the request gives. */
  predicate Standing(req: Request, node: RunNode, r: Run) {
    && !r.prCreated && r.sink == None && r.status != Completed && r.status != Paused
    && if node == Escalate then
         && r.reason.Some? && r.pausedAt.Some? && OutcomeOf(req) == Stopped(r.reason.value, r.pausedAt.value)
         && (Place(r.pausedAt.value) <= 6 ==> r.testRetries == 0 && r.reviewRetries == 0)
       else
         node != Intake && r.reason == None && r.pausedAt == None && Progress(req, node, r)
  }

  /** Whether the coder has been reached; a stopped run tells by the node it was stopped at. */
  predicate PastCoder(node: RunNode, r: Run) {
    if node == Escalate then r.pausedAt.Some? && Place(r.pausedAt.value) >= 8 else Place(node) >= 8
  }

  function CoderVisitsBefore(node: RunNode, r: Run): int {
    r.testRetries + r.reviewRetries + if PastCoder(node, r) then 1 else 0
  }

  /** The way the run has come: a wired path, of a length the counters tell. */
  ghost predicate Trail(req: Request, node: RunNode, r: Run) {
    && HistoryLeadsTo(r, node)
    && (node != Escalate ==> |r.history| - 1 == VisitsBefore(req, node, r))
    && CoderVisits(r.history) == CoderVisitsBefore(node, r)
  }

  ghost predicate Inv(req: Request, m: Machine) {
    match m
    case At(node, r) => Trail(req, node, r) && Standing(req, node, r)
    case Ended(r) =>
      && IsWiredPath(r.history)
      && (OutcomeOf(req) == Created ==> EndsCreated(req, r))
      && (OutcomeOf(req).Stopped? ==> EndsStopped(req, r))
  }

  ghost predicate EndsCreated(req: Request, r: Run) {
    && r.prCreated && r.status == Completed && r.reason == None && r.pausedAt == None && r.sink == None
    && Clarified(req, r) && Tested(req, r) && Reviewed(req, r)
    && |r.history| - 1 == 10 + ClarifyVisits(req, r) + 2 * r.testRetries + 3 * r.reviewRetries
    && CoderVisits(r.history) == 1 + r.testRetries + r.reviewRetries
  }

  ghost predicate EndsStopped(req: Request, r: Run)
    requires OutcomeOf(req).Stopped?
  {
    && !r.prCreated && r.status == Paused && r.pausedAt == Some(OutcomeOf(req).node)
    && CoderVisits(r.history) == CoderVisitsBefore(Escalate, r)
    && (Place(OutcomeOf(req).node) <= 6 ==> r.testRetries == 0 && r.reviewRetries == 0)
    && if OutcomeOf(req).reason in req.sinks
       then r.reason == Some(OutcomeOf(req).reason) && r.sink == Some(req.sinks[OutcomeOf(req).reason])
       else r.reason == Some(MissingEscalationSink) && r.sink == None
  }

  lemma EnterExtends(r: Run, node: RunNode, next: RunNode)
    requires HistoryLeadsTo(r, node)
    ensures IsWiredPath(Enter(r, node).history)
    ensures Wired(node, next) ==> HistoryLeadsTo(Enter(r, node), next)
    ensures CoderVisits(Enter(r, node).history) == CoderVisits(r.history) + if node == Coder then 1 else 0
  {
    CoderVisitsSnoc(r.history, node);
  }

  lemma TrailExtends(req: Request, node: RunNode, r: Run, t: Run, next: RunNode)
    requires Trail(req, node, r) && node != Escalate
    requires t.history == r.history + [node] && Wired(node, next)
    requires Counted(req, node, r, t, next)
    ensures Trail(req, next, t)
  {
    EnterExtends(r, node, next);
  }

  lemma StartSatisfiesInv(req: Request)
    ensures Inv(req, START)
  {
    var r := NEW_RUN;
    assert r.history[..0] == [];
    assert CoderVisits(r.history) == 0;
  }

  lemma OpeningGoesOn(req: Request, node: RunNode, r: Run)
    requires Standing(req, node, r) && node in {LoadConstitution, CreateFeatureSpec, CreatePlan}
    ensures Standing(req, Route(node, Enter(r, node)).value, Enter(r, node))
  {
  }

  lemma ClarifyGoesOn(req: Request, r: Run, t: Run)
    requires Standing(req, Clarify, r) && t == DoClarify(req, r)
    ensures Standing(req, Route(Clarify, t).value, t)
    ensures Route(Clarify, t) != Some(Escalate) ==> ClarifyVisits(req, t) == ClarifyVisits(req, r) + 1
    ensures CoderVisitsBefore(Route(Clarify, t).value, t) == CoderVisitsBefore(Clarify, r) == 0
  {
  }

  lemma CreateTaskListGoesOn(req: Request, r: Run, t: Run)
    requires Standing(req, CreateTaskList, r) && t == DoCreateTaskList(req, r)
    ensures Standing(req, ReadinessGate, t)
  {
  }

  lemma ReadinessGateGoesOn(req: Request, r: Run, t: Run)
    requires Standing(req, ReadinessGate, r) && t == DoReadinessGate(r)
    ensures Standing(req, Route(ReadinessGate, t).value, t)
  {
    if PlanReady(req.planning) {
      assert PlannedTargets(|req.planning.implementationTasks|) != [];
    }
  }

  lemma CoderGoesOn(req: Request, r: Run, t: Run)
    requires Standing(req, Coder, r) && t == DoCoder(r)
    ensures Standing(req, Tester, t)
  {
  }

  lemma TesterGoesOn(req: Request, r: Run, t: Run)
    requires Standing(req, Tester, r) && t == DoTester(req, r)
    ensures Standing(req, Route(Tester, t).value, t)
  {
  }

  lemma ReviewerGoesOn(req: Request, r: Run, t: Run)
    requires Standing(req, Reviewer, r) && t == DoReviewer(req, r)
    ensures Standing(req, Route(Reviewer, t).value, t)
  {
  }

  lemma PrePrSyncGoesOn(req: Request, r: Run, t: Run)
    requires Standing(req, PrePrSync, r) && t == DoPrePrSync(req, r)
    ensures Standing(req, Route(PrePrSync, t).value, t)
  {
  }

  /** The counters pay for the loops: the visit of node is accounted for. */
  ghost predicate Counted(req: Request, node: RunNode, r: Run, t: Run, next: RunNode) {
    && (next != Escalate ==> VisitsBefore(req, next, t) == VisitsBefore(req, node, r) + 1)
    && CoderVisitsBefore(next, t) == CoderVisitsBefore(node, r) + if node == Coder then 1 else 0
  }

  lemma VisitsAreCounted(req: Request, node: RunNode, r: Run, t: Run, next: RunNode)
    requires Standing(req, node, r) && node != Escalate && node != PrCreator
    requires t == Visit(req, node, r) && Route(node, t) == Some(next)
    ensures Counted(req, node, r, t, next)
  {
    if node == Clarify {
      ClarifyIsCounted(req, r, t, next);
    } else if node == Tester {
      TesterIsCounted(req, r, t, next);
    } else if node == Reviewer {
      ReviewerIsCounted(req, r, t, next);
    } else {
      OtherNodesAreCounted(req, node, r, t, next);
    }
  }

  lemma ClarifyIsCounted(req: Request, r: Run, t: Run, next: RunNode)
    requires Standing(req, Clarify, r) && t == DoClarify(req, r) && Route(Clarify, t) == Some(next)
    ensures Counted(req, Clarify, r, t, next)
  {
    ClarifyGoesOn(req, r, t);
  }

  lemma TesterIsCounted(req: Request, r: Run, t: Run, next: RunNode)
    requires r.reason == None && t == DoTester(req, r) && Route(Tester, t) == Some(next)
    ensures Counted(req, Tester, r, t, next)
  {
  }

  lemma ReviewerIsCounted(req: Request, r: Run, t: Run, next: RunNode)
    requires r.reason == None && t == DoReviewer(req, r) && Route(Reviewer, t) == Some(next)
    ensures Counted(req, Reviewer, r, t, next)
  {
  }

  lemma OtherNodesAreCounted(req: Request, node: RunNode, r: Run, t: Run, next: RunNode)
    requires Standing(req, node, r) && node !in {Clarify, Tester, Reviewer, PrCreator, Escalate}
    requires t == Visit(req, node, r) && Route(node, t) == Some(next)
    ensures Counted(req, node, r, t, next)
  {
    OtherNodesGoForward(req, node, r);
    assert t.clarificationComplete == r.clarificationComplete;
  }

  lemma PlanningGoesOn(req: Request, node: RunNode, r: Run, t: Run)
    requires Standing(req, node, r) && Place(node) <= 6 && t == Visit(req, node, r)
    ensures Standing(req, Route(node, t).value, t)
  {
    if node == Clarify {
      ClarifyGoesOn(req, r, t);
    } else if node == CreateTaskList {
      CreateTaskListGoesOn(req, r, t);
    } else if node == ReadinessGate {
      ReadinessGateGoesOn(req, r, t);
    } else {
      OpeningGoesOn(req, node, r);
    }
  }

  lemma ExecutionGoesOn(req: Request, node: RunNode, r: Run, t: Run)
    requires Standing(req, node, r) && node in {Coder, Tester, Reviewer, PrePrSync} && t == Visit(req, node, r)
    ensures Standing(req, Route(node, t).value, t)
  {
    if node == Coder {
      CoderGoesOn(req, r, t);
    } else if node == Tester {
      TesterGoesOn(req, r, t);
    } else if node == Reviewer {
      ReviewerGoesOn(req, r, t);
    } else {
      PrePrSyncGoesOn(req, r, t);
    }
  }

  lemma GoesOn(req: Request, node: RunNode, r: Run, t: Run)
    requires Standing(req, node, r) && node != Escalate && node != PrCreator && t == Visit(req, node, r)
    ensures Standing(req, Route(node, t).value, t)
  {
    if Place(node) <= 6 {
      PlanningGoesOn(req, node, r, t);
    } else {
      ExecutionGoesOn(req, node, r, t);
    }
  }

  lemma PrCreatorEndsRun(req: Request, r: Run)
    requires Inv(req, At(PrCreator, r))
    ensures Inv(req, Step(req, At(PrCreator, r)))
  {
    EnterExtends(r, PrCreator, Escalate);
  }

  lemma EscalateEndsRun(req: Request, r: Run)
    requires Inv(req, At(Escalate, r))
    ensures Inv(req, Step(req, At(Escalate, r)))
  {
    EnterExtends(r, Escalate, Escalate);
  }

  lemma VisitEntersFirst(req: Request, node: RunNode, r: Run)
    ensures Visit(req, node, r).history == r.history + [node]
  {
    match node
    case Clarify => assert DoClarify(req, r).history == r.history + [node];
    case CreateTaskList => assert DoCreateTaskList(req, r).history == r.history + [node];
    case ReadinessGate => assert DoReadinessGate(r).history == r.history + [node];
    case Coder => assert DoCoder(r).history == r.history + [node];
    case Tester => assert DoTester(req, r).history == r.history + [node];
    case Reviewer => assert DoReviewer(req, r).history == r.history + [node];
    case PrePrSync => assert DoPrePrSync(req, r).history == r.history + [node];
    case PrCreator => assert DoPrCreator(r).history == r.history + [node];
    case Escalate => assert DoEscalate(req, r).history == r.history + [node];
    case _ => assert Enter(r, node).history == r.history + [node];
  }

  /** The routers only choose among the edges the graph was built with. */
  lemma RoutesAreWired(node: RunNode, r: Run)
    ensures Route(node, r).Some? ==> Wired(node, Route(node, r).value)
  {
  }

  lemma StepKeepsInv(req: Request, m: Machine)
    requires m.At? && Inv(req, m)
    ensures Inv(req, Step(req, m))
  {
    if m.node == PrCreator {
      PrCreatorEndsRun(req, m.run);
    } else if m.node == Escalate {
      EscalateEndsRun(req, m.run);
    } else {
      var t := Visit(req, m.node, m.run);
      GoesOn(req, m.node, m.run, t);
      var next := Route(m.node, t).value;
      VisitEntersFirst(req, m.node, m.run);
      RoutesAreWired(m.node, t);
      VisitsAreCounted(req, m.node, m.run, t, next);
      TrailExtends(req, m.node, m.run, t, next);
    }
  }
}
