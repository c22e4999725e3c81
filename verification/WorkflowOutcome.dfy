/** The whole state a run ends in, history included, as a function of the request alone. */
module WorkflowOutcome {
  import opened Common
  import opened Planner
  import opened Workflow
  import opened WorkflowTheorems

  /** The gate and the coder leave a run active, whatever it was, unless the gate stops it. */
  lemma GateAndCoderActivate(r: Run)
    ensures DoCoder(r).status == Active
    ensures DoReadinessGate(r).status == if r.taskList == None || !r.specReady then r.status else Active
  {
  }

  // ------------------------------------------------ how often the loops are gone round

  /** Clarification attempts of an ambiguous request: until it resolves, or the iterations are used up. */
  function Attempts(req: Request): nat {
    var p := req.planning;
    if !p.ambiguous then 0
    else if ClarificationResolves(p) then Max(1, p.clarificationResolutionAttempt.value)
    else Max(1, p.maxClarificationIterations)
  }

  /** No plan is carried out when clarification or the readiness gate stops the run. */
  predicate IsExecuted(req: Request) {
    ClarificationResolves(req.planning) && PlanReady(req.planning)
  }

  function TestRetries(req: Request): nat {
    if !IsExecuted(req) then 0
    else if TestsResolve(req) then Pos(req.execution.testFailuresBeforePass)
    else Pos(req.planning.maxTestRetries)
  }

  function ReviewRetries(req: Request): nat {
    if !IsExecuted(req) || !TestsResolve(req) then 0
    else if ReviewsResolve(req) then Pos(req.execution.qualityFailuresBeforePass)
    else Pos(req.planning.maxReviewRetries)
  }

  // ------------------------------------------------ the state on entering a node

  function Repeat(nodes: seq<RunNode>, n: int): seq<RunNode> {
    if n <= 0 then [] else Repeat(nodes, n - 1) + nodes
  }

  /** The way through the planning nodes, with a clarifications made. */
  function PlanningWay(req: Request, a: int): seq<RunNode> {
    [Intake, LoadConstitution, CreateFeatureSpec] + Repeat([Clarify], if req.planning.ambiguous then a else 1)
    + [CreatePlan, RunNode.CreateTaskList, ReadinessGate]
  }

  /** Then t failed test rounds and q failed reviews, in this order: tests fail before they first pass. */
  function LoopsWay(req: Request, a: int, t: int, q: int): seq<RunNode> {
    PlanningWay(req, a) + Repeat([Coder, Tester], t) + Repeat([Coder, Tester, Reviewer], q)
  }

  /** The history of a run that is about to enter `node`. */
  function WayTo(req: Request, node: RunNode, a: int, t: int, q: int): seq<RunNode> {
    var opening := [Intake, LoadConstitution, CreateFeatureSpec];
    var clarified := opening + Repeat([Clarify], if req.planning.ambiguous then a else 1);
    match node
    case Intake => []
    case LoadConstitution => [Intake]
    case CreateFeatureSpec => [Intake, LoadConstitution]
    case Clarify => opening + Repeat([Clarify], a)
    case CreatePlan => clarified
    case CreateTaskList => clarified + [CreatePlan]
    case ReadinessGate => clarified + [CreatePlan, RunNode.CreateTaskList]
    case Coder => LoopsWay(req, a, t, q)
    case Tester => LoopsWay(req, a, t, q) + [Coder]
    case Reviewer => LoopsWay(req, a, t, q) + [Coder, Tester]
    case PrePrSync => LoopsWay(req, a, t, q) + [Coder, Tester, Reviewer]
    case PrCreator => LoopsWay(req, a, t, q) + [Coder, Tester, Reviewer, PrePrSync]
    case Escalate => []
  }

  /** Everything about a run that is about to enter `node`: what the nodes before it have set, and
      nothing else. Tests count as passed from the first review on. */
  function StateAt(req: Request, node: RunNode, a: int, t: int, q: int): Run {
    var p := Place(node);
    var hasList := p >= Place(ReadinessGate) && !req.planning.forceMissingTaskList;
    Run(if p > Place(ReadinessGate) then Active else Planning, WayTo(req, node, a, t, q), None, None, None,
        a, p > Place(Clarify),
        if hasList then Some(PlannedList(req.planning)) else None,
        p >= Place(ReadinessGate) && PlanReady(req.planning),
        if hasList then PlannedList(req.planning).testTargets else [],
        t, p > Place(Tester) || q > 0, q, p > Place(Reviewer), p > Place(Reviewer),
        p > Place(PrePrSync), p > Place(PrePrSync), false)
  }

  /** The run a node has stopped. The attempts at clarification count the visit that gave up. */
  function StoppedAt(req: Request, node: RunNode, reason: Reason): Run {
    var r := StateAt(req, node, Attempts(req), TestRetries(req), ReviewRetries(req));
    r.(history := if node == Clarify then r.history else r.history + [node],
       pausedAt := Some(node), reason := Some(reason))
  }

  /** The state a run ends in. */
  function FinalRun(req: Request): Run {
    match OutcomeOf(req)
    case Created =>
      var r := StateAt(req, PrCreator, Attempts(req), TestRetries(req), ReviewRetries(req));
      r.(history := r.history + [PrCreator], prCreated := true, status := Completed)
    case Stopped(reason, node) =>
      var r := StoppedAt(req, node, reason);
      r.(history := r.history + [Escalate], status := Paused,
         reason := Some(if reason in req.sinks then reason else MissingEscalationSink),
         sink := if reason in req.sinks then Some(req.sinks[reason]) else None)
  }

  // ------------------------------------------------ every run is on the foreseen way

  ghost predicate IsForeseen(req: Request, node: RunNode, r: Run) {
    && r == StateAt(req, node, r.clarificationAttempts, r.testRetries, r.reviewRetries)
    && (!req.planning.ambiguous ==> r.clarificationAttempts == 0)
    && (Place(node) <= Place(ReadinessGate) ==> r.testRetries == 0 && r.reviewRetries == 0)
  }

  ghost predicate OnTheWay(req: Request, m: Machine) {
    match m
    case At(node, r) =>
      if node == Escalate then
        OutcomeOf(req).Stopped? && r == StoppedAt(req, OutcomeOf(req).node, OutcomeOf(req).reason)
      else node != Intake && IsForeseen(req, node, r)
    case Ended(r) => r == FinalRun(req)
  }

  lemma OpeningStaysForeseen(req: Request, node: RunNode, r: Run)
    requires Standing(req, node, r) && IsForeseen(req, node, r)
    requires node in {LoadConstitution, CreateFeatureSpec, CreatePlan}
    ensures OnTheWay(req, Step(req, At(node, r)))
  {
    NextWay(req, node, r.clarificationAttempts, r.testRetries, r.reviewRetries);
  }

  /** Where a node has only one way on, the way to its successor goes through it. */
  lemma NextWay(req: Request, node: RunNode, a: int, t: int, q: int)
    ensures node == LoadConstitution ==> WayTo(req, CreateFeatureSpec, a, t, q) == WayTo(req, node, a, t, q) + [node]
    ensures node == CreateFeatureSpec && a == 0 ==> WayTo(req, Clarify, a, t, q) == WayTo(req, node, a, t, q) + [node]
    ensures node == CreatePlan ==> WayTo(req, RunNode.CreateTaskList, a, t, q) == WayTo(req, node, a, t, q) + [node]
  {
  }

  lemma ClarifyStaysForeseen(req: Request, r: Run)
    requires Standing(req, Clarify, r) && IsForeseen(req, Clarify, r)
    ensures OnTheWay(req, Step(req, At(Clarify, r)))
  {
    var t := DoClarify(req, r);
    ClarifyShape(req, r);
    if t.reason.Some? {
      ClarifyCounts(req, r);
      ClarifyStops(req, r, t);
    } else if t.clarificationComplete {
      ClarifyResolves(req, r, t);
    } else {
      ClarifyAgain(req, r, t);
    }
  }

  lemma ClarifyStops(req: Request, r: Run, t: Run)
    requires IsForeseen(req, Clarify, r) && req.planning.ambiguous && r.clarificationAttempts >= 0
    requires t == r.(history := r.history + [Clarify], clarificationAttempts := r.clarificationAttempts + 1,
                     pausedAt := Some(Clarify), reason := Some(UnresolvedAmbiguity))
    requires t.clarificationAttempts == Attempts(req) && !ClarificationResolves(req.planning)
    ensures OnTheWay(req, At(Escalate, t))
  {
    ClarifyWay(req, r.clarificationAttempts);
  }

  lemma ClarifyAgain(req: Request, r: Run, t: Run)
    requires IsForeseen(req, Clarify, r) && req.planning.ambiguous && r.clarificationAttempts >= 0
    requires t == r.(history := r.history + [Clarify], clarificationAttempts := r.clarificationAttempts + 1)
    ensures IsForeseen(req, Clarify, t)
  {
    ClarifyWay(req, r.clarificationAttempts);
  }

  lemma ClarifyResolves(req: Request, r: Run, t: Run)
    requires IsForeseen(req, Clarify, r) && r.clarificationAttempts >= 0
    requires t == r.(history := r.history + [Clarify], clarificationComplete := true,
                     clarificationAttempts := r.clarificationAttempts + if req.planning.ambiguous then 1 else 0)
    ensures IsForeseen(req, CreatePlan, t)
  {
    ClarifyWay(req, r.clarificationAttempts);
  }

  lemma ClarifyWay(req: Request, a: int)
    requires a >= 0 && (!req.planning.ambiguous ==> a == 0)
    ensures req.planning.ambiguous ==> WayTo(req, Clarify, a + 1, 0, 0) == WayTo(req, Clarify, a, 0, 0) + [Clarify]
    ensures WayTo(req, CreatePlan, if req.planning.ambiguous then a + 1 else a, 0, 0)
         == WayTo(req, Clarify, a, 0, 0) + [Clarify]
  {
    assert Repeat([Clarify], a + 1) == Repeat([Clarify], a) + [Clarify];
    assert Repeat([Clarify], 0) == [] && Repeat([Clarify], 1) == Repeat([Clarify], 0) + [Clarify];
  }

  /** The attempt that stops the run is the foreseen one. */
  lemma ClarifyCounts(req: Request, r: Run)
    requires StillUnclear(req, r) && r.reason == None && DoClarify(req, r).reason.Some?
    ensures req.planning.ambiguous && r.clarificationAttempts + 1 == Attempts(req)
    ensures !ClarificationResolves(req.planning)
  {
  }

  lemma ClarifyShape(req: Request, r: Run)
    requires r.reason == None && !r.clarificationComplete
    ensures var t := DoClarify(req, r);
            var a := r.clarificationAttempts + if req.planning.ambiguous then 1 else 0;
      && (t.reason.Some? ==>
            t == r.(history := r.history + [Clarify], clarificationAttempts := a, pausedAt := Some(Clarify),
                    reason := Some(UnresolvedAmbiguity)))
      && (t.reason == None && !t.clarificationComplete ==>
            req.planning.ambiguous && t == r.(history := r.history + [Clarify], clarificationAttempts := a))
      && (t.reason == None && t.clarificationComplete ==>
            t == r.(history := r.history + [Clarify], clarificationComplete := true, clarificationAttempts := a))
  {
  }

  lemma CreateTaskListStaysForeseen(req: Request, r: Run)
    requires Standing(req, RunNode.CreateTaskList, r) && IsForeseen(req, RunNode.CreateTaskList, r)
    ensures OnTheWay(req, Step(req, At(RunNode.CreateTaskList, r)))
  {
  }

  lemma ReadinessGateStaysForeseen(req: Request, r: Run)
    requires Standing(req, ReadinessGate, r) && IsForeseen(req, ReadinessGate, r)
    ensures OnTheWay(req, Step(req, At(ReadinessGate, r)))
  {
    var t := DoReadinessGate(r);
    GateCounts(req, r);
    if t.reason.Some? {
      GateStops(req, r, t);
    } else {
      GateState(req, r.clarificationAttempts);
    }
  }

  lemma GateCounts(req: Request, r: Run)
    requires Standing(req, ReadinessGate, r) && IsForeseen(req, ReadinessGate, r)
    ensures var t := DoReadinessGate(r);
      && r.clarificationAttempts == Attempts(req)
      && (t.reason.Some? <==> !PlanReady(req.planning))
      && (t.reason.Some? ==>
            && OutcomeOf(req) == Stopped(InvalidRouteAttempt, ReadinessGate)
            && t == r.(history := r.history + [ReadinessGate], pausedAt := Some(ReadinessGate),
                       reason := Some(InvalidRouteAttempt)))
      && (t.reason == None ==> t == r.(history := r.history + [ReadinessGate], status := Active))
  {
  }

  lemma GateStops(req: Request, r: Run, t: Run)
    requires IsForeseen(req, ReadinessGate, r) && r.clarificationAttempts == Attempts(req)
    requires OutcomeOf(req) == Stopped(InvalidRouteAttempt, ReadinessGate)
    requires t == r.(history := r.history + [ReadinessGate], pausedAt := Some(ReadinessGate),
                     reason := Some(InvalidRouteAttempt))
    ensures OnTheWay(req, At(Escalate, t))
  {
  }

  lemma GateState(req: Request, a: int)
    ensures var r := StateAt(req, ReadinessGate, a, 0, 0);
            StateAt(req, Coder, a, 0, 0) == r.(history := r.history + [ReadinessGate], status := Active)
  {
    GateWay(req, a);
  }

  lemma GateWay(req: Request, a: int)
    ensures WayTo(req, Coder, a, 0, 0) == WayTo(req, ReadinessGate, a, 0, 0) + [ReadinessGate]
  {
    assert LoopsWay(req, a, 0, 0) == PlanningWay(req, a);
  }

  lemma CoderStaysForeseen(req: Request, r: Run)
    requires IsForeseen(req, Coder, r)
    ensures OnTheWay(req, Step(req, At(Coder, r)))
  {
    CoderState(req, r.clarificationAttempts, r.testRetries, r.reviewRetries);
  }

  lemma CoderState(req: Request, a: int, t: int, q: int)
    ensures var r := StateAt(req, Coder, a, t, q);
            StateAt(req, Tester, a, t, q) == r.(history := r.history + [Coder], status := Active)
  {
  }

  lemma TesterStaysForeseen(req: Request, r: Run)
    requires Standing(req, Tester, r) && IsForeseen(req, Tester, r)
    ensures OnTheWay(req, Step(req, At(Tester, r)))
  {
    var t := DoTester(req, r);
    TesterCounts(req, r);
    if t.reason.Some? {
      TesterStops(req, r, t);
    } else if t.testsPassed {
      TesterPasses(req, r, t);
    } else {
      TesterRetries(req, r, t);
    }
  }

  lemma TesterStops(req: Request, r: Run, t: Run)
    requires Standing(req, Tester, r) && IsForeseen(req, Tester, r) && t == DoTester(req, r) && t.reason.Some?
    ensures OnTheWay(req, At(Escalate, t))
  {
    TesterCounts(req, r);
  }

  lemma TesterPasses(req: Request, r: Run, t: Run)
    requires IsForeseen(req, Tester, r) && t == r.(history := r.history + [Tester], testsPassed := true)
    ensures IsForeseen(req, Reviewer, t)
  {
    PassedState(req, r.clarificationAttempts, r.testRetries, r.reviewRetries);
  }

  lemma PassedState(req: Request, a: int, t: int, q: int)
    ensures var r := StateAt(req, Tester, a, t, q);
            StateAt(req, Reviewer, a, t, q) == r.(history := r.history + [Tester], testsPassed := true)
  {
    OneMore(LoopsWay(req, a, t, q), [Coder], Tester);
  }

  lemma OneMore(way: seq<RunNode>, nodes: seq<RunNode>, x: RunNode)
    ensures way + nodes + [x] == way + (nodes + [x])
  {
  }

  lemma TesterRetries(req: Request, r: Run, t: Run)
    requires IsForeseen(req, Tester, r) && r.reviewRetries == 0 && r.testRetries >= 0
    requires t == r.(history := r.history + [Tester], testRetries := r.testRetries + 1, testsPassed := false)
    ensures IsForeseen(req, Coder, t)
  {
    TestRoundState(req, r.clarificationAttempts, r.testRetries);
  }

  lemma TestRoundState(req: Request, a: int, t: int)
    requires t >= 0
    ensures var r := StateAt(req, Tester, a, t, 0);
            StateAt(req, Coder, a, t + 1, 0) == r.(history := r.history + [Tester], testRetries := t + 1)
  {
    OneMoreTestRound(req, a, t);
  }

  /** Tests that fail once have never passed, so there has been no review; the last failure is the
      foreseen one. */
  lemma TesterCounts(req: Request, r: Run)
    requires Standing(req, Tester, r)
    ensures var t := DoTester(req, r);
      && (t.reason.Some? ==> !TestsResolve(req) && r.reviewRetries == 0 && r.testRetries == TestRetries(req)
                             && OutcomeOf(req) == Stopped(MissingOrFailingRequiredTests, Tester))
      && (t.reason == None && !t.testsPassed ==>
            && r.reviewRetries == 0 && r.testRetries >= 0
            && t == r.(history := r.history + [Tester], testRetries := r.testRetries + 1, testsPassed := false))
      && (t.reason == None && t.testsPassed ==> t == r.(history := r.history + [Tester], testsPassed := true))
  {
  }

  lemma OneMoreTestRound(req: Request, a: int, t: int)
    requires t >= 0
    ensures LoopsWay(req, a, t + 1, 0) == LoopsWay(req, a, t, 0) + [Coder] + [Tester]
  {
    assert Repeat([Coder, Tester, Reviewer], 0) == [];
    assert [Coder] + [Tester] == [Coder, Tester];
  }

  lemma ReviewerStaysForeseen(req: Request, r: Run)
    requires Standing(req, Reviewer, r) && IsForeseen(req, Reviewer, r)
    ensures OnTheWay(req, Step(req, At(Reviewer, r)))
  {
    var t := DoReviewer(req, r);
    ReviewerCounts(req, r);
    if t.reason.Some? {
      ReviewerStops(req, r, t);
    } else if t.reviewApproved {
      ReviewerApproves(req, r, t);
    } else {
      ReviewerRetries(req, r, t);
    }
  }

  lemma ReviewerStops(req: Request, r: Run, t: Run)
    requires Standing(req, Reviewer, r) && IsForeseen(req, Reviewer, r) && t == DoReviewer(req, r) && t.reason.Some?
    ensures OnTheWay(req, At(Escalate, t))
  {
    ReviewerCounts(req, r);
  }

  lemma ReviewerApproves(req: Request, r: Run, t: Run)
    requires IsForeseen(req, Reviewer, r)
    requires t == r.(history := r.history + [Reviewer], reviewApproved := true, qualityPassed := true)
    ensures IsForeseen(req, PrePrSync, t)
  {
    ApprovedState(req, r.clarificationAttempts, r.testRetries, r.reviewRetries);
  }

  lemma ApprovedState(req: Request, a: int, t: int, q: int)
    ensures var r := StateAt(req, Reviewer, a, t, q);
            StateAt(req, PrePrSync, a, t, q)
            == r.(history := r.history + [Reviewer], reviewApproved := true, qualityPassed := true)
  {
    OneMore(LoopsWay(req, a, t, q), [Coder, Tester], Reviewer);
  }

  lemma ReviewerRetries(req: Request, r: Run, t: Run)
    requires IsForeseen(req, Reviewer, r) && r.reviewRetries >= 0
    requires t == r.(history := r.history + [Reviewer], reviewRetries := r.reviewRetries + 1,
                     reviewApproved := false, qualityPassed := false)
    ensures IsForeseen(req, Coder, t)
  {
    ReviewRoundState(req, r.clarificationAttempts, r.testRetries, r.reviewRetries);
  }

  lemma ReviewRoundState(req: Request, a: int, t: int, q: int)
    requires q >= 0
    ensures var r := StateAt(req, Reviewer, a, t, q);
            StateAt(req, Coder, a, t, q + 1) == r.(history := r.history + [Reviewer], reviewRetries := q + 1)
  {
    OneMoreReview(req, a, t, q);
  }

  lemma ReviewerCounts(req: Request, r: Run)
    requires Standing(req, Reviewer, r)
    ensures var t := DoReviewer(req, r);
      && (t.reason.Some? ==>
            && r.testRetries == TestRetries(req) && r.reviewRetries == ReviewRetries(req)
            && OutcomeOf(req) == Stopped(ReviewBudgetExhausted, Reviewer))
      && (t.reason == None && t.reviewApproved ==>
            t == r.(history := r.history + [Reviewer], reviewApproved := true, qualityPassed := true))
      && (t.reason == None && !t.reviewApproved ==>
            && r.reviewRetries >= 0
            && t == r.(history := r.history + [Reviewer], reviewRetries := r.reviewRetries + 1,
                       reviewApproved := false, qualityPassed := false))
  {
  }

  lemma OneMoreReview(req: Request, a: int, t: int, q: int)
    requires q >= 0
    ensures LoopsWay(req, a, t, q + 1) == LoopsWay(req, a, t, q) + [Coder, Tester] + [Reviewer]
  {
    assert [Coder, Tester] + [Reviewer] == [Coder, Tester, Reviewer];
  }

  lemma PrePrSyncStaysForeseen(req: Request, r: Run)
    requires Standing(req, PrePrSync, r) && IsForeseen(req, PrePrSync, r)
    ensures OnTheWay(req, Step(req, At(PrePrSync, r)))
  {
  }

  lemma PrCreatorEnds(req: Request, r: Run)
    requires Standing(req, PrCreator, r) && IsForeseen(req, PrCreator, r)
    ensures OnTheWay(req, Step(req, At(PrCreator, r)))
  {
    assert OutcomeOf(req) == Created;
  }

  lemma EscalateEnds(req: Request, r: Run)
    requires OnTheWay(req, At(Escalate, r))
    ensures OnTheWay(req, Step(req, At(Escalate, r)))
  {
  }

  lemma StepStaysOnTheWay(req: Request, m: Machine)
    requires m.At? && Inv(req, m) && OnTheWay(req, m)
    ensures OnTheWay(req, Step(req, m))
  {
    if m.node == PrCreator {
      PrCreatorEnds(req, m.run);
    } else if m.node == Escalate {
      EscalateEnds(req, m.run);
    } else if Place(m.node) <= Place(ReadinessGate) {
      PlanningStaysOnTheWay(req, m.node, m.run);
    } else {
      ExecutionStaysOnTheWay(req, m.node, m.run);
    }
  }

  lemma PlanningStaysOnTheWay(req: Request, node: RunNode, r: Run)
    requires Standing(req, node, r) && IsForeseen(req, node, r) && 1 <= Place(node) <= Place(ReadinessGate)
    ensures OnTheWay(req, Step(req, At(node, r)))
  {
    if node == Clarify {
      ClarifyStaysForeseen(req, r);
    } else if node == RunNode.CreateTaskList {
      CreateTaskListStaysForeseen(req, r);
    } else if node == ReadinessGate {
      ReadinessGateStaysForeseen(req, r);
    } else {
      OpeningStaysForeseen(req, node, r);
    }
  }

  lemma ExecutionStaysOnTheWay(req: Request, node: RunNode, r: Run)
    requires Standing(req, node, r) && IsForeseen(req, node, r) && node in {Coder, Tester, Reviewer, PrePrSync}
    ensures OnTheWay(req, Step(req, At(node, r)))
  {
    if node == Coder {
      CoderStaysForeseen(req, r);
    } else if node == Tester {
      TesterStaysForeseen(req, r);
    } else if node == Reviewer {
      ReviewerStaysForeseen(req, r);
    } else {
      PrePrSyncStaysForeseen(req, r);
    }
  }

  lemma {:induction false} RunStaysOnTheWay(req: Request, m: Machine)
    requires Inv(req, m) && OnTheWay(req, m)
    ensures RunFrom(req, m) == FinalRun(req)
    decreases Rank(req, m)
  {
    if m.At? {
      RankDecreases(req, m);
      StepKeepsInv(req, m);
      StepStaysOnTheWay(req, m);
      RunStaysOnTheWay(req, Step(req, m));
    }
  }

  /** Every request's run ends in exactly the foreseen state: status, reason, sink, every flag and
      counter, and the nodes it has visited in their order. */
  lemma RunIsForeseen(req: Request)
    ensures Final(req) == FinalRun(req)
  {
    StartSatisfiesInv(req);
    RunStaysOnTheWay(req, START);
  }

  // ------------------------------------------------ stopped runs

  lemma {:induction false} RepeatLength(nodes: seq<RunNode>, n: nat)
    ensures |Repeat(nodes, n)| == n * |nodes|
  {
    if n > 0 {
      RepeatLength(nodes, n - 1);
    }
  }

  lemma FinalWhenStopped(req: Request, node: RunNode)
    requires OutcomeOf(req).Stopped? && OutcomeOf(req).node == node
    ensures var r := Final(req);
            var x := StateAt(req, node, Attempts(req), TestRetries(req), ReviewRetries(req));
      && r.history == x.history + (if node == Clarify then [Escalate] else [node, Escalate])
      && r.clarificationAttempts == Attempts(req)
      && r.testRetries == TestRetries(req) && r.reviewRetries == ReviewRetries(req)
      && r.testsPassed == (Place(node) > Place(Tester) || ReviewRetries(req) > 0)
      && r.reviewApproved == (Place(node) > Place(Reviewer)) && r.syncPassed == (Place(node) > Place(PrePrSync))
  {
    RunIsForeseen(req);
  }

  /** A run stopped at clarification has used up its iterations and nothing else. */
  lemma StoppedAtClarify(req: Request)
    requires !ClarificationResolves(req.planning)
    ensures var n := Max(1, req.planning.maxClarificationIterations);
            var r := Final(req);
      && r.clarificationAttempts == n && r.testRetries == 0 && r.reviewRetries == 0
      && |r.history| == 4 + n && CoderVisits(r.history) == 0
  {
    FinalWhenStopped(req, Clarify);
    HistoryIsAWiredPath(req);
    RepeatLength([Clarify], Attempts(req));
  }

  /** Visits of clarify before the plan is made. */
  function ClarifyRounds(req: Request): nat {
    if req.planning.ambiguous then Attempts(req) else 1
  }

  lemma StoppedAtTheGate(req: Request)
    requires ClarificationResolves(req.planning) && !PlanReady(req.planning)
    ensures var r := Final(req);
      && r.clarificationAttempts == Attempts(req) && r.testRetries == 0 && r.reviewRetries == 0
      && |r.history| == 7 + ClarifyRounds(req) && CoderVisits(r.history) == 0
  {
    FinalWhenStopped(req, ReadinessGate);
    HistoryIsAWiredPath(req);
    RepeatLength([Clarify], ClarifyRounds(req));
  }

  lemma LoopsWayLength(req: Request, a: nat, t: nat, q: nat)
    ensures |LoopsWay(req, a, t, q)| == 6 + (if req.planning.ambiguous then a else 1) + 2 * t + 3 * q
  {
    RepeatLength([Clarify], if req.planning.ambiguous then a else 1);
    RepeatLength([Coder, Tester], t);
    RepeatLength([Coder, Tester, Reviewer], q);
  }

  lemma WayLength(req: Request, node: RunNode, t: nat, q: nat)
    requires node in {Tester, Reviewer, PrePrSync}
    ensures |StateAt(req, node, Attempts(req), t, q).history|
         == ClarifyRounds(req) + 2 * t + 3 * q + Place(node) - 1
  {
    LoopsWayLength(req, Attempts(req), t, q);
  }

  lemma StoppedLength(req: Request, node: RunNode)
    requires OutcomeOf(req).Stopped? && OutcomeOf(req).node == node && node in {Tester, Reviewer, PrePrSync}
    ensures |Final(req).history|
         == 1 + Place(node) + ClarifyRounds(req) + 2 * TestRetries(req) + 3 * ReviewRetries(req)
  {
    FinalWhenStopped(req, node);
    WayLength(req, node, TestRetries(req), ReviewRetries(req));
  }

  lemma StoppedCoders(req: Request, node: RunNode)
    requires OutcomeOf(req).Stopped? && OutcomeOf(req).node == node && node in {Tester, Reviewer, PrePrSync}
    ensures CoderVisits(Final(req).history) == 1 + TestRetries(req) + ReviewRetries(req)
  {
    FinalWhenStopped(req, node);
    HistoryIsAWiredPath(req);
  }

  /** A run stopped at the tester has used up its test retries, missing and skipped tests included, and
      has seen the coder once more than that. */
  lemma StoppedAtTester(req: Request)
    requires ClarificationResolves(req.planning) && PlanReady(req.planning) && !TestsResolve(req)
    ensures var t := Pos(req.planning.maxTestRetries);
            var r := Final(req);
      && r.clarificationAttempts == Attempts(req) && r.testRetries == t && r.reviewRetries == 0 && !r.testsPassed
      && |r.history| == 9 + ClarifyRounds(req) + 2 * t && CoderVisits(r.history) == 1 + t
  {
    FinalWhenStopped(req, Tester);
    StoppedLength(req, Tester);
    StoppedCoders(req, Tester);
  }

  lemma ReviewerOutcome(req: Request)
    requires ClarificationResolves(req.planning) && PlanReady(req.planning)
    requires TestsResolve(req) && !ReviewsResolve(req)
    ensures OutcomeOf(req) == Stopped(ReviewBudgetExhausted, Reviewer)
    ensures TestRetries(req) == Pos(req.execution.testFailuresBeforePass)
    ensures ReviewRetries(req) == Pos(req.planning.maxReviewRetries)
  {
  }

  /** A run stopped at the reviewer has used up its review retries, after as many test retries as the
      tests failed before they passed. */
  lemma StoppedAtReviewer(req: Request)
    requires ClarificationResolves(req.planning) && PlanReady(req.planning)
    requires TestsResolve(req) && !ReviewsResolve(req)
    ensures var t := Pos(req.execution.testFailuresBeforePass);
            var q := Pos(req.planning.maxReviewRetries);
            var r := Final(req);
      && r.clarificationAttempts == Attempts(req) && r.testRetries == t && r.reviewRetries == q
      && r.testsPassed && !r.reviewApproved
      && |r.history| == 10 + ClarifyRounds(req) + 2 * t + 3 * q && CoderVisits(r.history) == 1 + t + q
  {
    ReviewerOutcome(req);
    FinalWhenStopped(req, Reviewer);
    StoppedLength(req, Reviewer);
    StoppedCoders(req, Reviewer);
  }

  /** A run stopped before its pull request has gone through all its retries. */
  lemma StoppedAtSync(req: Request)
    requires OutcomeOf(req).Stopped? && OutcomeOf(req).node == PrePrSync
    ensures var t := Pos(req.execution.testFailuresBeforePass);
            var q := Pos(req.execution.qualityFailuresBeforePass);
            var r := Final(req);
      && r.clarificationAttempts == Attempts(req) && r.testRetries == t && r.reviewRetries == q
      && r.testsPassed && r.reviewApproved && !r.syncPassed
      && |r.history| == 11 + ClarifyRounds(req) + 2 * t + 3 * q && CoderVisits(r.history) == 1 + t + q
  {
    FinalWhenStopped(req, PrePrSync);
    StoppedLength(req, PrePrSync);
    StoppedCoders(req, PrePrSync);
  }
}
