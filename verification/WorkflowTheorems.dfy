/** What a whole run amounts to, for every request: how it ends, why, and after how many visits. */
module WorkflowTheorems {
  import opened Common
  import opened Planner
  import opened Workflow

  lemma {:induction false} RunKeepsInv(req: Request, m: Machine)
    requires Inv(req, m)
    ensures Inv(req, Ended(RunFrom(req, m)))
    decreases Rank(req, m)
  {
    if m.At? {
      RankDecreases(req, m);
      StepKeepsInv(req, m);
      RunKeepsInv(req, Step(req, m));
    }
  }

  lemma FinalSatisfiesInv(req: Request)
    ensures Inv(req, Ended(Final(req)))
  {
    StartSatisfiesInv(req);
    RunKeepsInv(req, START);
  }

  /** The closed form: a pull request is created exactly for these requests. */
  lemma PrIsCreatedIff(req: Request)
    ensures Final(req).prCreated <==>
            && ClarificationResolves(req.planning)
            && PlanReady(req.planning)
            && TestsResolve(req)
            && ReviewsResolve(req)
            && !req.execution.diffTooLarge && !req.execution.mergeConflict
            && (req.protection.passed || req.protection.shadowMode)
  {
    FinalSatisfiesInv(req);
  }

  /** Every run ends completed without a reason, or paused at the node and for the reason the
      request determines; a reason that has no sink gives way to MissingEscalationSink. */
  lemma RunEndsAsForeseen(req: Request)
    ensures var r := Final(req);
      match OutcomeOf(req)
      case Created =>
        r.status == Completed && r.prCreated && r.reason == None && r.pausedAt == None && r.sink == None
      case Stopped(reason, node) =>
        && r.status == Paused && !r.prCreated && r.pausedAt == Some(node)
        && r.reason == Some(if reason in req.sinks then reason else MissingEscalationSink)
        && r.sink == if reason in req.sinks then Some(req.sinks[reason]) else None
  {
    FinalSatisfiesInv(req);
  }

  // ------------------------------------------------ the sinks

  /** The reasons a workflow refuses to start without. */
  const PHASE_ONE: seq<Reason> := [
    UnresolvedAmbiguity, TestRetryBudgetExhausted, ReviewBudgetExhausted, MissingOrFailingRequiredTests,
    DiffTooLarge, MergeConflictDetected, InvalidRouteAttempt, Reason.MissingEscalationSink]

  lemma PhaseOneByName(reason: Reason)
    ensures reason in PHASE_ONE <==>
            reason in {UnresolvedAmbiguity, TestRetryBudgetExhausted, ReviewBudgetExhausted,
                       MissingOrFailingRequiredTests, DiffTooLarge, MergeConflictDetected, InvalidRouteAttempt,
                       Reason.MissingEscalationSink}
  {
    assert PHASE_ONE == [UnresolvedAmbiguity, TestRetryBudgetExhausted, ReviewBudgetExhausted,
                         MissingOrFailingRequiredTests, DiffTooLarge, MergeConflictDetected, InvalidRouteAttempt,
                         Reason.MissingEscalationSink];
  }

  predicate HasPhaseOneSinks(sinks: map<Reason, string>) {
    forall reason | reason in PHASE_ONE :: reason in sinks
  }

  lemma StoppingReasonIsRegistered(req: Request)
    requires HasPhaseOneSinks(req.sinks) && OutcomeOf(req).Stopped?
    ensures OutcomeOf(req).reason != Reason.MissingEscalationSink
    ensures OutcomeOf(req).reason in req.sinks || OutcomeOf(req) == Stopped(BranchProtectionMissing, PrePrSync)
  {
    assert OutcomeOf(req).reason in PHASE_ONE || OutcomeOf(req).reason == BranchProtectionMissing;
  }

  /** With the phase-one sinks registered, the only run without a sink is one whose branch
      protection is missing and whose sinks leave that reason out. */
  lemma SinkIsMissingIff(req: Request)
    requires HasPhaseOneSinks(req.sinks)
    ensures Final(req).status == Paused && Final(req).sink == None <==>
            OutcomeOf(req) == Stopped(BranchProtectionMissing, PrePrSync) && BranchProtectionMissing !in req.sinks
    ensures Final(req).reason == Some(MissingEscalationSink) <==>
            OutcomeOf(req) == Stopped(BranchProtectionMissing, PrePrSync) && BranchProtectionMissing !in req.sinks
  {
    RunEndsAsForeseen(req);
    if OutcomeOf(req).Stopped? {
      StoppingReasonIsRegistered(req);
    }
  }

  /** The reasons the workflow's guards would give can only come from the readiness gate. */
  lemma InvalidRouteComesFromTheGate(req: Request)
    requires Final(req).reason == Some(InvalidRouteAttempt)
    ensures Final(req).pausedAt == Some(ReadinessGate)
    ensures ClarificationResolves(req.planning) && !PlanReady(req.planning)
    ensures CoderVisits(Final(req).history) == 0
  {
    FinalSatisfiesInv(req);
  }

  // ------------------------------------------------ the number of visits

  /** Clarify visits of a request whose clarification resolves. */
  function ResolvingAttempts(p: PlanningRequest): int
    requires ClarificationResolves(p)
  {
    if p.ambiguous then Max(1, p.clarificationResolutionAttempt.value) else 1
  }

  /** A successful run makes exactly this many visits after intake, all told by the request. */
  lemma CreatedRunVisits(req: Request)
    requires OutcomeOf(req) == Created
    ensures var c := ResolvingAttempts(req.planning);
            var t := Pos(req.execution.testFailuresBeforePass);
            var q := Pos(req.execution.qualityFailuresBeforePass);
            && |Final(req).history| - 1 == 10 + c + 2 * t + 3 * q
            && CoderVisits(Final(req).history) == 1 + t + q
            && Final(req).testRetries == t && Final(req).reviewRetries == q
  {
    FinalSatisfiesInv(req);
  }

  /** The history is a path of the wired graph, and once the coder has been reached it shows up
      once more than there were retries. */
  lemma HistoryIsAWiredPath(req: Request)
    ensures IsWiredPath(Final(req).history)
    ensures var r := Final(req);
      CoderVisits(r.history) == r.testRetries + r.reviewRetries
        + if OutcomeOf(req).Stopped? && OutcomeOf(req).node in {Clarify, ReadinessGate} then 0 else 1
  {
    FinalSatisfiesInv(req);
  }

  // ------------------------------------------------ every reachable state

  /** The run after k visits. */
  function After(req: Request, k: nat): Machine {
    if k == 0 then START
    else
      var m := After(req, k - 1);
      if m.At? then Step(req, m) else m
  }

  lemma {:induction false} AfterSatisfiesInv(req: Request, k: nat)
    ensures Inv(req, After(req, k))
  {
    if k == 0 {
      StartSatisfiesInv(req);
    } else {
      AfterSatisfiesInv(req, k - 1);
      if After(req, k - 1).At? {
        StepKeepsInv(req, After(req, k - 1));
      }
    }
  }

  /** What is reached is on the way to the final state. */
  lemma {:induction false} AfterIsOnTheWay(req: Request, k: nat)
    ensures RunFrom(req, After(req, k)) == Final(req)
    ensures After(req, k).Ended? || Rank(req, After(req, k)) + k <= Rank(req, START)
  {
    if k > 0 {
      AfterIsOnTheWay(req, k - 1);
      if After(req, k - 1).At? {
        RankDecreases(req, After(req, k - 1));
      }
    }
  }

  /** Every run ends, within a number of visits that the budgets of its request bound. */
  lemma RunEnds(req: Request)
    ensures After(req, 12 + Pos(req.planning.maxClarificationIterations) + 3 * Pos(req.planning.maxTestRetries)
                       + 3 * Pos(req.planning.maxReviewRetries)) == Ended(Final(req))
  {
    AfterIsOnTheWay(req, 12 + Pos(req.planning.maxClarificationIterations) + 3 * Pos(req.planning.maxTestRetries)
                    + 3 * Pos(req.planning.maxReviewRetries));
  }

  lemma StandingPassesTheGuards(req: Request, node: RunNode, r: Run)
    requires Standing(req, node, r)
    ensures node == Tester ==> r.testTargets != []
    ensures node == Reviewer ==> r.testsPassed
    ensures node == PrCreator ==> MayCreatePr(r)
    ensures node == Escalate ==> r.reason.Some? && r.pausedAt.Some?
    ensures Place(Coder) <= Place(node) < Place(Escalate) ==> PlanReady(req.planning)
  {
  }

  /** The guards of tester, reviewer, pr_creator and escalate never find what they look for, and
      no request reaches the coder without a ready plan. */
  lemma GuardsNeverFire(req: Request, k: nat, node: RunNode, r: Run)
    requires After(req, k) == At(node, r)
    ensures node == Tester ==> r.testTargets != []
    ensures node == Reviewer ==> r.testsPassed
    ensures node == PrCreator ==> MayCreatePr(r)
    ensures node == Escalate ==> r.reason.Some? && r.pausedAt.Some?
    ensures Place(Coder) <= Place(node) < Place(Escalate) ==> PlanReady(req.planning)
  {
    AfterSatisfiesInv(req, k);
    assert Standing(req, node, r);
    StandingPassesTheGuards(req, node, r);
  }
}
