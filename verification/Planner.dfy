/** The rule-based planner's task list, and the readiness check that guards repository writes. */
module Planner {
  import opened Common

  /** Task ids are the strings "impl-1", "unit-1", "e2e-1", "quality-1" and so on. */
  datatype TaskId = Impl(n: nat) | UnitTest(n: nat) | E2e | Quality(n: nat)

  datatype Category = ImplementationTask | UnitTestTask | E2eTestTask | QualityTask

  datatype TaskItem = TaskItem(taskId: TaskId, title: string, category: Category, pairedWith: Option<TaskId>)

  datatype TargetKind = UnitTarget | E2eTarget

  datatype TestTarget = TestTarget(name: TaskId, kind: TargetKind)

  datatype TaskList = TaskList(tasks: seq<TaskItem>, testTargets: seq<TestTarget>, qualityChecks: seq<string>,
                               publicSurfaceChange: bool)

  datatype PlanningRequest = PlanningRequest(
    implementationTasks: seq<string>,
    ambiguous: bool,
    clarificationResolutionAttempt: Option<int>,
    publicSurfaceChange: bool,
    designChecks: seq<string>,
    maxClarificationIterations: int,
    maxTestRetries: int,
    maxReviewRetries: int,
    forceMissingTaskList: bool,
    forceNotReady: bool)

  datatype ReadinessError =
    | Unpaired(taskId: TaskId)
    | NoE2eTarget
    | NoQualityCheck
    | NoImplementationTask
    | ForcedOff
    | GenerationDisabled

  // ------------------------------------------------ the readiness check

  ghost predicate IsImplementation(list: TaskList, id: TaskId) {
    exists t :: t in list.tasks && t.category == ImplementationTask && t.taskId == id
  }

  ghost predicate HasUnitTest(list: TaskList, id: TaskId) {
    exists t :: t in list.tasks && t.category == UnitTestTask && t.pairedWith == Some(id)
  }

  ghost predicate HasE2eTarget(list: TaskList) {
    exists t :: t in list.testTargets && t.kind == E2eTarget
  }

  ghost predicate ReadinessFault(list: TaskList, e: ReadinessError) {
    match e
    case Unpaired(id) => IsImplementation(list, id) && !HasUnitTest(list, id)
    case NoE2eTarget => list.publicSurfaceChange && !HasE2eTarget(list)
    case NoQualityCheck => list.qualityChecks == []
    case NoImplementationTask => forall id :: !IsImplementation(list, id)
    case _ => false
  }

  /** Every implementation task has its unit test, a changed public surface its end-to-end test,
      and there is something to build and a check to pass. */
  ghost predicate ReadyForWrites(list: TaskList) {
    && (forall id | IsImplementation(list, id) :: HasUnitTest(list, id))
    && (list.publicSurfaceChange ==> HasE2eTarget(list))
    && list.qualityChecks != []
    && exists id :: IsImplementation(list, id)
  }

  method ValidateForRepoWrite(list: TaskList) returns (ready: bool, errors: seq<ReadinessError>)
    ensures ready <==> errors == []
    ensures forall e :: e in errors <==> ReadinessFault(list, e)
    ensures ready <==> ReadyForWrites(list)
  {
    errors := [];
    var implementationIds := set t | t in list.tasks && t.category == ImplementationTask :: t.taskId;
    var pairedIds := set t | t in list.tasks && t.category == UnitTestTask && t.pairedWith.Some? :: t.pairedWith.value;
    var rest := implementationIds;
    while rest != {}
      invariant rest <= implementationIds
      invariant forall e ::
        e in errors <==> e.Unpaired? && e.taskId in implementationIds - rest && e.taskId !in pairedIds
      decreases rest
    {
      var id :| id in rest;
      if id !in pairedIds {
        errors := errors + [Unpaired(id)];
      }
      rest := rest - {id};
    }
    if list.publicSurfaceChange && !(exists t | t in list.testTargets :: t.kind == E2eTarget) {
      errors := errors + [NoE2eTarget];
    }
    if list.qualityChecks == [] {
      errors := errors + [NoQualityCheck];
    }
    if implementationIds == {} {
      errors := errors + [NoImplementationTask];
    }
    ready := errors == [];
    assert forall id :: id in implementationIds <==> IsImplementation(list, id);
    assert forall id :: id in pairedIds <==> HasUnitTest(list, id);
    assert forall e :: e in errors <==> ReadinessFault(list, e);
    NoFaultIsReady(list);
    assert errors == [] <==> forall e :: e !in errors by {
      if errors != [] {
        assert errors[0] in errors;
      }
    }
  }

  lemma NoFaultIsReady(list: TaskList)
    ensures (forall e :: !ReadinessFault(list, e)) <==> ReadyForWrites(list)
  {
    if forall e :: !ReadinessFault(list, e) {
      forall id | IsImplementation(list, id) ensures HasUnitTest(list, id) {
        assert !ReadinessFault(list, Unpaired(id));
      }
      assert !ReadinessFault(list, NoE2eTarget) && !ReadinessFault(list, NoQualityCheck);
      assert !ReadinessFault(list, NoImplementationTask);
    }
  }

  // ------------------------------------------------ the planner

  /** An implementation task and its unit test for each title, in order. */
  function PlannedTasks(titles: seq<string>): seq<TaskItem> {
    if titles == [] then []
    else
      var k := |titles|;
      PlannedTasks(titles[..k - 1]) +
      [TaskItem(Impl(k), titles[k - 1], ImplementationTask, None),
       TaskItem(UnitTest(k), "Unit coverage for: " + titles[k - 1], UnitTestTask, Some(Impl(k)))]
  }

  function PlannedTargets(n: nat): seq<TestTarget> {
    seq(n, i requires 0 <= i < n => TestTarget(UnitTest(i + 1), UnitTarget))
  }

  function E2eTasks(req: PlanningRequest): seq<TaskItem> {
    if req.publicSurfaceChange
    then [TaskItem(E2e, "End-to-end validation for public surface behavior", E2eTestTask, None)] else []
  }

  function E2eTargets(req: PlanningRequest): seq<TestTarget> {
    if req.publicSurfaceChange then [TestTarget(E2e, E2eTarget)] else []
  }

  function QualityTasks(checks: seq<string>): seq<TaskItem> {
    seq(|checks|, i requires 0 <= i < |checks| =>
      TaskItem(Quality(i + 1), "Quality gate: " + checks[i], QualityTask, None))
  }

  function PlannedList(req: PlanningRequest): TaskList {
    TaskList(PlannedTasks(req.implementationTasks) + E2eTasks(req) + QualityTasks(req.designChecks),
             PlannedTargets(|req.implementationTasks|) + E2eTargets(req), req.designChecks, req.publicSurfaceChange)
  }

  lemma {:induction false} PlannedTasksArePaired(titles: seq<string>, t: TaskItem)
    requires t in PlannedTasks(titles)
    ensures t.category == ImplementationTask ==>
              exists u :: u in PlannedTasks(titles) && u.category == UnitTestTask && u.pairedWith == Some(t.taskId)
    ensures titles != []
  {
    var k := |titles|;
    var front := PlannedTasks(titles[..k - 1]);
    var impl := TaskItem(Impl(k), titles[k - 1], ImplementationTask, None);
    var test := TaskItem(UnitTest(k), "Unit coverage for: " + titles[k - 1], UnitTestTask, Some(Impl(k)));
    assert PlannedTasks(titles) == front + [impl, test];
    assert test in PlannedTasks(titles);
    if t in front {
      PlannedTasksArePaired(titles[..k - 1], t);
      if t.category == ImplementationTask {
        var u :| u in front && u.category == UnitTestTask && u.pairedWith == Some(t.taskId);
        assert u in PlannedTasks(titles);
      }
    }
  }

  lemma ImplementationsAreTested(req: PlanningRequest, id: TaskId)
    requires IsImplementation(PlannedList(req), id)
    ensures HasUnitTest(PlannedList(req), id) && req.implementationTasks != []
  {
    var list := PlannedList(req);
    var planned := PlannedTasks(req.implementationTasks);
    var t :| t in list.tasks && t.category == ImplementationTask && t.taskId == id;
    assert t in planned;
    PlannedTasksArePaired(req.implementationTasks, t);
    var u :| u in planned && u.category == UnitTestTask && u.pairedWith == Some(t.taskId);
    assert u in list.tasks;
  }

  /** The planner always pairs and always adds the end-to-end test, so its list is ready exactly
      when the request names a task and a check. */
  lemma PlannedListIsReadyIff(req: PlanningRequest)
    ensures ReadyForWrites(PlannedList(req)) <==> req.implementationTasks != [] && req.designChecks != []
  {
    var list := PlannedList(req);
    var planned := PlannedTasks(req.implementationTasks);
    forall id | IsImplementation(list, id) ensures HasUnitTest(list, id) && req.implementationTasks != [] {
      ImplementationsAreTested(req, id);
    }
    if req.publicSurfaceChange {
      assert TestTarget(E2e, E2eTarget) in E2eTargets(req);
    }
    if req.implementationTasks != [] {
      var k := |req.implementationTasks|;
      var impl := TaskItem(Impl(k), req.implementationTasks[k - 1], ImplementationTask, None);
      assert impl in planned;
      assert IsImplementation(list, Impl(k));
    }
  }

  /** Readiness in the fields of the list. */
  lemma ReadinessByFields(list: TaskList)
    ensures ReadyForWrites(list) <==>
      && (forall t | t in list.tasks && t.category == ImplementationTask ::
            exists u :: u in list.tasks && u.category == UnitTestTask && u.pairedWith == Some(t.taskId))
      && (list.publicSurfaceChange ==> exists g :: g in list.testTargets && g.kind == E2eTarget)
      && list.qualityChecks != []
      && exists t :: t in list.tasks && t.category == ImplementationTask
  {
    if ReadyForWrites(list) {
      forall t | t in list.tasks && t.category == ImplementationTask
        ensures exists u :: u in list.tasks && u.category == UnitTestTask && u.pairedWith == Some(t.taskId)
      {
        assert IsImplementation(list, t.taskId);
        assert HasUnitTest(list, t.taskId);
      }
    }
    if exists t :: t in list.tasks && t.category == ImplementationTask {
      var t :| t in list.tasks && t.category == ImplementationTask;
      assert IsImplementation(list, t.taskId);
    }
  }

  /** What is reported of a list, and when. */
  lemma ReadinessErrorsByFields(list: TaskList, id: TaskId)
    ensures ReadinessFault(list, Unpaired(id)) <==>
            && (exists t :: t in list.tasks && t.category == ImplementationTask && t.taskId == id)
            && (forall u | u in list.tasks && u.category == UnitTestTask :: u.pairedWith != Some(id))
    ensures ReadinessFault(list, NoE2eTarget) <==>
            list.publicSurfaceChange && forall g | g in list.testTargets :: g.kind != E2eTarget
    ensures ReadinessFault(list, NoQualityCheck) <==> list.qualityChecks == []
    ensures ReadinessFault(list, NoImplementationTask) <==>
            forall t | t in list.tasks :: t.category != ImplementationTask
    ensures !ReadinessFault(list, ForcedOff) && !ReadinessFault(list, GenerationDisabled)
  {
    if t :| t in list.tasks && t.category == ImplementationTask {
      assert IsImplementation(list, t.taskId);
    }
  }

  lemma {:induction false} PlannedTasksByFields(titles: seq<string>)
    ensures |PlannedTasks(titles)| == 2 * |titles|
    ensures forall i | 0 <= i < |titles| ::
              && PlannedTasks(titles)[2 * i] == TaskItem(Impl(i + 1), titles[i], ImplementationTask, None)
              && PlannedTasks(titles)[2 * i + 1]
                 == TaskItem(UnitTest(i + 1), "Unit coverage for: " + titles[i], UnitTestTask, Some(Impl(i + 1)))
  {
    if titles != [] {
      var k := |titles|;
      PlannedTasksByFields(titles[..k - 1]);
      forall i | 0 <= i < k
        ensures PlannedTasks(titles)[2 * i] == TaskItem(Impl(i + 1), titles[i], ImplementationTask, None)
        ensures PlannedTasks(titles)[2 * i + 1]
                == TaskItem(UnitTest(i + 1), "Unit coverage for: " + titles[i], UnitTestTask, Some(Impl(i + 1)))
      {
        if i < k - 1 {
          assert PlannedTasks(titles)[2 * i] == PlannedTasks(titles[..k - 1])[2 * i];
          assert PlannedTasks(titles)[2 * i + 1] == PlannedTasks(titles[..k - 1])[2 * i + 1];
        }
      }
    }
  }

  /** The planned list in the order of the request: each title's task and its unit test, paired by id, then
      the end-to-end test of a changed public surface, then the checks; a target for every unit test and
      for the end-to-end test. */
  lemma PlannedListByFields(req: PlanningRequest)
    ensures var list := PlannedList(req);
            var n, m := |req.implementationTasks|, |req.designChecks|;
            var e := if req.publicSurfaceChange then 1 else 0;
      && |list.tasks| == 2 * n + e + m && |list.testTargets| == n + e
      && (forall i | 0 <= i < n ::
            && list.tasks[2 * i] == TaskItem(Impl(i + 1), req.implementationTasks[i], ImplementationTask, None)
            && list.tasks[2 * i + 1] == TaskItem(UnitTest(i + 1), "Unit coverage for: " + req.implementationTasks[i],
                                                 UnitTestTask, Some(Impl(i + 1)))
            && list.testTargets[i] == TestTarget(UnitTest(i + 1), UnitTarget))
      && (req.publicSurfaceChange ==>
            && list.tasks[2 * n]
               == TaskItem(E2e, "End-to-end validation for public surface behavior", E2eTestTask, None)
            && list.testTargets[n] == TestTarget(E2e, E2eTarget))
      && (forall i | 0 <= i < m ::
            list.tasks[2 * n + e + i]
            == TaskItem(Quality(i + 1), "Quality gate: " + req.designChecks[i], QualityTask, None))
      && list.qualityChecks == req.designChecks && list.publicSurfaceChange == req.publicSurfaceChange
  {
    PlannedTasksByFields(req.implementationTasks);
  }

  /** Whether the planner reports readiness for a request. */
  predicate PlanReady(req: PlanningRequest) {
    !req.forceMissingTaskList && !req.forceNotReady && req.implementationTasks != [] && req.designChecks != []
  }

  method CreateTaskList(req: PlanningRequest) returns (list: Option<TaskList>, ready: bool, errors: seq<ReadinessError>)
    ensures list == if req.forceMissingTaskList then None else Some(PlannedList(req))
    ensures ready == PlanReady(req)
    ensures ready <==> errors == []
  {
    if req.forceMissingTaskList {
      return None, false, [GenerationDisabled];
    }
    var titles := req.implementationTasks;
    var tasks, targets := [], [];
    for i := 0 to |titles|
      invariant tasks == PlannedTasks(titles[..i])
      invariant targets == PlannedTargets(i)
    {
      assert titles[..i + 1][..i] == titles[..i];
      tasks := tasks + [TaskItem(Impl(i + 1), titles[i], ImplementationTask, None)];
      tasks := tasks + [TaskItem(UnitTest(i + 1), "Unit coverage for: " + titles[i], UnitTestTask, Some(Impl(i + 1)))];
      targets := targets + [TestTarget(UnitTest(i + 1), UnitTarget)];
    }
    assert titles[..|titles|] == titles;
    if req.publicSurfaceChange {
      tasks := tasks + [TaskItem(E2e, "End-to-end validation for public surface behavior", E2eTestTask, None)];
      targets := targets + [TestTarget(E2e, E2eTarget)];
    }
    ghost var before := tasks;
    var checks := req.designChecks;
    for i := 0 to |checks|
      invariant tasks == before + QualityTasks(checks)[..i]
    {
      tasks := tasks + [TaskItem(Quality(i + 1), "Quality gate: " + checks[i], QualityTask, None)];
    }
    assert QualityTasks(checks)[..|checks|] == QualityTasks(checks);
    var planned := TaskList(tasks, targets, checks, req.publicSurfaceChange);
    assert planned == PlannedList(req);
    ready, errors := ValidateForRepoWrite(planned);
    PlannedListIsReadyIff(req);
    if req.forceNotReady {
      ready := false;
      errors := errors + [ForcedOff];
    }
    list := Some(planned);
  }
}
