# DevSquad runtime: a verified model

Dafny models of the stateful components of the ticket-automation backend, with proofs of what
they keep, promise and refuse. `dafny verify dfyconfig.toml` checks everything. Money is in
micro-dollars (the scale of the `Numeric(14, 6)` columns) with cents derived from it, time is an
integer, ids are strings. A database transaction and a Redis command or Lua script are one step each.

| files | component |
|---|---|
| `GraphConfig`, `PathSearch`, `GraphValidator`, `GraphAcceptance`, `GraphDetour` | the graph-configuration validator: a depth-first search over simple paths, what is accepted in the fields of nodes and edges, and what its verdict means for all walks |
| `Money`, `BudgetProtocol`, `BudgetSafety`, `BudgetLifecycle`, `BudgetRounding` | the budget ledger over Postgres rows and Redis counters, as steps of interleaved calls with failures |
| `BudgetClaims`, `BudgetRuns`, `BudgetOverspend`, `BudgetHazards` | exactly which calls can overspend a cap, for arbitrary amounts |
| `BudgetKeys` | the same counters under their Redis keys, and which teams may share a Redis |
| `BudgetCalls`, `BudgetCallRuns`, `BudgetLedgers` | whole calls of that ledger as runs of its steps, and the ledger as an object |
| `BudgetCaps` | what the ticket, daily and monthly caps promise by their names, in both ledgers |
| `BudgetMemory`, `BudgetEquivalence`, `BudgetDivergence` | the in-memory ledger, and exactly when the two answer alike |
| `Planner`, `Workflow`, `WorkflowTheorems`, `WorkflowOutcome`, `WorkflowExecution` | the rule-based planner and the runtime workflow: nodes, routes, retry loops, escalation, and the whole final state as a function of the request |
| `ControlPlane`, `ControlPlaneEffects`, `ControlPlaneMemory`, `ControlPlaneStores`, `HandlerRegistry` | versions, snapshots, activation and rollback by compare-and-swap, pinned runs, cleanup; the handler cache |
| `Dispatcher`, `Worker` | the weighted fair dispatcher and the worker controller |
| `SlidingWindow`, `Webhook`, `WebhookGuards`, `WebhookChecks` | the webhook guards: sliding windows, the dedupe cache over the unique table, every check by its field |
| `Breaker` | the provider circuit breaker as scripts and as snapshots, and the router |
| `Metering` | hourly rollups and reconciliation |
| `Common`, `Sums` | result types and small functions; finite sums |

Where the code does not keep what one would expect of it, the model keeps the code and states
exactly when the expectation holds:

- A repository writer or a manual approval can come before the readiness gate on a walk although
  every simple path is fine (`GraphDetour`); a check per writer, or per approval, is exactly what
  would be needed (`GraphValidator.WalkGuardIsPathGuard`, `WalksMeetNoApprovalIff`).
- A cap can be overspent. A reservation can do it exactly when the cents it takes are less than its
  amount, or negative (`BudgetOverspend.ReservationsCanOverspendIff`), a settlement or release exactly
  when what it frees rounds up (`ClosingsCanOverspendIff`), a reconcile exactly when the amount it
  leaves rounds up (`ReconcilesCanOverspendIff`) or it finds cents in flight
  (`UnwaitedReconcilesCanOverspendIff`).
  When no call is of these kinds the caps hold for arbitrary amounts
  (`BudgetClaims.TestedCallsKeepTheCaps`), and so they do for the ledger object, whose calls are runs
  of the protocol's steps (`BudgetCallRuns.LedgerKeepsTheCaps`, `WholeCentCallsKeepTheCaps`).
- Counter keys join tenant and team with a colon, the tables tell them apart: the caps of a set of teams
  are safe exactly when no two of them join to the same key (`BudgetKeys.TeamsAreSafeIff`).
- The shared counters hold what is left of the cap they were last reconciled with, the in-memory ledger
  decides by the caps of the run that asks: the two answer a sequence of calls alike exactly when those
  agree, or both deny, at each call (`BudgetDivergence.SequencesAgreeIff`).
- In-memory settlement above the reserved amount drops the hold
  (`BudgetEquivalence.SettleStaysCoupledIff`).
- Cleanup of retired snapshots aborts on the foreign key `supersedes_snapshot_id` as soon as one
  retired snapshot was replaced by an activation, and stays blocked
  (`ControlPlaneStores.DeleteRetired`, `ControlPlane.CleanupStaysBlocked`); the in-memory store does not
  (`ControlPlaneMemory.StoresAgreeIff`).
- A handler load that a broadcast overtakes is served until it ages out
  (`HandlerRegistry.OvertakenLoadIsServed`); when no snapshot is switched to twice, that is exactly
  when an answer is stale (`StaleIffOvertaken`).
- `assign` does not look whether the worker is busy (`Worker.AssignKeepsInvIff`), and a worker that
  begins to drain while idle can never be taken out of the draining set, one that holds a job always
  can (`Worker.DrainEndsIff`).
- Dedupe keys join source and event id with a colon, so sources can run into each other
  (`Webhook.TransparentIff`). The guard takes any source; its one caller leaves it at "jira"
  (backend/src/backend/platform/api.py:88-96), and a single source is always safe
  (`Webhook.OneSourceIsTransparent`).

## Model

| member | source | states |
|---|---|---|
| `GraphConfig.AdjacencyIsTheEdgeRelation` | backend/src/backend/control_plane/graph.py:117-127 | the adjacency lists contain a successor exactly when some edge leads there |
| `GraphConfig.EraseLoops` | backend/src/backend/control_plane/graph.py:191-209 | every walk to a target contains a simple path to it over the walk's own nodes |
| `PathSearch.PathCollector.Walk` | backend/src/backend/control_plane/graph.py:199-207 | the recursive search appends to the shared list exactly the paths of its specification, in order, and terminates |
| `PathSearch.PathCollector.Enter` | backend/src/backend/control_plane/graph.py:199-207 | the same for one successor: END, visited nodes and the target are treated as the code does |
| `PathSearch.PathsFromExact` | backend/src/backend/control_plane/graph.py:199-207 | from any partial path the search finds exactly its simple completions |
| `PathSearch.PathsAreTheSimplePaths` | backend/src/backend/control_plane/graph.py:191-209 | a path is found if and only if it is a simple path from START to the target that avoids END |
| `PathSearch.PathsToTarget` | backend/src/backend/control_plane/graph.py:191-209 | the result lists exactly those paths |
| `GraphValidator.IndexNodes` | backend/src/backend/control_plane/graph.py:91-116 | node errors are exactly the faults: duplicates, unknown, unregistered or mismatched handlers |
| `GraphValidator.BuildAdjacency` | backend/src/backend/control_plane/graph.py:117-127 | edge errors are exactly the undefined end points |
| `GraphValidator.CheckSystemNodes` | backend/src/backend/control_plane/graph.py:136-148 | exactly the missing and the rebound system nodes are reported |
| `GraphValidator.JudgePath` | backend/src/backend/control_plane/graph.py:155-172 | a path is blamed exactly for the required nodes it misses, manual approvals on it, and writers before the gate |
| `GraphValidator.CheckPaths` | backend/src/backend/control_plane/graph.py:155-172 | the union over all paths, with no lookup of a node that is not declared |
| `GraphValidator.CheckEscalations` | backend/src/backend/control_plane/graph.py:174-183 | exactly the escalation edges without a reason and the reasons without a sink |
| `GraphValidator.CheckInvariants` | backend/src/backend/control_plane/graph.py:130-189 | on a configuration that compiles, the lists hold exactly the faults of their kinds |
| `GraphValidator.Validate` | backend/src/backend/control_plane/graph.py:85-189 | every list holds exactly the faults of its kind; nothing is reported if and only if the configuration is acceptable |
| `GraphValidator.WalksStayOnDeclaredNodes` | backend/src/backend/control_plane/graph.py:155-172 | on a compiled graph every node of a path is in the index |
| `GraphValidator.EveryPrWalkVisitsRequiredNodes` | backend/src/backend/control_plane/graph.py:149-160 | after acceptance every walk from START to pr_creator, loops included, visits all required nodes |
| `GraphAcceptance.AcceptedIff` | backend/src/backend/control_plane/graph.py:85-189 | accepted exactly if ids, handlers and edges are sound, the twelve system nodes are there and bound, a simple path to pr_creator exists, each of them has the six required nodes, no approval and no writer before the gate, and every escalation has a reason with a sink |
| `GraphAcceptance.CompilesIff` | backend/src/backend/control_plane/graph.py:91-127 | compiles exactly if ids are distinct, every handler is declared and registered as of its kind, and edges lead between START, END and declared nodes |
| `GraphAcceptance.PathErrorsByFields` | backend/src/backend/control_plane/graph.py:149-166 | path errors are exactly a missing path, a required node missing on one, an approval on one |
| `GraphAcceptance.EarlyWritesByFields` | backend/src/backend/control_plane/graph.py:161-172 | a writer is reported exactly if it stands on some simple path with no gate up to it |
| `GraphAcceptance.EscalationsByFields` | backend/src/backend/control_plane/graph.py:174-183 | exactly the escalation and terminal edges without a reason, and the reasons without a sink |
| `GraphAcceptance.SystemErrorsByFields` | backend/src/backend/control_plane/graph.py:136-148 | exactly the system nodes that are missing or bound to another handler |
| `GraphValidator.EdgeOrderIsIrrelevant` | backend/src/backend/control_plane/graph.py:117-189 | permuting or duplicating edges changes no verdict |
| `GraphValidator.WalkGuardIsPathGuard` | backend/src/backend/control_plane/graph.py:161-172 | no walk writes before the gate if and only if every simple path to a writer that can still reach pr_creator passes the gate |
| `GraphValidator.WalksMeetNoApprovalIff` | backend/src/backend/control_plane/graph.py:155-166 | no walk to pr_creator meets a manual approval if and only if no simple path leads to an approval from which pr_creator can be reached |
| `GraphDetour.AcceptedGraphWritesBeforeGate` | backend/src/backend/control_plane/graph.py:161-172 | an accepted graph with a walk that writes, at a manual approval, before the gate; it fails both conditions above |
| `Money.RoundingIsNearest` | backend/src/backend/persistence/governance.py:1584-1589 | conversion to cents takes the nearest cent, a tie away from zero, symmetrically |
| `Money.RoundingKeepsWholeCents` | backend/src/backend/persistence/governance.py:1584-1589 | the round trip through cents is the identity exactly on whole cents |
| `BudgetProtocol.StepKeepsInv` | backend/src/backend/persistence/governance.py:285-455 | every step of any worker keeps, for each counter, counter + in flight + lost + rounded usage equal to what it was reconciled with |
| `BudgetProtocol.ReconcileKeeps` | backend/src/backend/persistence/governance.py:475-486 | reconcile re-establishes that law from the tables |
| `BudgetProtocol.DecrementKeeps` | backend/src/backend/persistence/governance.py:65-83 | a granted reservation script keeps the conservation law |
| `BudgetProtocol.DecrementTakesFromAllThree` | backend/src/backend/persistence/governance.py:65-83 | the script moves the cents from all three counters and no other into flight, and leaves none of them below zero |
| `BudgetProtocol.CloseKeeps` | backend/src/backend/persistence/governance.py:365-455 | settling or releasing a row keeps the conservation law |
| `BudgetProtocol.CloseHolds` | backend/src/backend/persistence/governance.py:365-455 | what a closed row releases is in flight to exactly its three counters, none of which has moved yet |
| `BudgetProtocol.CreditKeeps` | backend/src/backend/persistence/governance.py:656-674 | each increment of a credit keeps the conservation law |
| `BudgetProtocol.CreditMovesCents` | backend/src/backend/persistence/governance.py:656-674 | an increment moves its cents from flight to the one counter whose turn it is |
| `BudgetSafety.NoCapIsExceeded` | backend/src/backend/persistence/governance.py:285-486 | in every state of every interleaved run on whole cents with waiting reconciles, 0 <= counter <= cap - active - charged, credits lost and counters evicted or not; `BudgetCaps.WholeCentCapsHoldByName` says it of each cap by name |
| `BudgetSafety.PeakIsAConfiguredCap` | backend/src/backend/persistence/governance.py:249-283 | the cap in that bound is one that some earlier call configured, or zero |
| `BudgetCaps.CapsHoldByName` | backend/src/backend/persistence/governance.py:249-486 | in every run of tested calls a run has used no more than its ticket cap, a team no more than its daily and no more than its monthly cap |
| `BudgetCaps.WholeCentCapsHoldByName` | backend/src/backend/persistence/governance.py:249-486 | the same in whole cents with waiting reconciles |
| `BudgetCaps.GrantsFitByName` | backend/src/backend/persistence/governance.py:65-83 | however calls interleave, a granted script call fits under the ticket, daily and monthly cap, each less the usage of its own account |
| `BudgetCaps.LedgerKeepsCapsByName` | backend/src/backend/persistence/governance.py:285-363 | the same of every grant and every state of the ledger's own calls, whatever fails |
| `BudgetCaps.ReserveByName` | backend/src/backend/persistence/governance.py:285-363 | with fixed caps a reservation is granted exactly if it fits under all three, and answered with what each leaves |
| `BudgetCaps.ReconcileByName` | backend/src/backend/persistence/governance.py:475-486 | each of the three keys is set to what its own cap leaves, never below zero |
| `BudgetCaps.CloseByName` | backend/src/backend/persistence/governance.py:365-455 | which settlements and releases are refused, and what the others leave of the row |
| `BudgetCaps.MemReserveByName` | backend/src/backend/persistence/testing/governance.py:69-111 | in memory a reservation is granted exactly if it fits under all three caps by name |
| `BudgetCaps.MemSettleByName` | backend/src/backend/persistence/testing/governance.py:113-139 | a settlement drops its hold and charges the run and team of the hold and no one else |
| `BudgetCaps.MemRefusals` | backend/src/backend/persistence/testing/governance.py:69-173 | what the in-memory ledger refuses, and why |
| `BudgetSafety.SafeStateFitsTheCap` | backend/src/backend/persistence/governance.py:475-486 | spent, offered, in flight and lost fit under the cap together |
| `BudgetSafety.ReconcileIsSafeIffQuiescent` | backend/src/backend/persistence/governance.py:475-486 | with a fixed cap, in whole cents, a reconcile keeps what every counter accounts for within its peak if and only if nothing on its counters is in flight |
| `BudgetClaims.ReservationKeepsClaimIff` | backend/src/backend/persistence/governance.py:285-363 | a reservation leaves what is offered, in flight and used on an account no higher if and only if its cents are at least its amount |
| `BudgetClaims.FailedReservationKeepsClaimIff` | backend/src/backend/persistence/governance.py:336-352 | one whose insert fails does if and only if its cents are not negative |
| `BudgetClaims.SettlementKeepsClaimIff` | backend/src/backend/persistence/governance.py:365-455 | a settlement does if and only if what it gives back in cents is no more than what it frees; releasing is settling at no cost |
| `BudgetClaims.ReconcileKeepsCapIff` | backend/src/backend/persistence/governance.py:475-486 | a reconcile of an account within its cap keeps the claim within the cap if and only if nothing is in flight there and the amount left does not round up |
| `BudgetClaims.ReconcileKeepsCapsIffQuiescent` | backend/src/backend/persistence/governance.py:475-486 | in whole cents the claims on all three accounts stay within the caps if and only if nothing on them is in flight |
| `BudgetClaims.TestedCallsKeepTheCaps` | backend/src/backend/persistence/governance.py:285-486 | for arbitrary amounts: in every interleaved run whose calls pass these tests, 0 <= counter <= cap - active - charged at every point |
| `BudgetClaims.CarefulStepsAreTested` | backend/src/backend/persistence/governance.py:285-486 | whole cents, non-negative amounts and waiting reconciles pass the tests |
| `BudgetOverspend.ReservationsCanOverspendIff` | backend/src/backend/persistence/governance.py:1584-1589 | some run whose other calls all pass their tests overspends with reservations of an amount if and only if the cents they take are less than the amount, or negative |
| `BudgetOverspend.ClosingsCanOverspendIff` | backend/src/backend/persistence/governance.py:365-455 | the same for settlements and releases that free an amount, any integer: if and only if it rounds up and its cents are not negative |
| `BudgetOverspend.ReconcilesCanOverspendIff` | backend/src/backend/persistence/governance.py:475-486 | the same for a reconcile that finds nothing in flight and leaves an amount: if and only if that is not negative and rounds up |
| `BudgetOverspend.UnwaitedReconcilesCanOverspendIff` | backend/src/backend/persistence/governance.py:475-486 | the same for a reconcile that finds a number of cents in flight: if and only if they are more than none |
| `BudgetOverspend.HalfACentAndMinusOneCentOverspend` | backend/src/backend/persistence/governance.py:285-363 | reservations of 0.4999 cents or of minus one cent, a settlement that frees half a cent and a reconcile that leaves half a cent can each overspend |
| `BudgetLifecycle.ClosedAtMostOnce` | backend/src/backend/persistence/governance.py:365-455 | no reservation is settled or released twice in a run |
| `BudgetLifecycle.ReservedIsActiveChargedOrReleased` | backend/src/backend/persistence/governance.py:529-644 | what was ever reserved on an account is active, charged or released |
| `BudgetRounding.CounterStaysNearTheTables` | backend/src/backend/persistence/governance.py:475-486 | for arbitrary amounts a counter differs from the tables by half a cent, plus half a cent per reservation active and one per settled since, and nothing for one released |
| `BudgetRounding.OverspendingIsBoundedByRounding` | backend/src/backend/persistence/governance.py:1584-1589 | a cap is never overspent by more than that slack |
| `BudgetHazards.UnwaitedReconcileOverspends` | backend/src/backend/persistence/governance.py:475-486 | a run whose reconcile does not wait exceeds its cap |
| `BudgetHazards.NegativeReservationOverspends` | backend/src/backend/persistence/governance.py:285-363 | calls one after the other with a reservation of minus one cent exceed the cap; `BudgetOverspend.ReservationsCanOverspendIff` has the exact condition |
| `BudgetKeys.KeysApart` | backend/src/backend/persistence/governance.py:1576-1581 | among teams whose joins differ, equal keys mean the same account |
| `BudgetKeys.TeamsAreSafeIff` | backend/src/backend/persistence/governance.py:1576-1581 | over all runs of tested calls no account of the teams exceeds its cap if and only if no two of them join to the same key |
| `BudgetKeys.JoinedTeamsOverspend` | backend/src/backend/persistence/governance.py:475-486 | a sequential run in whole cents in which two joined teams overspend a cap |
| `BudgetKeys.ColonsCollide` | backend/src/backend/persistence/governance.py:1576-1581 | tenant a:b with team c and tenant a with team b:c are such teams |
| `BudgetKeys.TenantsWithoutColonsAreSafe` | backend/src/backend/persistence/governance.py:1576-1581 | teams are safe together when no tenant id holds a colon |
| `BudgetCalls.FullCredit` | backend/src/backend/persistence/governance.py:656-674 | three successful increments add the cents to all three counters and end the call |
| `BudgetCallRuns.CallRuns` | backend/src/backend/persistence/governance.py:249-486 | each call, with the faults it meets, does what a sequence of enabled steps does, and those obey the tests or the whole-cent rule if the call does |
| `BudgetCallRuns.CallsAreRuns` | backend/src/backend/persistence/governance.py:249-486 | after any calls, failed inserts, lost credits and lost counters the ledger is where some run of the protocol ends |
| `BudgetCallRuns.LedgerKeepsTheCaps` | backend/src/backend/persistence/governance.py:249-486 | for arbitrary amounts the ledger keeps its caps when each call passes its test where it is made |
| `BudgetCallRuns.WholeCentCallsKeepTheCaps` | backend/src/backend/persistence/governance.py:249-486 | in whole cents, with no negative reservation, it keeps them whatever is called |
| `BudgetEquivalence.CallAgrees` | backend/src/backend/persistence/testing/governance.py:65-165 | from coupled states a call answers the same in both ledgers and leaves them coupled |
| `BudgetEquivalence.SequentialAnswersAgree` | backend/src/backend/persistence/testing/governance.py:65-165 | over any admissible sequence every grant, denial and remaining amount is the same |
| `BudgetEquivalence.SettleStaysCoupledIff` | backend/src/backend/persistence/testing/governance.py:113-139 | a settlement keeps the two together if and only if it asks for no more than was reserved |
| `BudgetDivergence.ReserveAnswersAlikeIff` | backend/src/backend/persistence/testing/governance.py:69-111 | with caps that differ between runs, a reservation is answered alike if and only if the counters offer what the run's own caps leave, or both deny |
| `BudgetDivergence.BalanceAnswersAlikeIff` | backend/src/backend/persistence/testing/governance.py:152-173 | a balance is reported alike if and only if no cap of the run is overspent |
| `BudgetDivergence.SequencesAgreeIff` | backend/src/backend/persistence/testing/governance.py:65-173 | all answers of a sequence are the same in both ledgers if and only if each call meets those conditions where it is made |
| `BudgetDivergence.ConfigureSetsStandingCap` | backend/src/backend/persistence/governance.py:249-283 | configuring makes the accounts of the run stand for its caps, or for what is used if that is more |
| `BudgetDivergence.OnlyConfigureMovesStandingCaps` | backend/src/backend/persistence/governance.py:285-473 | no other call changes what cap an account stands for |
| `BudgetDivergence.EveryAmountAlikeIff` | backend/src/backend/persistence/testing/governance.py:69-111 | every amount is decided alike if and only if the three accounts stand for the run's own caps |
| `BudgetLedgers.PostgresBudgetLedger.ConfigureCaps` | backend/src/backend/persistence/governance.py:249-283 | stores the caps and reconciles the counters |
| `BudgetLedgers.PostgresBudgetLedger.RunReservationScript` | backend/src/backend/persistence/governance.py:65-83 | reports missing keys, denies without a change, or decrements all three counters |
| `BudgetLedgers.PostgresBudgetLedger.CreditCounters` | backend/src/backend/persistence/governance.py:656-674 | three increments, of which a failing one ends the credit |
| `BudgetLedgers.PostgresBudgetLedger.Reconcile` | backend/src/backend/persistence/governance.py:475-486 | sets the counters to the rounded remaining amounts of the tables, which `BudgetCaps.ReconcileByName` spells out cap by cap |
| `BudgetLedgers.PostgresBudgetLedger.Reserve` | backend/src/backend/persistence/governance.py:285-363 | is the call of the protocol, insert failures and lost credits included; what it grants by name is in `BudgetCaps.ReserveByName` |
| `BudgetLedgers.PostgresBudgetLedger.Settle` | backend/src/backend/persistence/governance.py:365-417 | is the call of the protocol with its three refusals |
| `BudgetLedgers.PostgresBudgetLedger.ReleaseOrphaned` | backend/src/backend/persistence/governance.py:419-455 | is the call of the protocol |
| `BudgetLedgers.PostgresBudgetLedger.Balance` | backend/src/backend/persistence/governance.py:457-473 | reports the tables, and reconciles first if a counter has gone |
| `BudgetLedgers.InMemoryBudgetLedger.Reserve` | backend/src/backend/persistence/testing/governance.py:69-111 | grants exactly when all three remaining amounts suffice, re-summed from the holds; by name in `BudgetCaps.MemReserveByName` |
| `BudgetLedgers.InMemoryBudgetLedger.Settle` | backend/src/backend/persistence/testing/governance.py:113-139 | drops the hold, then charges or refuses |
| `BudgetLedgers.InMemoryBudgetLedger.ReleaseOrphaned` | backend/src/backend/persistence/testing/governance.py:141-150 | drops the hold of a known reservation and refuses any other |
| `BudgetLedgers.InMemoryBudgetLedger.Balance` | backend/src/backend/persistence/testing/governance.py:152-165 | reports what caps, spend and holds leave and changes nothing |
| `BudgetLedgers.InMemoryBudgetLedger.ReservedAmount` | backend/src/backend/persistence/testing/governance.py:175-193 | the loop over the holds sums exactly those of the account |
| `Planner.ValidateForRepoWrite` | backend/src/backend/runtime/models.py:105-129 | ready exactly when every implementation task is paired, a public change has its e2e target, and a check and a task exist; the errors are exactly the faults |
| `Planner.PlannedListIsReadyIff` | backend/src/backend/runtime/planner.py:99-162 | the planner's list is ready if and only if the request names a task and a check |
| `Planner.CreateTaskList` | backend/src/backend/runtime/planner.py:99-162 | the loops build that list; readiness is a condition on the request |
| `Planner.PlannedListByFields` | backend/src/backend/runtime/planner.py:99-162 | the tasks, pairings, titles, checks and targets of the list in the order of the request |
| `Planner.ReadinessByFields` | backend/src/backend/runtime/models.py:105-129 | readiness in the fields of the tasks and targets |
| `Planner.ReadinessErrorsByFields` | backend/src/backend/runtime/models.py:105-129 | when each error is reported |
| `Workflow.RankDecreases` | backend/src/backend/runtime/workflow.py:120-188 | every visit of a node lowers the rank made of the three retry budgets |
| `Workflow.RoutesAreWired` | backend/src/backend/runtime/workflow.py:393-439 | the routers choose only edges of the graph |
| `Workflow.StepKeepsInv` | backend/src/backend/runtime/workflow.py:190-439 | every step keeps the history, counters, flags and outcome consistent with the request |
| `WorkflowTheorems.PrIsCreatedIff` | backend/src/backend/runtime/workflow.py:190-439 | a pull request is created exactly for the requests of the closed form |
| `WorkflowTheorems.RunEndsAsForeseen` | backend/src/backend/runtime/workflow.py:329-391 | every run ends completed without a reason, or paused with the reason, node and sink the request determines |
| `WorkflowTheorems.SinkIsMissingIff` | backend/src/backend/runtime/workflow.py:374-391 | with the phase-one sinks, a paused run lacks a sink exactly for an unregistered missing branch protection |
| `WorkflowTheorems.InvalidRouteComesFromTheGate` | backend/src/backend/runtime/workflow.py:261-270 | the reason INVALID_ROUTE_ATTEMPT only comes from the readiness gate, before any coder visit |
| `WorkflowTheorems.CreatedRunVisits` | backend/src/backend/runtime/workflow.py:120-188 | a successful run makes exactly 10 + c + 2t + 3r visits and visits the coder 1 + t + r times, all told by the request |
| `WorkflowOutcome.RunIsForeseen` | backend/src/backend/runtime/workflow.py:190-439 | the whole final state of every run, every flag and counter and the visited nodes in order, is a closed form of the request |
| `WorkflowOutcome.StoppedAtClarify` | backend/src/backend/runtime/workflow.py:209-235 | a run stopped at clarification made Max(1, iterations) attempts; length of its history |
| `WorkflowOutcome.StoppedAtTheGate` | backend/src/backend/runtime/workflow.py:261-270 | a run stopped at the gate has no retries and no coder visit; length of its history |
| `WorkflowOutcome.StoppedAtTester` | backend/src/backend/runtime/workflow.py:278-299 | a run stopped at the tester used up its test retries, missing and skipped tests included; coder visits and length of its history |
| `WorkflowOutcome.StoppedAtReviewer` | backend/src/backend/runtime/workflow.py:301-327 | a run stopped at the reviewer used up its review retries after the test failures; coder visits and length of its history |
| `WorkflowOutcome.StoppedAtSync` | backend/src/backend/runtime/workflow.py:329-359 | a run stopped before its pull request went through all its retries; coder visits and length of its history |
| `WorkflowTheorems.HistoryIsAWiredPath` | backend/src/backend/runtime/workflow.py:120-188 | the history of every run is a path of the wired graph, and coder visits are 1 + retries once the gate was passed |
| `WorkflowTheorems.RunEnds` | backend/src/backend/runtime/workflow.py:69-91 | every run is over after a number of visits bounded by its budgets |
| `WorkflowTheorems.GuardsNeverFire` | backend/src/backend/runtime/workflow.py:278-391 | in every reachable state the guards of tester, reviewer, pr_creator and escalate find nothing |
| `WorkflowExecution.TicketRun.ClearPause` | backend/src/backend/runtime/models.py:282-288 | forgets reason, node and sink, and reactivates a paused run only |
| `WorkflowExecution.TicketRun.TransitionTo` | backend/src/backend/runtime/models.py:290-293 | the history grows by the node and nothing else changes |
| `WorkflowExecution.VisitClarify` | backend/src/backend/runtime/workflow.py:209-235 | the node method counts the attempt and resolves, escalates or leaves the run to be clarified again |
| `WorkflowExecution.VisitCreateTaskList` | backend/src/backend/runtime/workflow.py:245-259 | the node method takes over the planner's list, readiness and test targets |
| `WorkflowExecution.VisitReadinessGate` | backend/src/backend/runtime/workflow.py:261-270 | the node method stops a run without a ready list and activates any other |
| `WorkflowExecution.VisitTester` | backend/src/backend/runtime/workflow.py:278-299 | the node method changes the run as its step function says, whose retries `WorkflowOutcome` counts for every run |
| `WorkflowExecution.VisitReviewer` | backend/src/backend/runtime/workflow.py:301-327 | the node method refuses untested runs, counts the retry or approves, as its step function says |
| `WorkflowExecution.VisitPrePrSync` | backend/src/backend/runtime/workflow.py:329-359 | the node method gives the first of its three objections as the reason |
| `WorkflowExecution.VisitPrCreator` | backend/src/backend/runtime/workflow.py:361-372 | the node method creates the pull request only with all four flags set |
| `WorkflowExecution.VisitEscalate` | backend/src/backend/runtime/workflow.py:374-391 | the node method pauses the run with its sink, or with the reason that a sink is missing |
| `WorkflowExecution.MissingSinks` | backend/src/backend/persistence/testing/runtime.py:46-57 | exactly the phase-one reasons without a sink |
| `WorkflowExecution.Execute` | backend/src/backend/runtime/workflow.py:69-91 | refuses exactly without the phase-one sinks; otherwise a fresh run object ends in the final state of its request, all of which `WorkflowOutcome.RunIsForeseen` gives |
| `WorkflowExecution.DefaultSinksSuffice` | backend/src/backend/runtime/workflow.py:101-118 | the default sinks are never refused and never leave a paused run without a sink |
| `ControlPlane.EveryRunKeepsInv` | backend/src/backend/persistence/control_plane.py:137-583 | after any calls the active snapshot and every binding resolve, the last switch in the audit trail names the active snapshot, the revision counts the switches, versions are numbered without gaps |
| `ControlPlane.RunKeepsItsSnapshot` | backend/src/backend/persistence/control_plane.py:306-408 | a run that is not over keeps the very snapshot it was pinned to until it is pinned again |
| `ControlPlane.OnlySwitchesMoveThePointer` | backend/src/backend/persistence/control_plane.py:499-525 | a committed switch replaces exactly the expected snapshot; nothing else moves the pointer |
| `ControlPlane.OneOfTwoRacingSwitchesWins` | backend/src/backend/persistence/control_plane.py:499-525 | of two switches prepared against the same snapshot the second commits only if the first rolled back to it |
| `ControlPlane.CleanupLeavesWhatIsInUse` | backend/src/backend/persistence/control_plane.py:374-408 | what a committed cleanup leaves, exactly |
| `ControlPlane.CleanupCommitsIff` | backend/alembic/versions/20260418_0002_control_plane_store.py:100-117 | as a corollary of the delete loop in `ControlPlaneStores.DeleteRetired`: cleanup commits if and only if no retired snapshot was replaced by an activation |
| `ControlPlane.CleanupStaysBlocked` | backend/src/backend/persistence/control_plane.py:374-408 | such a snapshot blocks every later cleanup until it is used again |
| `ControlPlane.ActivationBlocksCleanup` | backend/src/backend/persistence/control_plane.py:212-231 | an activation blocks cleanup unless a run still needs what it replaced |
| `ControlPlaneEffects.PinByFields` | backend/src/backend/persistence/control_plane.py:306-327 | a pin binds the run to exactly the snapshot and status and touches nothing else |
| `ControlPlaneEffects.UpdateStatusByFields` | backend/src/backend/persistence/control_plane.py:352-372 | an update, to whatever status, keeps the run bound to its snapshot with exactly that status and touches nothing else |
| `ControlPlaneEffects.BindingsLeaveWithTheirSnapshot` | backend/src/backend/persistence/control_plane.py:374-408 | a binding of any status only disappears in a committed cleanup that deletes its snapshot, and never that of a run that is not over |
| `ControlPlaneEffects.BindingsStayWithoutCleanup` | backend/src/backend/persistence/control_plane.py:306-372 | over any calls without a cleanup every binding stays |
| `ControlPlaneEffects.CleanupByFields` | backend/src/backend/persistence/control_plane.py:374-408 | which cleanups commit, and the snapshots and bindings they delete, by status |
| `ControlPlaneEffects.ActivateRefusals` | backend/src/backend/persistence/control_plane.py:194-231 | each refusal of an activation, exactly and in order |
| `ControlPlaneEffects.ActivateByFields` | backend/src/backend/persistence/control_plane.py:199-246 | every column an activation writes, and that it writes no other |
| `ControlPlaneEffects.RollbackByFields` | backend/src/backend/persistence/control_plane.py:248-288 | the refusals of a rollback, and every column it writes |
| `ControlPlaneEffects.CreateByFields` | backend/src/backend/persistence/control_plane.py:410-452 | number, payload and audit event of a new version |
| `ControlPlaneEffects.MemoryBindingsByFields` | backend/src/backend/persistence/testing/control_plane.py:152-168 | the same of bindings in memory, which no other call touches |
| `ControlPlaneEffects.MemoryActivateRefusals` | backend/src/backend/persistence/testing/control_plane.py:67-117 | the order of checks of the in-memory activation |
| `ControlPlaneEffects.MemorySwitchByFields` | backend/src/backend/persistence/testing/control_plane.py:67-146 | what a switch writes in memory |
| `ControlPlaneEffects.MemoryCreateByFields` | backend/src/backend/persistence/testing/control_plane.py:183-213 | what a new version writes in memory |
| `ControlPlaneMemory.StoresAgreeIff` | backend/src/backend/persistence/testing/control_plane.py:67-213 | the two stores accept and answer a call alike exactly unless it is one of five kinds of call, each named by a condition on it |
| `ControlPlaneMemory.SmoothRunsStayCoupled` | backend/src/backend/persistence/testing/control_plane.py:28-213 | over runs without such calls the memory shows what the database holds |
| `ControlPlaneStores.PostgresControlPlaneStore.ActivateSnapshot` | backend/src/backend/persistence/control_plane.py:177-246 | all or nothing, with the checks in the code's order |
| `ControlPlaneStores.PostgresControlPlaneStore.RequireVersions` | backend/src/backend/persistence/control_plane.py:545-556 | passes exactly if the graph version and every agent version is stored |
| `ControlPlaneStores.PostgresControlPlaneStore.RollbackTo` | backend/src/backend/persistence/control_plane.py:248-288 | all or nothing: the unknown snapshot first, then the compare-and-swap; returns the row it switched to |
| `ControlPlaneStores.PostgresControlPlaneStore.ActiveSnapshot` | backend/src/backend/persistence/control_plane.py:290-304 | finds a row exactly when a snapshot is active |
| `ControlPlaneStores.PostgresControlPlaneStore.SnapshotForRun` | backend/src/backend/persistence/control_plane.py:329-350 | finds the bound row exactly for bound runs |
| `ControlPlaneStores.PostgresControlPlaneStore.CreateGraphVersion` | backend/src/backend/persistence/control_plane.py:410-452 | the version gets the next number and its audit event |
| `ControlPlaneStores.PostgresControlPlaneStore.PinRunSnapshot` | backend/src/backend/persistence/control_plane.py:306-327 | inserts or replaces the binding exactly if run and snapshot exist |
| `ControlPlaneStores.PostgresControlPlaneStore.UpdateRunStatus` | backend/src/backend/persistence/control_plane.py:352-372 | is the call of the model, whose effect on the bindings is in `ControlPlaneEffects.UpdateStatusByFields` |
| `ControlPlaneStores.PostgresControlPlaneStore.CleanupRetiredSnapshots` | backend/src/backend/persistence/control_plane.py:374-408 | is the call of the model; a refused delete undoes everything |
| `ControlPlaneStores.DeleteRetired` | backend/src/backend/persistence/control_plane.py:388-408 | the loop of deletes succeeds exactly when no retired row is superseded, and leaves exactly the rows in use |
| `ControlPlaneStores.SupersedesOnlyEarlier` | backend/src/backend/persistence/control_plane.py:212-223 | a stored snapshot only names one stored before it |
| `ControlPlaneStores.InMemoryControlPlaneStore.ActivateSnapshot` | backend/src/backend/persistence/testing/control_plane.py:67-117 | is the call of the in-memory model |
| `ControlPlaneStores.InMemoryControlPlaneStore.RollbackTo` | backend/src/backend/persistence/testing/control_plane.py:119-146 | switches without a check when no snapshot is expected |
| `ControlPlaneStores.InMemoryControlPlaneStore.CleanupRetiredSnapshots` | backend/src/backend/persistence/testing/control_plane.py:168-182 | always succeeds and leaves the bindings alone |
| `ControlPlaneStores.DropRetired` | backend/src/backend/persistence/testing/control_plane.py:168-182 | the in-memory loop deletes every snapshot not in use |
| `HandlerRegistry.SnapshotDrivenHandlerRegistry.Resolve` | backend/src/backend/persistence/control_plane.py:619-636 | if nothing but the active snapshot is cached the answer is a direct lookup in it |
| `HandlerRegistry.SnapshotDrivenHandlerRegistry.Invalidate` | backend/src/backend/persistence/control_plane.py:638-650 | after a broadcast nothing but its snapshot is cached |
| `HandlerRegistry.SnapshotDrivenHandlerRegistry.FromCache` | backend/src/backend/persistence/control_plane.py:627-629 | the first locked section answers from the cache unless it has aged out |
| `HandlerRegistry.SnapshotDrivenHandlerRegistry.StoreLoaded` | backend/src/backend/persistence/control_plane.py:632-636 | the second one stores what was loaded and answers from it |
| `HandlerRegistry.HitInWorld` | backend/src/backend/persistence/control_plane.py:627-629 | within any interleaving, the first section hits exactly when the world has a hit, with its answer |
| `HandlerRegistry.FinishInWorld` | backend/src/backend/persistence/control_plane.py:631-636 | the second section is the end of a load of the world, with its answer |
| `HandlerRegistry.InvalidateInWorld` | backend/src/backend/persistence/control_plane.py:638-650 | a broadcast invalidates as the world's delivery does, a call without a snapshot clears |
| `HandlerRegistry.OthersLeaveTheCache` | backend/src/backend/persistence/control_plane.py:598-617 | whatever else happens, the fields stay the cache of the world |
| `HandlerRegistry.AnswersAreRecent` | backend/src/backend/persistence/control_plane.py:619-686 | under any interleaving and any lost broadcasts an answer is of a snapshot active at most the time to live plus its load's duration ago |
| `HandlerRegistry.StaleAnswersWereOvertaken` | backend/src/backend/persistence/control_plane.py:619-650 | with the last broadcast delivered only a load overtaken by one can answer from a snapshot other than the active one, rollbacks included |
| `HandlerRegistry.StaleIffOvertaken` | backend/src/backend/persistence/control_plane.py:619-650 | when no snapshot is switched to twice, an answer is stale if and only if its load was overtaken |
| `HandlerRegistry.OvertakenLoadIsServed` | backend/src/backend/persistence/control_plane.py:630-636 | a load overtaken by the broadcast of a different snapshot is served, until the time to live is over |
| `HandlerRegistry.TurnsAnswerFromTheActive` | backend/src/backend/persistence/control_plane.py:619-686 | with one call or switch after the other and each broadcast delivered, every answer is that of the active snapshot |
| `Dispatcher.ChoiceIsFair` | backend/src/backend/platform/queue.py:48-71 | the chosen index is the one first minimum among the candidates; nothing is chosen exactly if no tenant is under its limit; `Dispatcher.ChoiceByFields` says it in the fields of the jobs |
| `Dispatcher.ChoiceByFields` | backend/src/backend/platform/queue.py:48-71 | job i is chosen exactly if its tenant has room and, among jobs whose tenants have, it waited longest when one starves, and otherwise has the least in-flight count over max(weight, 1), ties going to the longer wait and then to the front |
| `Dispatcher.FirstMinIsFirstMin` | backend/src/backend/platform/queue.py:61-71 | the scan returns a least key and the first of equals |
| `Dispatcher.NotLessTransitive` | backend/src/backend/platform/queue.py:65-71 | not being less by load/weight and time is transitive and holds one way or the other between any two jobs |
| `Dispatcher.StarvedOnlyLosesToJobsAhead` | backend/src/backend/platform/queue.py:59-63 | a starved eligible job only loses to an earlier one |
| `Dispatcher.OvertakingIsBounded` | backend/src/backend/platform/queue.py:48-71 | a starved job is overtaken by at most the jobs ahead of it now, and picked within that many rounds and one |
| `Worker.EveryRunKeepsInv` | backend/src/backend/persistence/worker.py:198-307 | each counter is the number of the tenant's jobs in the table and within the limit; every assigned job is exactly one of active, released, dead-lettered, and each dead letter has one owner |
| `Worker.AssignKeepsInvIff` | backend/src/backend/persistence/worker.py:198-222 | an accepted assignment keeps that if and only if the worker was idle |
| `Worker.BusyAssignLeavesCounterHigh` | backend/src/backend/persistence/worker.py:198-222 | otherwise the overwritten job's tenant stays counted once too often |
| `Worker.DrainingWorkerGetsNothing` | backend/src/backend/persistence/worker.py:206-247 | from begin_drain to its release a worker gets nothing, lease expired or not |
| `Worker.IdleDrainIsForEver` | backend/src/backend/persistence/worker.py:224-272 | a worker idle at begin_drain never accepts a job again |
| `Worker.DrainEndsIff` | backend/src/backend/persistence/worker.py:224-272 | some calls take a draining worker out of the set if and only if it holds a job, as begin_drain reports |
| `Worker.AssignByFields` | backend/src/backend/persistence/worker.py:198-222 | each refusal of assign, and what an accepted one writes |
| `Worker.DrainByFields` | backend/src/backend/persistence/worker.py:224-247 | begin_drain sets both drain marks; an expired lease takes only its own |
| `Worker.SettleByFields` | backend/src/backend/persistence/worker.py:249-307 | release and dead-lettering take the entry, one from the counter and both drain marks; the record holds job, worker and reason |
| `Worker.SettledWorkerIsFree` | backend/src/backend/persistence/worker.py:249-307 | the worker then drains no longer and may be assigned any job whose tenant is under the limit |
| `Worker.ChosenJobIsAccepted` | backend/src/backend/persistence/worker.py:190-212 | a job chosen from the counters passes the limit check of assign |
| `Worker.RedisWorkerController.AssignJob` | backend/src/backend/persistence/worker.py:198-222 | refuses draining workers and full tenants, otherwise updates table and counter |
| `Worker.RedisWorkerController.StartDrain` | backend/src/backend/persistence/worker.py:224-247 | takes the lease, joins the draining set and names the job the worker still holds |
| `Worker.RedisWorkerController.Release` | backend/src/backend/persistence/worker.py:249-272 | returns the job with its checkpoint and clears entry, counter, lease and set |
| `Worker.RedisWorkerController.CaptureTerminalFailure` | backend/src/backend/persistence/worker.py:274-307 | records the dead letter first and changes nothing if that fails |
| `Worker.RedisWorkerController.GetActiveJob` | backend/src/backend/persistence/worker.py:329-341 | finds exactly the job of the shared table |
| `SlidingWindow.PruneTimes` | backend/src/backend/persistence/webhook.py:375-383 | the pruned list is the times less than a window ago |
| `SlidingWindow.PruningLosesNothing` | backend/src/backend/persistence/webhook.py:375-388 | for a clock that does not go back the stored list answers every later question as the full history would |
| `SlidingWindow.RefusedIff` | backend/src/backend/persistence/webhook.py:375-388 | a request is refused exactly when the limit passed in the last 60 seconds |
| `SlidingWindow.NoWindowExceedsTheLimit` | backend/src/backend/persistence/webhook.py:375-388 | in no 60 seconds do more than the limit pass for one key |
| `Webhook.CacheIsTransparent` | backend/src/backend/persistence/webhook.py:304-329 | whatever is evicted and whatever reads and writes fail, verdicts, rows, windows and rejections are those of the guard without a cache |
| `Webhook.TransparentIff` | backend/src/backend/persistence/webhook.py:530-534 | that holds for all runs over some sources if and only if none, followed by a colon, begins another |
| `Webhook.OneSourceIsTransparent` | backend/src/backend/platform/api.py:88-96 | with a single source the cache never changes an answer |
| `Webhook.KeysTellApart` | backend/src/backend/persistence/webhook.py:530-534 | over such sources equal keys mean equal source, event and digest |
| `Webhook.AtMostOneFreshVerdict` | backend/src/backend/persistence/schema.py:105 | each source and event id is accepted as new at most once, whatever the sources |
| `Webhook.DuplicateIffAcceptedBefore` | backend/src/backend/persistence/webhook.py:304-329 | an accepted delivery is a duplicate exactly if one of the same source and event was accepted before |
| `Webhook.RateLimitedIff` | backend/src/backend/persistence/webhook.py:301-302 | within the guard the verdict of the window is the one of `SlidingWindow` |
| `WebhookChecks.VerdictByFields` | backend/src/backend/persistence/webhook.py:261-329 | the reason of every rejection and what acceptance takes, as an if-and-only-if in the order of the checks |
| `WebhookChecks.EffectsByFields` | backend/src/backend/persistence/webhook.py:261-329 | the row, window time, rejection and cache key a delivery leaves, each exactly when |
| `WebhookChecks.AcceptedWasChecked` | backend/src/backend/persistence/webhook.py:261-302 | over any run, what was accepted came from an allowed address, was signed, timely, not flooded and within the limit |
| `WebhookChecks.UnsoundLeavesNoTrace` | backend/src/backend/persistence/webhook.py:261-285 | over any run, deliveries that fail address, signature or freshness leave no row, window time, rejection or key |
| `WebhookChecks.MemoryVerdictByFields` | backend/src/backend/persistence/testing/security.py:29-65 | the same verdicts in memory, repeated keys before the windows |
| `WebhookChecks.MemoryEffectsByFields` | backend/src/backend/persistence/testing/security.py:29-85 | what a delivery leaves in memory |
| `WebhookChecks.UnsoundLeavesNoTraceInMemory` | backend/src/backend/persistence/testing/security.py:29-42 | over any run of the in-memory guard, deliveries that fail a check leave no trace |
| `WebhookGuards.PostgresRedisWebhookGuard.VerifyDelivery` | backend/src/backend/persistence/webhook.py:261-329 | the checks in order, with exactly the effects of the step; field by field in `WebhookChecks` |
| `WebhookGuards.PostgresRedisWebhookGuard.IsRateLimited` | backend/src/backend/persistence/webhook.py:375-388 | stores the pruned list, and the time only if the request passes |
| `WebhookGuards.PostgresRedisWebhookGuard.InsertDelivery` | backend/src/backend/persistence/webhook.py:94-135 | inserts exactly if the pair of source and delivery is new |
| `WebhookGuards.InMemoryWebhookGuard.VerifyDelivery` | backend/src/backend/persistence/testing/security.py:29-65 | the in-memory order: repeated keys before both windows |
| `WebhookGuards.InMemoryWebhookGuard.TicketFloodExceeded` | backend/src/backend/persistence/testing/security.py:78-85 | the ticket window is the same window |
| `WebhookGuards.MemoryWindowsAreLimiters` | backend/src/backend/persistence/testing/security.py:46-65 | over any run both windows of the in-memory guard are sliding windows over the deliveries that reach them |
| `WebhookGuards.MemoryGuardKeepsItsLimits` | backend/src/backend/persistence/testing/security.py:50-85 | no 60 seconds see more than the limit of new deliveries pass, for a ticket or for an address at an endpoint |
| `WebhookGuards.MemoryRateLimitedIff` | backend/src/backend/persistence/testing/security.py:46-59 | a new delivery is refused exactly when its ticket, or its address at the endpoint, has used up the limit in the last 60 seconds |
| `Breaker.StoresAreBisimilar` | backend/src/backend/persistence/governance.py:84-124 | after any calls the scripts and the snapshots report and allow the same |
| `Breaker.EveryRunIsSound` | backend/src/backend/persistence/testing/governance.py:551-586 | closed means fewer failures than the threshold, open at least as many; probes only exist half-open |
| `Breaker.OpenIff` | backend/src/backend/persistence/testing/governance.py:551-557 | without a half-open step a breaker is open exactly when the failures since the last success reach the threshold |
| `Breaker.StepsByFields` | backend/src/backend/persistence/testing/governance.py:551-586 | each of the four steps, and what is allowed, by state |
| `Breaker.FailureAtTheThresholdOpens` | backend/src/backend/persistence/governance.py:84-96 | a failure at the threshold, a failed probe included, opens the breaker in both stores, and nothing passes until a success or recovery |
| `Breaker.HalfOpenLetsFewThrough` | backend/src/backend/persistence/governance.py:102-124 | between entering half-open and the next success or half-open step at most the configured probes are let through |
| `Breaker.HalfOpenSpendsItsProbes` | backend/src/backend/persistence/testing/governance.py:572-581 | without a failure in between it is exactly that many or all that were asked |
| `Breaker.RedisSharedProviderHealthStore.RecordFailure` | backend/src/backend/persistence/governance.py:84-96 | the failure script on a hash with missing fields |
| `Breaker.RedisSharedProviderHealthStore.RecordSuccess` | backend/src/backend/persistence/governance.py:97-101 | the success script closes and clears whatever was there |
| `Breaker.RedisSharedProviderHealthStore.Recover` | backend/src/backend/persistence/governance.py:102-108 | the half-open script grants the probes and keeps the failures |
| `Breaker.RedisSharedProviderHealthStore.AllowRequest` | backend/src/backend/persistence/governance.py:109-124 | the allow script: a probe is taken only half-open |
| `Breaker.InMemoryProviderHealthStore.RecordFailure` | backend/src/backend/persistence/testing/governance.py:551-557 | the step on snapshots |
| `Breaker.InMemoryProviderHealthStore.RecordSuccess` | backend/src/backend/persistence/testing/governance.py:559-564 | closes and clears |
| `Breaker.InMemoryProviderHealthStore.Recover` | backend/src/backend/persistence/testing/governance.py:566-570 | grants the probes and keeps the failures |
| `Breaker.InMemoryProviderHealthStore.AllowRequest` | backend/src/backend/persistence/testing/governance.py:572-581 | the step on snapshots |
| `Breaker.SelectModel` | backend/src/backend/governance/routing.py:64-109 | the first allowed model at the price of at most one probe of its own provider; refusals cost nothing; which error when |
| `Breaker.SelectModelShared` | backend/src/backend/governance/routing.py:64-109 | the same promise over the shared store, on the snapshots its hashes amount to |
| `Metering.FilterFacts` | backend/src/backend/persistence/testing/governance.py:309-320 | exactly the tenant's facts of the period, ends included |
| `Metering.GroupFacts` | backend/src/backend/persistence/testing/governance.py:212-255 | the loop leaves one group for every key that occurs, with exactly the sums and ids of its facts |
| `Metering.BuildHourlyRollups` | backend/src/backend/persistence/testing/governance.py:205-257 | one rollup for every key that occurs, distinct keys, each with exactly the sums and usage ids of its facts |
| `Metering.EveryFactIsInExactlyOneRollup` | backend/src/backend/persistence/governance.py:768-804 | each fact is listed by the rollup of its own hour and key, there is one such rollup, and with distinct usage ids no other lists it |
| `Metering.RollupIsOfItsHour` | backend/src/backend/persistence/governance.py:770 | the bucket is the whole hour that contains the completion time |
| `Metering.PeriodByFields` | backend/src/backend/persistence/testing/governance.py:309-320 | the period's facts are the tenant's with both ends included, each as often as recorded |
| `Metering.SameRollupIff` | backend/src/backend/persistence/testing/governance.py:212-255 | two facts share a rollup exactly if hour, tenant, team, role, provider, model and rate card agree |
| `Metering.RollupByFields` | backend/src/backend/persistence/testing/governance.py:212-255 | requests, input tokens, output tokens and cost of a rollup are each the sum over its facts |
| `Metering.RollupsConserveTotals` | backend/src/backend/persistence/governance.py:768-804 | requests, tokens and cost add up to the same over rollups as over facts |
| `Metering.Reconcile` | backend/src/backend/persistence/testing/governance.py:281-307 | the drift taken against the facts equals the one against the rollups |

## Left out

- SQL, engines, row-level security, migrations, Redis connections, key expiry other than a drain lease and arbitrary evictions, telemetry, logging, environment parsing.
- HMAC, SHA-256, address lists and GitHub calls: their answers are parameters.
- Graph validation: models are sets and lists of typed errors; message texts and their sorting are not modelled.
- Budget: day and month rollover; a reconcile is one step, so calls that overlap its own reads and writes are not modelled, and neither are races of two transactions for the same row; amounts below a micro-dollar; free-text reasons.
- BudgetSafety.NoCapIsExceeded: requires whole cents and reconciles that wait; BudgetClaims.TestedCallsKeepTheCaps covers arbitrary amounts, and BudgetOverspend says which amounts can exceed a cap. Counters are accounts there; BudgetKeys says for which teams their keys are.
- BudgetEquivalence.SequentialAnswersAgree: requires that the caps of an account stay the same, because the counters of a team hold what is left of one run's cap; BudgetDivergence.SequencesAgreeIff is for any caps. Both require that a run keeps its team; refusals other than an exhausted budget are not told apart.
- Workflow: artifact contents and hashes, clarification notes, last_retry_reason, the context resolver and checkpoints; the framework's recursion limit; saving and resuming a run beyond clearing its pause.
- Control plane: shadow reports beyond what they decide, creation times (rows are in creation order), the runs table (whether it has a run is a parameter), the creation of agent versions as an object method.
- ControlPlaneMemory.StoresAgreeIff: compares acceptance and answers, not which error is raised, because the two stores check in different orders; new ids are fresh.
- Handler registry: the subscription itself and the parsing of a graph payload; a failed broadcast is one that is never delivered.
- Dispatcher: division of floats (fractions are compared exactly); the queue transport.
- Worker: Redis failures and the local fallbacks, several controllers at once, concurrency inside assign.
- SlidingWindow.NoWindowExceedsTheLimit: speaks of requests that reach a window; in the in-memory guard repeated keys are accepted before that.
- Webhook: the random members of the Redis flood window (its answer is a parameter), failures of the delivery table, secret rotation, the shadow guard.
- Breaker: expiry of the hash, the fallbacks without Redis, persisted health events, the model catalog's own rules.
- Metering.HourOf: takes times in UTC; the code truncates the hour in the zone of the value it reads.
- Metering: the table rollups are stored in, rollup_id strings, exports, rate cards and reconciliation reports.
