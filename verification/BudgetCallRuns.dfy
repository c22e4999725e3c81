/** Whole calls of the ledger over two stores are runs of the protocol's steps, so that what is
    proved of the steps holds of the ledger: its caps are kept by any sequence of tested calls. */
module BudgetCallRuns {
  import opened Money
  import opened BudgetProtocol
  import opened BudgetSafety
  import opened BudgetClaims
  import opened BudgetRuns
  import opened BudgetCalls

  /** What is asked of steps: nothing, that they pass their tests, or whole cents and waiting. */
  datatype Rule = AnyStep | TestedSteps | CarefulSteps

  ghost predicate Obeys(rule: Rule, s: State, step: Step) {
    match rule
    case AnyStep => true
    case TestedSteps => Tested(s, step)
    case CarefulSteps => Careful(s, step)
  }

  /** The steps lead from s to t and obey the rule. */
  ghost predicate Runs(rule: Rule, s: State, steps: seq<Step>, t: State)
    decreases |steps|
  {
    if steps == [] then s == t
    else
      && Enabled(s, steps[0])
      && Obeys(rule, s, steps[0])
      && Runs(rule, Next(s, steps[0]), steps[1..], t)
  }

  lemma OneStep(rule: Rule, s: State, step: Step)
    requires Enabled(s, step) && Obeys(rule, s, step)
    ensures Runs(rule, s, [step], Next(s, step))
  {
    assert Runs(rule, Next(s, step), [step][1..], Next(s, step));
  }

  lemma {:induction false} RunsJoin(rule: Rule, s: State, xs: seq<Step>, t: State, ys: seq<Step>, u: State)
    requires Runs(rule, s, xs, t) && Runs(rule, t, ys, u)
    ensures Runs(rule, s, xs + ys, u)
    decreases |xs|
  {
    if xs == [] {
      assert xs + ys == ys;
    } else {
      RunsJoin(rule, Next(s, xs[0]), xs[1..], t, ys, u);
      assert (xs + ys)[1..] == xs[1..] + ys;
    }
  }

  /** A run goes on with the steps. */
  lemma {:induction false} RunsGoOn(before: seq<Step>, s: State, steps: seq<Step>, t: State)
    requires EndsIn(before, s) && Runs(AnyStep, s, steps, t)
    ensures EndsIn(before + steps, t)
    decreases |steps|
  {
    if steps == [] {
      assert before + steps == before;
    } else {
      EndsInStep(before, s, steps[0], Next(s, steps[0]));
      RunsGoOn(before + [steps[0]], Next(s, steps[0]), steps[1..], t);
      assert before + [steps[0]] + steps[1..] == before + steps;
    }
  }

  lemma {:induction false} TestedStepsFit(s: State, steps: seq<Step>, t: State)
    requires Runs(TestedSteps, s, steps, t) && ClaimsFit(s)
    ensures ClaimsFit(t)
    decreases |steps|
  {
    if steps != [] {
      StepKeepsClaimsFit(s, steps[0]);
      TestedStepsFit(Next(s, steps[0]), steps[1..], t);
    }
  }

  lemma {:induction false} CarefulStepsAreSafe(s: State, steps: seq<Step>, t: State)
    requires Runs(CarefulSteps, s, steps, t) && Safe(s)
    ensures Safe(t)
    decreases |steps|
  {
    if steps != [] {
      StepKeepsSafe(s, steps[0]);
      CarefulStepsAreSafe(Next(s, steps[0]), steps[1..], t);
    }
  }

  // ------------------------------------------------ each call is a run

  lemma CreditOnceRuns(rule: Rule, s: State, w: WorkerId, ok: bool) returns (steps: seq<Step>)
    ensures Runs(rule, s, steps, CreditOnce(s, w, ok))
  {
    if !IsCrediting(s, w) {
      steps := [];
    } else {
      var step := if ok then Credit(w) else LoseCredit(w);
      OneStep(rule, s, step);
      steps := [step];
    }
  }

  lemma CreditUpToRuns(rule: Rule, s: State, w: WorkerId, credits: nat) returns (steps: seq<Step>)
    ensures Runs(rule, s, steps, CreditUpTo(s, w, credits))
  {
    var t := CreditOnce(s, w, credits > 0);
    var u := CreditOnce(t, w, credits > 1);
    var xs := CreditOnceRuns(rule, s, w, credits > 0);
    var ys := CreditOnceRuns(rule, t, w, credits > 1);
    var zs := CreditOnceRuns(rule, u, w, credits > 2);
    RunsJoin(rule, s, xs, t, ys, u);
    RunsJoin(rule, s, xs + ys, u, zs, CreditUpTo(s, w, credits));
    steps := xs + ys + zs;
  }

  /** With nothing in flight a reconcile passes its test when no amount left rounds up. */
  ghost predicate LeavesRoundDown(s: State, ctx: Context)
    requires ctx.runId in s.caps
  {
    forall a | Touches(ctx, a) :: RoundsDown(Remaining(s, ctx, a))
  }

  lemma ReconcileRuns(rule: Rule, s: State, ctx: Context)
    requires ctx.runId in s.caps && s.flights == map[] && (rule.TestedSteps? ==> LeavesRoundDown(s, ctx))
    ensures Runs(rule, s, [Reconcile(ctx)], AfterReconcile(s, ctx))
  {
    OneStep(rule, s, Reconcile(ctx));
  }

  lemma ConfigureRuns(rule: Rule, s: State, ctx: Context, caps: Caps) returns (steps: seq<Step>)
    requires s.flights == map[]
    requires rule.TestedSteps? ==> LeavesRoundDown(AfterConfigure(s, ctx, caps), ctx)
    requires rule.CarefulSteps? ==> WholeCaps(caps)
    ensures Runs(rule, s, steps, ConfigureCall(s, ctx, caps))
  {
    var t := AfterConfigure(s, ctx, caps);
    OneStep(rule, s, Configure(ctx, caps));
    ReconcileRuns(rule, t, ctx);
    RunsJoin(rule, s, [Configure(ctx, caps)], t, [Reconcile(ctx)], ConfigureCall(s, ctx, caps));
    steps := [Configure(ctx, caps)] + [Reconcile(ctx)];
  }

  /** Making sure of the counters is a reconcile if one of them has gone. */
  ghost predicate EnsureTested(s: State, ctx: Context) {
    ctx.runId in s.caps && !KeysPresent(s, ctx) ==> LeavesRoundDown(s, ctx)
  }

  lemma EnsureRuns(rule: Rule, s: State, ctx: Context) returns (steps: seq<Step>)
    requires ctx.runId in s.caps && s.flights == map[] && (rule.TestedSteps? ==> EnsureTested(s, ctx))
    ensures Runs(rule, s, steps, Ensured(s, ctx))
  {
    if KeysPresent(s, ctx) {
      steps := [];
    } else {
      ReconcileRuns(rule, s, ctx);
      steps := [Reconcile(ctx)];
    }
  }

  lemma InsertRuns(rule: Rule, s: State, w: WorkerId, id: ResId, fault: Fault) returns (steps: seq<Step>)
    requires IsInserting(s, w) && id !in s.rows
    ensures Runs(rule, s, steps, if fault.insertFails then CreditUpTo(AfterInsertFails(s, w), w, fault.credits)
                                   else AfterInsert(s, w, id))
  {
    if fault.insertFails {
      var t := AfterInsertFails(s, w);
      OneStep(rule, s, InsertFails(w));
      var credit := CreditUpToRuns(rule, t, w, fault.credits);
      RunsJoin(rule, s, [InsertFails(w)], t, credit, CreditUpTo(t, w, fault.credits));
      steps := [InsertFails(w)] + credit;
    } else {
      OneStep(rule, s, Insert(w, id));
      steps := [Insert(w, id)];
    }
  }

  predicate AmountObeys(rule: Rule, amount: int) {
    && (rule.TestedSteps? ==> TakesEnough(amount))
    && (rule.CarefulSteps? ==> WholeCents(amount) && amount >= 0)
  }

  /** What a reservation comes to once it may take its cents. */
  ghost function Granted(s: State, w: WorkerId, ctx: Context, id: ResId, amount: int, fault: Fault): State {
    var t := AfterDecrement(s, w, ctx, amount);
    if fault.insertFails then CreditUpTo(AfterInsertFails(t, w), w, fault.credits) else AfterInsert(t, w, id)
  }

  lemma GrantedRuns(rule: Rule, s: State, w: WorkerId, ctx: Context, id: ResId, amount: int, fault: Fault)
    returns (steps: seq<Step>)
    requires Enabled(s, Decrement(w, ctx, amount)) && AmountObeys(rule, amount) && id !in s.rows
    ensures Runs(rule, s, steps, Granted(s, w, ctx, id, amount, fault))
  {
    var t := AfterDecrement(s, w, ctx, amount);
    OneStep(rule, s, Decrement(w, ctx, amount));
    var rest := InsertRuns(rule, t, w, id, fault);
    RunsJoin(rule, s, [Decrement(w, ctx, amount)], t, rest, Granted(s, w, ctx, id, amount, fault));
    steps := [Decrement(w, ctx, amount)] + rest;
  }

  lemma EnsuredThenGranted(rule: Rule, s: State, w: WorkerId, ctx: Context, id: ResId, amount: int, fault: Fault)
    returns (steps: seq<Step>)
    requires s.flights == map[] && id !in s.rows && ctx.runId in s.caps
    requires rule.TestedSteps? ==> EnsureTested(s, ctx)
    requires AmountObeys(rule, amount)
    requires KeysPresent(Ensured(s, ctx), ctx) && Affordable(Ensured(s, ctx), ctx, UsdToCents(amount))
    ensures Runs(rule, s, steps, Granted(Ensured(s, ctx), w, ctx, id, amount, fault))
  {
    var t := Ensured(s, ctx);
    EnsuredSameTables(s, ctx);
    var ensure := EnsureRuns(rule, s, ctx);
    var rest := GrantedRuns(rule, t, w, ctx, id, amount, fault);
    RunsJoin(rule, s, ensure, t, rest, Granted(t, w, ctx, id, amount, fault));
    steps := ensure + rest;
  }

  lemma ReserveOutcome(s: State, w: WorkerId, ctx: Context, id: ResId, amount: int, fault: Fault)
    requires ctx.runId in s.caps
    ensures var t := Ensured(s, ctx);
            && KeysPresent(t, ctx)
            && ReserveCall(s, w, ctx, id, amount, fault).0
               == if Affordable(t, ctx, UsdToCents(amount)) then Granted(t, w, ctx, id, amount, fault) else t
  {
    EnsuredHasKeys(s, ctx);
  }

  lemma ReserveRuns(rule: Rule, s: State, w: WorkerId, ctx: Context, id: ResId, amount: int, fault: Fault)
    returns (steps: seq<Step>)
    requires s.flights == map[] && id !in s.rows && AmountObeys(rule, amount)
    requires rule.TestedSteps? ==> EnsureTested(s, ctx)
    ensures Runs(rule, s, steps, ReserveCall(s, w, ctx, id, amount, fault).0)
  {
    if ctx.runId !in s.caps {
      steps := [];
    } else {
      ReserveOutcome(s, w, ctx, id, amount, fault);
      if Affordable(Ensured(s, ctx), ctx, UsdToCents(amount)) {
        steps := EnsuredThenGranted(rule, s, w, ctx, id, amount, fault);
      } else {
        steps := EnsureRuns(rule, s, ctx);
      }
    }
  }

  lemma CloseRuns(rule: Rule, s: State, step: Step, w: WorkerId, id: ResId, r: Reservation, credits: nat)
    returns (steps: seq<Step>)
    requires Enabled(s, step) && Obeys(rule, s, step) && Next(s, step) == AfterClose(s, w, id, r)
    ensures Runs(rule, s, steps, CreditUpTo(AfterClose(s, w, id, r), w, credits))
  {
    var t := AfterClose(s, w, id, r);
    OneStep(rule, s, step);
    var credit := CreditUpToRuns(rule, t, w, credits);
    RunsJoin(rule, s, [step], t, credit, CreditUpTo(t, w, credits));
    steps := [step] + credit;
  }

  lemma SettleRuns(rule: Rule, s: State, w: WorkerId, id: ResId, actual: int, credits: nat) returns (steps: seq<Step>)
    requires w !in s.flights
    requires rule.TestedSteps? && IsActive(s, id) && actual <= s.rows[id].reserved ==>
               GivesNoMore(s.rows[id].reserved - actual)
    requires rule.CarefulSteps? ==> WholeCents(actual)
    ensures Runs(rule, s, steps, SettleCall(s, w, id, actual, credits).0)
  {
    steps := [];
    if IsActive(s, id) && actual <= s.rows[id].reserved {
      steps := CloseRuns(rule, s, Settle(w, id, actual), w, id, SettledRow(s.rows[id], actual), credits);
    }
  }

  lemma ReleaseRuns(rule: Rule, s: State, w: WorkerId, id: ResId, credits: nat) returns (steps: seq<Step>)
    requires w !in s.flights
    requires rule.TestedSteps? && IsActive(s, id) ==> GivesNoMore(s.rows[id].reserved)
    ensures Runs(rule, s, steps, ReleaseCall(s, w, id, credits).0)
  {
    steps := [];
    if IsActive(s, id) {
      steps := CloseRuns(rule, s, Release(w, id), w, id, ReleasedRow(s.rows[id]), credits);
    }
  }

  // ------------------------------------------------ sequences of calls

  /** What happens to the ledger: a call, with the faults it meets, or the loss of a counter. */
  datatype Event = Called(command: Command, fault: Fault) | Evicted(account: Account)

  /** Reservation ids are drawn anew for each call. */
  predicate Fresh(s: State, e: Event) {
    e.Called? && e.command.Reserves? ==> e.command.id !in s.rows
  }

  ghost function Outcome(s: State, w: WorkerId, e: Event): State
    requires s.flights == map[]
  {
    match e
    case Called(c, fault) => Perform(s, w, c, fault).0
    case Evicted(a) => if a in s.counters then AfterEvict(s, a) else s
  }

  /** What a caller can check before the call. */
  ghost predicate CallTested(s: State, c: Command) {
    match c
    case Configures(ctx, caps) => LeavesRoundDown(AfterConfigure(s, ctx, caps), ctx)
    case Reserves(ctx, id, amount) => TakesEnough(amount) && EnsureTested(s, ctx)
    case Settles(id, actual) =>
      IsActive(s, id) && actual <= s.rows[id].reserved ==> GivesNoMore(s.rows[id].reserved - actual)
    case Releases(id) => IsActive(s, id) ==> GivesNoMore(s.rows[id].reserved)
    case Balances(ctx) => EnsureTested(s, ctx)
  }

  /** What needs no look at the ledger: whole cents, and no negative reservation. */
  predicate WholeCommand(c: Command) {
    match c
    case Configures(_, caps) => WholeCaps(caps)
    case Reserves(_, _, amount) => WholeCents(amount) && amount >= 0
    case Settles(_, actual) => WholeCents(actual)
    case _ => true
  }

  ghost predicate EventObeys(rule: Rule, s: State, e: Event) {
    e.Called? ==>
      && (rule.TestedSteps? ==> CallTested(s, e.command))
      && (rule.CarefulSteps? ==> WholeCommand(e.command))
  }

  lemma BalanceRuns(rule: Rule, s: State, ctx: Context) returns (steps: seq<Step>)
    requires s.flights == map[] && (rule.TestedSteps? ==> EnsureTested(s, ctx))
    ensures Runs(rule, s, steps, BalanceCall(s, ctx).0)
  {
    steps := [];
    if ctx.runId in s.caps {
      steps := EnsureRuns(rule, s, ctx);
    }
  }

  /** Each call does what some steps of the protocol do one after the other. */
  lemma CallRuns(rule: Rule, s: State, w: WorkerId, c: Command, fault: Fault) returns (steps: seq<Step>)
    requires s.flights == map[] && Fresh(s, Called(c, fault)) && EventObeys(rule, s, Called(c, fault))
    ensures Runs(rule, s, steps, Perform(s, w, c, fault).0)
  {
    match c
    case Configures(ctx, caps) => steps := ConfigureRuns(rule, s, ctx, caps);
    case Reserves(ctx, id, amount) => steps := ReserveRuns(rule, s, w, ctx, id, amount, fault);
    case Settles(id, actual) => steps := SettleRuns(rule, s, w, id, actual, fault.credits);
    case Releases(id) => steps := ReleaseRuns(rule, s, w, id, fault.credits);
    case Balances(ctx) => steps := BalanceRuns(rule, s, ctx);
  }

  lemma EventRuns(rule: Rule, s: State, w: WorkerId, e: Event) returns (steps: seq<Step>)
    requires s.flights == map[] && Fresh(s, e) && EventObeys(rule, s, e)
    ensures Runs(rule, s, steps, Outcome(s, w, e))
  {
    steps := [];
    if e.Called? {
      steps := CallRuns(rule, s, w, e.command, e.fault);
    } else if e.account in s.counters {
      OneStep(rule, s, Evict(e.account));
      steps := [Evict(e.account)];
    }
  }

  lemma CloseEnds(s: State, w: WorkerId, c: Command, fault: Fault)
    requires s.flights == map[] && (c.Settles? || c.Releases?)
    ensures Perform(s, w, c, fault).0.flights == map[]
  {
    if IsActive(s, c.id) {
      if c.Releases? {
        ClosedCall(s, w, c.id, ReleasedRow(s.rows[c.id]), fault.credits);
      } else if c.actual <= s.rows[c.id].reserved {
        ClosedCall(s, w, c.id, SettledRow(s.rows[c.id], c.actual), fault.credits);
      }
    }
  }

  /** Every call ends before the next one begins. */
  lemma CallEnds(s: State, w: WorkerId, e: Event)
    requires s.flights == map[]
    ensures Outcome(s, w, e).flights == map[]
  {
    if e.Called? {
      var c := e.command;
      if c.Reserves? {
        ReserveEnds(s, w, c.ctx, c.id, c.amount, e.fault);
      } else if c.Settles? || c.Releases? {
        CloseEnds(s, w, c, e.fault);
      }
    }
  }

  lemma ReserveEnds(s: State, w: WorkerId, ctx: Context, id: ResId, amount: int, fault: Fault)
    requires s.flights == map[]
    ensures ReserveCall(s, w, ctx, id, amount, fault).0.flights == map[]
  {
    if ctx.runId in s.caps {
      var s1 := Ensured(s, ctx);
      EnsuredHasKeys(s, ctx);
      EnsuredSameTables(s, ctx);
      var s2 := AfterDecrement(s1, w, ctx, amount);
      FailedInsertCall(s2, w, ctx, amount, fault.credits);
      assert AfterInsert(s2, w, id).flights == map[];
    }
  }

  /** The states of the ledger under the events, from empty stores. */
  ghost predicate Plays(w: WorkerId, events: seq<Event>, states: seq<State>) {
    && |states| == |events| + 1
    && states[0] == EMPTY
    && forall i | 0 <= i < |events| :: Follows(w, states[i], events[i], states[i + 1])
  }

  ghost predicate Follows(w: WorkerId, s: State, e: Event, t: State) {
    s.flights == map[] && Fresh(s, e) && t == Outcome(s, w, e)
  }

  lemma {:induction false} LedgerIsIdle(w: WorkerId, events: seq<Event>, states: seq<State>, i: nat)
    requires Plays(w, events, states) && i <= |events|
    ensures states[i].flights == map[]
  {
    if i > 0 {
      assert Follows(w, states[i - 1], events[i - 1], states[i]);
      CallEnds(states[i - 1], w, events[i - 1]);
    }
  }

  /** Whatever is called, and whatever fails or is lost, the ledger only ever is where a run of the
      protocol ends. */
  lemma {:induction false} CallsAreRuns(w: WorkerId, events: seq<Event>, states: seq<State>, i: nat)
    returns (steps: seq<Step>)
    requires Plays(w, events, states) && i <= |events|
    ensures EndsIn(steps, states[i])
  {
    if i == 0 {
      steps := [];
      assert IsRun([], [EMPTY]);
    } else {
      var before := CallsAreRuns(w, events, states, i - 1);
      assert Follows(w, states[i - 1], events[i - 1], states[i]);
      var more := EventRuns(AnyStep, states[i - 1], w, events[i - 1]);
      RunsGoOn(before, states[i - 1], more, states[i]);
      steps := before + more;
    }
  }

  lemma {:induction false} TestedCallsFit(w: WorkerId, events: seq<Event>, states: seq<State>, i: nat)
    requires Plays(w, events, states) && i <= |events|
    requires forall j | 0 <= j < i :: EventObeys(TestedSteps, states[j], events[j])
    ensures ClaimsFit(states[i])
  {
    if i > 0 {
      TestedCallsFit(w, events, states, i - 1);
      assert Follows(w, states[i - 1], events[i - 1], states[i]);
      var steps := EventRuns(TestedSteps, states[i - 1], w, events[i - 1]);
      TestedStepsFit(states[i - 1], steps, states[i]);
    }
  }

  /** So the ledger keeps its caps, for arbitrary amounts, when each call passes its test where it is
      made: inserts may fail, credits and counters may be lost. */
  lemma LedgerKeepsTheCaps(w: WorkerId, events: seq<Event>, states: seq<State>, i: nat, a: Account)
    requires Plays(w, events, states) && i <= |events| && a in states[i].peak
    requires forall j | 0 <= j < i :: EventObeys(TestedSteps, states[j], events[j])
    ensures states[i].flights == map[]
    ensures 0 <= CentsToUsd(Counter(states[i], a)) <= states[i].peak[a] - Usage(states[i].rows, a)
  {
    LedgerIsIdle(w, events, states, i);
    TestedCallsFit(w, events, states, i);
    assert WithinCap(states[i], a);
  }

  lemma {:induction false} WholeCallsAreSafe(w: WorkerId, events: seq<Event>, states: seq<State>, i: nat)
    requires Plays(w, events, states) && i <= |events|
    requires forall j | 0 <= j < i :: EventObeys(CarefulSteps, states[j], events[j])
    ensures Safe(states[i])
  {
    if i > 0 {
      WholeCallsAreSafe(w, events, states, i - 1);
      assert Follows(w, states[i - 1], events[i - 1], states[i]);
      var steps := EventRuns(CarefulSteps, states[i - 1], w, events[i - 1]);
      CarefulStepsAreSafe(states[i - 1], steps, states[i]);
    }
  }

  /** In whole cents the commands alone decide: the ledger keeps its caps whatever it is asked. */
  lemma WholeCentCallsKeepTheCaps(w: WorkerId, events: seq<Event>, states: seq<State>, i: nat, a: Account)
    requires Plays(w, events, states) && i <= |events| && a in states[i].anchor
    requires forall j | 0 <= j < i && events[j].Called? :: WholeCommand(events[j].command)
    ensures states[i].flights == map[] && a in states[i].peak
    ensures 0 <= CentsToUsd(Counter(states[i], a)) <= states[i].peak[a] - Usage(states[i].rows, a)
  {
    LedgerIsIdle(w, events, states, i);
    WholeCallsAreSafe(w, events, states, i);
    SafeStateFitsTheCap(states[i], a);
  }
}
