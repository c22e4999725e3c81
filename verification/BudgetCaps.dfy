/** What the caps promise in their own names: ticket_cap_usd bounds the run, daily_team_cap_usd and
    monthly_team_cap_usd bound the team, in both ledgers and over whole runs. */
module BudgetCaps {
  import opened Common
  import opened Money
  import opened Sums
  import opened BudgetProtocol
  import opened BudgetSafety
  import opened BudgetClaims
  import opened BudgetCalls
  import opened BudgetCallRuns
  import opened BudgetMemory
  import opened BudgetEquivalence

  // ------------------------------------------------ what the tables say of a run and of a team

  /** An active reservation counts with what it reserves, a settled one with what was charged. */
  function CostOf(r: Reservation): int {
    if r.status == Active then r.reserved else if r.status.Settled? then r.status.actual else 0
  }

  ghost function CostInRun(run: string): (ResId, Reservation) -> int {
    (id: ResId, r: Reservation) => if r.ctx.runId == run then CostOf(r) else 0
  }

  ghost function CostInTeam(tenant: string, team: string): (ResId, Reservation) -> int {
    (id: ResId, r: Reservation) => if r.ctx.tenantId == tenant && r.ctx.teamId == team then CostOf(r) else 0
  }

  ghost function UsageOfRun(rows: Rows, run: string): int {
    SumMap(CostInRun(run), rows)
  }

  ghost function UsageOfTeam(rows: Rows, tenant: string, team: string): int {
    SumMap(CostInTeam(tenant, team), rows)
  }

  lemma UsageByName(rows: Rows, run: string, tenant: string, team: string)
    ensures Usage(rows, Ticket(run)) == UsageOfRun(rows, run)
    ensures Usage(rows, Daily(tenant, team)) == UsageOfTeam(rows, tenant, team)
    ensures Usage(rows, Monthly(tenant, team)) == UsageOfTeam(rows, tenant, team)
  {
    SumMapEqual(UsageOn(Ticket(run)), CostInRun(run), rows);
    SumMapEqual(UsageOn(Daily(tenant, team)), CostInTeam(tenant, team), rows);
    SumMapEqual(UsageOn(Monthly(tenant, team)), CostInTeam(tenant, team), rows);
  }

  /** What the three caps of a context leave, each of its own account. */
  ghost function Headroom(rows: Rows, caps: Caps, ctx: Context): Quote {
    Quote(caps.ticket - UsageOfRun(rows, ctx.runId),
          caps.daily - UsageOfTeam(rows, ctx.tenantId, ctx.teamId),
          caps.monthly - UsageOfTeam(rows, ctx.tenantId, ctx.teamId))
  }

  predicate Fits(amount: int, room: Quote) {
    amount <= room.ticket && amount <= room.daily && amount <= room.monthly
  }

  function Less(room: Quote, amount: int): Quote {
    Quote(room.ticket - amount, room.daily - amount, room.monthly - amount)
  }

  lemma HeadroomByAccount(rows: Rows, caps: Caps, ctx: Context)
    ensures var room := Headroom(rows, caps, ctx);
      && room.ticket == CapFor(caps, AccountOf(ctx, 0)) - Usage(rows, AccountOf(ctx, 0))
      && room.daily == CapFor(caps, AccountOf(ctx, 1)) - Usage(rows, AccountOf(ctx, 1))
      && room.monthly == CapFor(caps, AccountOf(ctx, 2)) - Usage(rows, AccountOf(ctx, 2))
  {
    UsageByName(rows, ctx.runId, ctx.tenantId, ctx.teamId);
  }

  /** A reconcile sets each of the three keys to what its own cap leaves. */
  lemma ReconcileByName(s: State, ctx: Context)
    requires ctx.runId in s.caps
    ensures var room := Headroom(s.rows, s.caps[ctx.runId], ctx);
            var counters := AfterReconcile(s, ctx).counters;
      && Ticket(ctx.runId) in counters && counters[Ticket(ctx.runId)] == UsdToCents(Max(0, room.ticket))
      && Daily(ctx.tenantId, ctx.teamId) in counters
      && counters[Daily(ctx.tenantId, ctx.teamId)] == UsdToCents(Max(0, room.daily))
      && Monthly(ctx.tenantId, ctx.teamId) in counters
      && counters[Monthly(ctx.tenantId, ctx.teamId)] == UsdToCents(Max(0, room.monthly))
  {
    var t := AfterReconcile(s, ctx);
    TablesByName(s, ctx);
    assert Touches(ctx, Ticket(ctx.runId)) && Touches(ctx, Daily(ctx.tenantId, ctx.teamId));
    assert Touches(ctx, Monthly(ctx.tenantId, ctx.teamId));
    ReconcileTouched(s, ctx, Ticket(ctx.runId));
    ReconcileTouched(s, ctx, Daily(ctx.tenantId, ctx.teamId));
    ReconcileTouched(s, ctx, Monthly(ctx.tenantId, ctx.teamId));
  }

  /** What reconcile and balance report. */
  lemma TablesByName(s: State, ctx: Context)
    requires ctx.runId in s.caps
    ensures var room := Headroom(s.rows, s.caps[ctx.runId], ctx);
      && TableQuote(s, ctx) == Quote(Max(0, room.ticket), Max(0, room.daily), Max(0, room.monthly))
      && Remaining(s, ctx, Ticket(ctx.runId)) == Max(0, room.ticket)
      && Remaining(s, ctx, Daily(ctx.tenantId, ctx.teamId)) == Max(0, room.daily)
      && Remaining(s, ctx, Monthly(ctx.tenantId, ctx.teamId)) == Max(0, room.monthly)
  {
    HeadroomByAccount(s.rows, s.caps[ctx.runId], ctx);
  }

  // ------------------------------------------------ the in-memory ledger

  ghost function HeldByRun(run: string): (ResId, Hold) -> int {
    (id: ResId, h: Hold) => if h.ctx.runId == run then h.amount else 0
  }

  ghost function HeldByTeam(tenant: string, team: string): (ResId, Hold) -> int {
    (id: ResId, h: Hold) => if h.ctx.tenantId == tenant && h.ctx.teamId == team then h.amount else 0
  }

  /** What the caps of the run leave after its spend and holds and those of its team. */
  ghost function MemHeadroom(m: MemState, ctx: Context): Quote
    requires ctx.runId in m.capsByRun
  {
    var caps := m.capsByRun[ctx.runId];
    var held := SumMap(HeldByTeam(ctx.tenantId, ctx.teamId), m.active);
    Quote(caps.ticket - Get(m.spend, Ticket(ctx.runId)) - SumMap(HeldByRun(ctx.runId), m.active),
          caps.daily - Get(m.spend, Daily(ctx.tenantId, ctx.teamId)) - held,
          caps.monthly - Get(m.spend, Monthly(ctx.tenantId, ctx.teamId)) - held)
  }

  lemma MemLeftByName(m: MemState, ctx: Context)
    requires Configured(m, ctx)
    ensures MemHeadroom(m, ctx) == Quote(MemLeft(m, ctx, 0), MemLeft(m, ctx, 1), MemLeft(m, ctx, 2))
  {
    SumMapEqual(HoldOn(Ticket(ctx.runId)), HeldByRun(ctx.runId), m.active);
    SumMapEqual(HoldOn(Daily(ctx.tenantId, ctx.teamId)), HeldByTeam(ctx.tenantId, ctx.teamId), m.active);
    SumMapEqual(HoldOn(Monthly(ctx.tenantId, ctx.teamId)), HeldByTeam(ctx.tenantId, ctx.teamId), m.active);
  }

  /** In memory a reservation is granted exactly if it fits what every one of the three caps leaves,
      and answered with what they leave then. */
  lemma MemReserveByName(m: MemState, ctx: Context, id: ResId, amount: int)
    requires ctx.runId in m.capsByRun && (ctx.tenantId, ctx.teamId) in m.teamCaps
    ensures var (n, y) := MemReserve(m, ctx, id, amount);
            var room := MemHeadroom(m, ctx);
      && y == (if Fits(amount, room) then Ok(Less(room, amount)) else Err(BudgetExceeded))
      && n == (if y.Ok? then m.(active := m.active[id := Hold(ctx, amount)]) else m)
    ensures MemBalance(m, ctx) == (m, Ok(MemHeadroom(m, ctx)))
  {
    MemLeftByName(m, ctx);
  }

  /** What the in-memory ledger refuses, and why. */
  lemma MemRefusals(m: MemState, ctx: Context, id: ResId, amount: int)
    ensures MemReserve(m, ctx, id, amount).1 == Err(CapsNotConfigured)
       <==> !(ctx.runId in m.capsByRun && (ctx.tenantId, ctx.teamId) in m.teamCaps)
    ensures MemBalance(m, ctx).1 == Err(CapsNotConfigured)
       <==> !(ctx.runId in m.capsByRun && (ctx.tenantId, ctx.teamId) in m.teamCaps)
    ensures MemSettle(m, id, amount).1 == Err(UnknownReservation) <==> id !in m.active
    ensures MemSettle(m, id, amount).1 == Err(ActualAboveReserved) <==> id in m.active && amount > m.active[id].amount
    ensures MemRelease(m, id) == if id in m.active then (m.(active := m.active - {id}), Ok(NOTHING))
                                 else (m, Err(UnknownReservation))
  {
  }

  /** A settlement within its hold drops it and charges the run and the team of the hold, and no one
      else. */
  lemma MemSettleByName(m: MemState, id: ResId, actual: int, a: Account)
    requires id in m.active
    ensures var (n, y) := MemSettle(m, id, actual);
            var ctx := m.active[id].ctx;
      && n.active == m.active - {id}
      && (y.Ok? <==> actual <= m.active[id].amount)
      && Get(n.spend, a) == Get(m.spend, a) + (
           if y.Ok? && (match a
                        case Ticket(run) => run == ctx.runId
                        case Daily(tenant, team) => tenant == ctx.tenantId && team == ctx.teamId
                        case Monthly(tenant, team) => tenant == ctx.tenantId && team == ctx.teamId)
           then actual else 0)
  {
  }

  // ------------------------------------------------ the ledger over two stores, caps fixed

  lemma CoupledHeadroom(p: Policy, s: State, m: MemState, ctx: Context)
    requires Coupled(p, s, m) && AtHome(p, ctx) && ctx.runId in s.caps
    ensures Configured(m, ctx) && Headroom(s.rows, s.caps[ctx.runId], ctx) == MemHeadroom(m, ctx)
  {
    HomeHasKeys(p, s, m, ctx);
    MemLeftByName(m, ctx);
    HeadroomByAccount(s.rows, s.caps[ctx.runId], ctx);
    UsedIsUsage(s, m, AccountOf(ctx, 0));
    UsedIsUsage(s, m, AccountOf(ctx, 1));
    UsedIsUsage(s, m, AccountOf(ctx, 2));
  }

  /** With the caps of its accounts fixed, so does the ledger over two stores. */
  lemma ReserveByName(p: Policy, s: State, m: MemState, w: WorkerId, ctx: Context, id: ResId, amount: int)
    requires Coupled(p, s, m) && ctx.runId in s.caps && Admissible(p, s, Reserves(ctx, id, amount))
    ensures var room := Headroom(s.rows, s.caps[ctx.runId], ctx);
            var (t, x) := ReserveCall(s, w, ctx, id, amount, NO_FAULT);
      && (x.Ok? <==> Fits(amount, room))
      && (x.Ok? ==> x.value == Less(room, amount) && t.rows == s.rows[id := Reservation(ctx, amount, Active, 0)])
      && (x.Err? ==> x.error == BudgetExceeded && t == s)
  {
    CoupledHeadroom(p, s, m, ctx);
    MemReserveByName(m, ctx, id, amount);
    ReserveOutcomes(p, s, m, w, ctx, id, amount);
    ReservedRows(s, w, ctx, id, amount);
  }

  lemma ReservedRows(s: State, w: WorkerId, ctx: Context, id: ResId, amount: int)
    ensures Reserved(s, w, ctx, id, amount).rows == s.rows[id := Reservation(ctx, amount, Active, 0)]
  {
  }

  /** What the ledger over two stores refuses, and why. */
  lemma ReserveRefusals(s: State, w: WorkerId, ctx: Context, id: ResId, amount: int, fault: Fault)
    ensures var x := ReserveCall(s, w, ctx, id, amount, fault).1;
      && (x == Err(CapsNotConfigured) <==> ctx.runId !in s.caps)
      && (x == Err(InsertFailed) ==> fault.insertFails)
      && (x.Ok? ==> !fault.insertFails)
    ensures BalanceCall(s, ctx).1 == if ctx.runId in s.caps then Ok(TableQuote(s, ctx)) else Err(CapsNotConfigured)
  {
  }

  // ------------------------------------------------ bounds over whole runs

  type Team = (string, string)

  /** The most that is ever configured for a run and for a team, and the team of each run. */
  datatype Limits = Limits(ticket: string -> nat, daily: Team -> nat, monthly: Team -> nat, team: string -> Team)

  predicate CapsWithin(p: Limits, run: string, caps: Caps) {
    && caps.ticket <= p.ticket(run)
    && caps.daily <= p.daily(p.team(run))
    && caps.monthly <= p.monthly(p.team(run))
  }

  predicate KeepsTo(p: Limits, step: Step) {
    match step
    case Configure(ctx, caps) => CapsWithin(p, ctx.runId, caps)
    case Reconcile(ctx) => TeamOf(ctx) == p.team(ctx.runId)
    case _ => true
  }

  function LimitOf(p: Limits, a: Account): nat {
    match a
    case Ticket(run) => p.ticket(run)
    case Daily(tenant, team) => p.daily((tenant, team))
    case Monthly(tenant, team) => p.monthly((tenant, team))
  }

  ghost predicate Within(p: Limits, s: State) {
    && (forall run | run in s.caps :: CapsWithin(p, run, s.caps[run]))
    && (forall a | a in s.peak :: s.peak[a] <= LimitOf(p, a))
  }

  lemma ReconcileStaysWithin(p: Limits, s: State, ctx: Context)
    requires Within(p, s) && ctx.runId in s.caps && TeamOf(ctx) == p.team(ctx.runId)
    ensures Within(p, AfterReconcile(s, ctx))
  {
    forall a | a in AfterReconcile(s, ctx).peak ensures AfterReconcile(s, ctx).peak[a] <= LimitOf(p, a) {
      PeakStaysWithin(p, s, ctx, a);
    }
  }

  lemma PeakStaysWithin(p: Limits, s: State, ctx: Context, a: Account)
    requires Within(p, s) && ctx.runId in s.caps && TeamOf(ctx) == p.team(ctx.runId)
    ensures Get(AfterReconcile(s, ctx).peak, a) <= LimitOf(p, a)
  {
    if Touches(ctx, a) {
      ReconcileTouched(s, ctx, a);
      assert CapsWithin(p, ctx.runId, s.caps[ctx.runId]);
      assert CapFor(s.caps[ctx.runId], a) <= LimitOf(p, a);
    } else {
      ReconcileUntouched(s, ctx, a);
    }
  }

  lemma StepStaysWithin(p: Limits, s: State, step: Step)
    requires Within(p, s) && Enabled(s, step) && KeepsTo(p, step)
    ensures Within(p, Next(s, step))
  {
    if step.Reconcile? {
      ReconcileStaysWithin(p, s, step.ctx);
    } else {
      OnlyReconcileMovesAnchors(s, step);
      OnlyConfigureChangesCaps(s, step);
    }
  }

  lemma {:induction false} RunStaysWithin(p: Limits, steps: seq<Step>, states: seq<State>, i: nat)
    requires IsRun(steps, states) && i <= |steps| && forall j | 0 <= j < i :: KeepsTo(p, steps[j])
    ensures Within(p, states[i])
  {
    if i > 0 {
      RunStaysWithin(p, steps, states, i - 1);
      assert Leads(states[i - 1], steps[i - 1], states[i]);
      StepStaysWithin(p, states[i - 1], steps[i - 1]);
    }
  }

  lemma UsageIsWithin(p: Limits, s: State, a: Account)
    requires ClaimsFit(s) && Within(p, s)
    ensures Usage(s.rows, a) <= LimitOf(p, a)
  {
    UsageFits(s, a);
  }

  /** At every point of every run of tested calls, a run has used no more than its ticket cap, a team no
      more than its daily cap and no more than its monthly cap. */
  lemma CapsHoldByName(p: Limits, steps: seq<Step>, states: seq<State>, i: nat,
                       run: string, tenant: string, team: string)
    requires TestedRun(steps, states) && i <= |steps| && forall j | 0 <= j < |steps| :: KeepsTo(p, steps[j])
    ensures UsageOfRun(states[i].rows, run) <= p.ticket(run)
    ensures UsageOfTeam(states[i].rows, tenant, team) <= p.daily((tenant, team))
    ensures UsageOfTeam(states[i].rows, tenant, team) <= p.monthly((tenant, team))
  {
    TestedRunFits(steps, states, i);
    RunStaysWithin(p, steps, states, i);
    UsageByName(states[i].rows, run, tenant, team);
    UsageIsWithin(p, states[i], Ticket(run));
    UsageIsWithin(p, states[i], Daily(tenant, team));
    UsageIsWithin(p, states[i], Monthly(tenant, team));
  }

  lemma CarefulRunIsTested(steps: seq<Step>, states: seq<State>)
    requires CarefulRun(steps, states)
    ensures TestedRun(steps, states)
  {
    forall i | 0 <= i < |steps| ensures Tested(states[i], steps[i]) {
      CarefulRunsAreSafe(steps, states, i);
      assert Leads(states[i], steps[i], states[i + 1]);
      CarefulStepsAreTested(states[i], steps[i]);
    }
  }

  /** And so in whole cents, with reconciles that wait. */
  lemma WholeCentCapsHoldByName(p: Limits, steps: seq<Step>, states: seq<State>, i: nat,
                                run: string, tenant: string, team: string)
    requires CarefulRun(steps, states) && i <= |steps| && forall j | 0 <= j < |steps| :: KeepsTo(p, steps[j])
    ensures UsageOfRun(states[i].rows, run) <= p.ticket(run)
    ensures UsageOfTeam(states[i].rows, tenant, team) <= p.daily((tenant, team))
    ensures UsageOfTeam(states[i].rows, tenant, team) <= p.monthly((tenant, team))
  {
    CarefulRunIsTested(steps, states);
    CapsHoldByName(p, steps, states, i, run, tenant, team);
  }

  // ------------------------------------------------ what a grant promises

  lemma CounterIsWithin(p: Limits, s: State, a: Account, amount: int)
    requires ClaimsFit(s) && Within(p, s) && TakesEnough(amount)
    requires a in s.counters && UsdToCents(amount) <= s.counters[a]
    ensures amount <= LimitOf(p, a) - Usage(s.rows, a)
  {
    NothingOwed(s, a);
    assert WithinCap(s, a);
    assert amount <= CentsToUsd(s.counters[a]) by {
      CentsCover(amount, s.counters[a]);
    }
  }

  lemma CentsCover(amount: int, cents: int)
    requires UsdToCents(amount) <= cents && TakesEnough(amount)
    ensures amount <= CentsToUsd(cents)
  {
    assert Rounded(amount) <= CentsToUsd(cents);
  }

  /** What the limits of a context leave. */
  ghost function Room(p: Limits, rows: Rows, ctx: Context): Quote {
    Headroom(rows, Caps(p.ticket(ctx.runId), p.daily(TeamOf(ctx)), p.monthly(TeamOf(ctx))), ctx)
  }

  lemma GrantFits(p: Limits, s: State, ctx: Context, amount: int)
    requires ClaimsFit(s) && Within(p, s) && TakesEnough(amount)
    requires KeysPresent(s, ctx) && Affordable(s, ctx, UsdToCents(amount))
    ensures Fits(amount, Room(p, s.rows, ctx))
  {
    UsageByName(s.rows, ctx.runId, ctx.tenantId, ctx.teamId);
    assert Touches(ctx, AccountOf(ctx, 0)) && Touches(ctx, AccountOf(ctx, 1)) && Touches(ctx, AccountOf(ctx, 2));
    CounterIsWithin(p, s, AccountOf(ctx, 0), amount);
    CounterIsWithin(p, s, AccountOf(ctx, 1), amount);
    CounterIsWithin(p, s, AccountOf(ctx, 2), amount);
  }

  /** However calls interleave, the script only grants what fits under the ticket, the daily and the
      monthly cap, each less the usage of its own account. */
  lemma GrantsFitByName(p: Limits, steps: seq<Step>, states: seq<State>, i: nat, w: WorkerId, ctx: Context, amount: int)
    requires TestedRun(steps, states) && i <= |steps| && forall j | 0 <= j < |steps| :: KeepsTo(p, steps[j])
    requires Enabled(states[i], Decrement(w, ctx, amount)) && TakesEnough(amount)
    ensures Fits(amount, Room(p, states[i].rows, ctx))
  {
    TestedRunFits(steps, states, i);
    RunStaysWithin(p, steps, states, i);
    GrantFits(p, states[i], ctx, amount);
  }

  // ------------------------------------------------ the same of the ledger's calls

  predicate CallKeepsTo(p: Limits, e: Event) {
    e.Called? ==>
      match e.command
      case Configures(ctx, caps) => CapsWithin(p, ctx.runId, caps) && TeamOf(ctx) == p.team(ctx.runId)
      case Reserves(ctx, _, _) => TeamOf(ctx) == p.team(ctx.runId)
      case Balances(ctx) => TeamOf(ctx) == p.team(ctx.runId)
      case _ => true
  }

  lemma SameCapsStayWithin(p: Limits, s: State, t: State)
    requires Within(p, s) && t.caps == s.caps && t.peak == s.peak
    ensures Within(p, t)
  {
  }

  lemma EnsuredStaysWithin(p: Limits, s: State, ctx: Context)
    requires Within(p, s) && ctx.runId in s.caps && TeamOf(ctx) == p.team(ctx.runId)
    ensures Within(p, Ensured(s, ctx))
  {
    if !KeysPresent(s, ctx) {
      ReconcileStaysWithin(p, s, ctx);
    }
  }

  lemma CreditOnceKeepsPeak(s: State, w: WorkerId, ok: bool)
    ensures CreditOnce(s, w, ok).peak == s.peak && CreditOnce(s, w, ok).caps == s.caps
  {
  }

  lemma CreditKeepsPeak(s: State, w: WorkerId, credits: nat)
    ensures CreditUpTo(s, w, credits).peak == s.peak && CreditUpTo(s, w, credits).caps == s.caps
  {
    var t := CreditOnce(s, w, credits > 0);
    CreditOnceKeepsPeak(s, w, credits > 0);
    CreditOnceKeepsPeak(t, w, credits > 1);
    CreditOnceKeepsPeak(CreditOnce(t, w, credits > 1), w, credits > 2);
  }

  lemma ReserveStaysWithin(p: Limits, s: State, w: WorkerId, ctx: Context, id: ResId, amount: int, fault: Fault)
    requires Within(p, s) && TeamOf(ctx) == p.team(ctx.runId)
    ensures Within(p, ReserveCall(s, w, ctx, id, amount, fault).0)
  {
    if ctx.runId in s.caps {
      EnsuredStaysWithin(p, s, ctx);
      ReserveOutcome(s, w, ctx, id, amount, fault);
      var t := Ensured(s, ctx);
      if Affordable(t, ctx, UsdToCents(amount)) {
        CreditKeepsPeak(AfterInsertFails(AfterDecrement(t, w, ctx, amount), w), w, fault.credits);
        SameCapsStayWithin(p, t, Granted(t, w, ctx, id, amount, fault));
      }
    }
  }

  lemma CloseStaysWithin(p: Limits, s: State, w: WorkerId, c: Command, fault: Fault)
    requires Within(p, s) && s.flights == map[] && (c.Settles? || c.Releases?)
    ensures Within(p, Perform(s, w, c, fault).0)
  {
    if IsActive(s, c.id) {
      var r := if c.Settles? then SettledRow(s.rows[c.id], c.actual) else ReleasedRow(s.rows[c.id]);
      CreditKeepsPeak(AfterClose(s, w, c.id, r), w, fault.credits);
      SameCapsStayWithin(p, s, CreditUpTo(AfterClose(s, w, c.id, r), w, fault.credits));
    }
  }

  lemma CallStaysWithin(p: Limits, s: State, w: WorkerId, e: Event)
    requires Within(p, s) && s.flights == map[] && CallKeepsTo(p, e)
    ensures Within(p, Outcome(s, w, e))
  {
    if e.Called? {
      var c := e.command;
      if c.Configures? {
        ReconcileStaysWithin(p, AfterConfigure(s, c.ctx, c.caps), c.ctx);
      } else if c.Reserves? {
        ReserveStaysWithin(p, s, w, c.ctx, c.id, c.amount, e.fault);
      } else if c.Balances? {
        if c.ctx.runId in s.caps {
          EnsuredStaysWithin(p, s, c.ctx);
        }
      } else {
        CloseStaysWithin(p, s, w, c, e.fault);
      }
    }
  }

  lemma {:induction false} LedgerStaysWithin(p: Limits, w: WorkerId, events: seq<Event>, states: seq<State>, i: nat)
    requires Plays(w, events, states) && i <= |events| && forall j | 0 <= j < |events| :: CallKeepsTo(p, events[j])
    ensures Within(p, states[i])
  {
    if i > 0 {
      LedgerStaysWithin(p, w, events, states, i - 1);
      assert BudgetCallRuns.Follows(w, states[i - 1], events[i - 1], states[i]);
      CallStaysWithin(p, states[i - 1], w, events[i - 1]);
    }
  }

  /** The ledger only grants what fits under all three caps by name, and what it has granted stays
      under them, whatever fails. */
  lemma LedgerKeepsCapsByName(p: Limits, w: WorkerId, events: seq<Event>, states: seq<State>, i: nat,
                              run: string, tenant: string, team: string)
    requires Plays(w, events, states) && i <= |events| && forall j | 0 <= j < |events| :: CallKeepsTo(p, events[j])
    requires forall j | 0 <= j < |events| :: EventObeys(TestedSteps, states[j], events[j])
    ensures UsageOfRun(states[i].rows, run) <= p.ticket(run)
    ensures UsageOfTeam(states[i].rows, tenant, team) <= p.daily((tenant, team))
    ensures UsageOfTeam(states[i].rows, tenant, team) <= p.monthly((tenant, team))
    ensures i < |events| && events[i].Called? && events[i].command.Reserves?
            && BudgetCallRuns.Follows(w, states[i], events[i], states[i + 1])
            && Perform(states[i], w, events[i].command, events[i].fault).1.Ok? ==>
              Fits(events[i].command.amount, Room(p, states[i].rows, events[i].command.ctx))
  {
    TestedCallsFit(w, events, states, i);
    LedgerStaysWithin(p, w, events, states, i);
    UsageByName(states[i].rows, run, tenant, team);
    UsageIsWithin(p, states[i], Ticket(run));
    UsageIsWithin(p, states[i], Daily(tenant, team));
    UsageIsWithin(p, states[i], Monthly(tenant, team));
    LedgerIsIdle(w, events, states, i);
    if i < |events| && events[i].Called? && events[i].command.Reserves?
       && Perform(states[i], w, events[i].command, events[i].fault).1.Ok? {
      var c := events[i].command;
      GrantedCallFits(p, states[i], w, c.ctx, c.id, c.amount, events[i].fault);
    }
  }

  lemma GrantedCallFits(p: Limits, s: State, w: WorkerId, ctx: Context, id: ResId, amount: int, fault: Fault)
    requires ClaimsFit(s) && Within(p, s) && s.flights == map[] && TeamOf(ctx) == p.team(ctx.runId)
    requires TakesEnough(amount) && EnsureTested(s, ctx)
    requires ReserveCall(s, w, ctx, id, amount, fault).1.Ok?
    ensures Fits(amount, Room(p, s.rows, ctx))
  {
    EnsuredHasKeys(s, ctx);
    EnsuredSameTables(s, ctx);
    EnsuredStaysWithin(p, s, ctx);
    var steps := EnsureRuns(TestedSteps, s, ctx);
    TestedStepsFit(s, steps, Ensured(s, ctx));
    GrantFits(p, Ensured(s, ctx), ctx, amount);
  }

  // ------------------------------------------------ closing a reservation

  /** Which settlements and releases are refused, and what the others leave of the tables. */
  lemma CloseByName(s: State, w: WorkerId, id: ResId, actual: int, credits: nat)
    requires s.flights == map[]
    ensures var (t, x) := SettleCall(s, w, id, actual, credits);
      && (x == Err(UnknownReservation) <==> id !in s.rows)
      && (x == Err(NotActive) <==> id in s.rows && s.rows[id].status != Active)
      && (x == Err(ActualAboveReserved) <==> IsActive(s, id) && actual > s.rows[id].reserved)
      && (x.Ok? <==> IsActive(s, id) && actual <= s.rows[id].reserved)
      && (x.Err? ==> t == s)
      && (x.Ok? ==> t.rows == s.rows[id := Reservation(s.rows[id].ctx, s.rows[id].reserved, Settled(actual),
                                                        s.rows[id].reserved - actual)])
    ensures var (t, x) := ReleaseCall(s, w, id, credits);
      && (x == Err(UnknownReservation) <==> id !in s.rows)
      && (x == Err(NotActive) <==> id in s.rows && s.rows[id].status != Active)
      && (x.Ok? <==> IsActive(s, id))
      && (x.Err? ==> t == s)
      && (x.Ok? ==> t.rows == s.rows[id := Reservation(s.rows[id].ctx, s.rows[id].reserved, Released,
                                                        s.rows[id].reserved)])
  {
    if IsActive(s, id) {
      ClosedCall(s, w, id, SettledRow(s.rows[id], actual), credits);
      ClosedCall(s, w, id, ReleasedRow(s.rows[id]), credits);
    }
  }
}
