/** The two ledgers as the objects they are. Each method is proved to do to the tables and
    counters what the call of the same name does to the protocol state. */
module BudgetLedgers {
  import opened Common
  import opened Money
  import opened Sums
  import opened BudgetProtocol
  import opened BudgetCalls
  import opened BudgetMemory

  /** Reservations in Postgres, counters in Redis. */
  class PostgresBudgetLedger {
    var caps: map<string, Caps>
    var rows: Rows
    var counters: map<Account, int>
    ghost var model: State

    ghost predicate Valid()
      reads this
    {
      model.caps == caps && model.rows == rows && model.counters == counters && model.flights == map[]
    }

    constructor ()
      ensures Valid() && model == EMPTY
    {
      caps, rows, counters := map[], map[], map[];
      model := EMPTY;
    }

    /** The SQL sum of active reservations and charges of an account. */
    method UsageFromTables(a: Account) returns (total: int)
      ensures total == Usage(rows, a)
    {
      total := 0;
      var rest := rows;
      while rest != map[]
        invariant total == Usage(rows, a) - SumMap(UsageOn(a), rest)
        decreases |rest|
      {
        var id :| id in rest;
        SumMapSplit(UsageOn(a), rest, id);
        if Touches(rest[id].ctx, a) {
          total := total + Committed(rest[id]);
        }
        rest := rest - {id};
      }
    }

    method QuoteFromTables(ctx: Context) returns (quote: Quote)
      requires Valid() && ctx.runId in caps
      ensures quote == TableQuote(model, ctx)
    {
      var ticket := UsageFromTables(AccountOf(ctx, 0));
      var daily := UsageFromTables(AccountOf(ctx, 1));
      var monthly := UsageFromTables(AccountOf(ctx, 2));
      var limits := caps[ctx.runId];
      quote := Quote(Max(0, limits.ticket - ticket), Max(0, limits.daily - daily), Max(0, limits.monthly - monthly));
    }

    method Reconcile(ctx: Context) returns (quote: Quote)
      requires Valid() && ctx.runId in caps
      modifies this`counters, this`model
      ensures Valid() && model == AfterReconcile(old(model), ctx) && quote == TableQuote(old(model), ctx)
    {
      quote := QuoteFromTables(ctx);
      ReconciledCounters(model, ctx);
      model := AfterReconcile(model, ctx);
      counters := counters[AccountOf(ctx, 0) := UsdToCents(quote.ticket)]
                          [AccountOf(ctx, 1) := UsdToCents(quote.daily)]
                          [AccountOf(ctx, 2) := UsdToCents(quote.monthly)];
    }

    method ConfigureCaps(ctx: Context, newCaps: Caps)
      requires Valid()
      modifies this
      ensures Valid() && model == ConfigureCall(old(model), ctx, newCaps)
    {
      caps := caps[ctx.runId := newCaps];
      model := AfterConfigure(model, ctx, newCaps);
      var _ := Reconcile(ctx);
    }

    method EnsureCounters(ctx: Context)
      requires Valid() && ctx.runId in caps
      modifies this`counters, this`model
      ensures Valid() && model == Ensured(old(model), ctx)
    {
      HasKeysIsKeysPresent(model, ctx);
      if !HasKeys(counters, ctx) {
        var _ := Reconcile(ctx);
      }
    }

    /** The reservation script: 1 and the new counters, 0 and the old ones, or -1 when a counter
        is missing. */
    method RunReservationScript(ctx: Context, cents: int) returns (code: int, ticket: int, daily: int, monthly: int)
      modifies this`counters
      ensures code == -1 || code == 0 || code == 1
      ensures code == -1 <==> !HasKeys(old(counters), ctx)
      ensures code == 1 <==> HasKeys(old(counters), ctx) && Covers(old(counters), ctx, cents)
      ensures counters == if code == 1 then Decremented(old(counters), ctx, cents) else old(counters)
      ensures code != -1 ==> ticket == Get(counters, AccountOf(ctx, 0))
      ensures code != -1 ==> daily == Get(counters, AccountOf(ctx, 1))
      ensures code != -1 ==> monthly == Get(counters, AccountOf(ctx, 2))
    {
      if !HasKeys(counters, ctx) {
        return -1, -1, -1, -1;
      }
      ticket, daily, monthly := counters[AccountOf(ctx, 0)], counters[AccountOf(ctx, 1)], counters[AccountOf(ctx, 2)];
      if ticket < cents || daily < cents || monthly < cents {
        code := 0;
        return;
      }
      DecrementedCounters(counters, ctx, cents);
      ticket, daily, monthly := ticket - cents, daily - cents, monthly - cents;
      counters := counters[AccountOf(ctx, 0) := ticket][AccountOf(ctx, 1) := daily][AccountOf(ctx, 2) := monthly];
      code := 1;
    }

    /** Increments the counters until Redis fails; the failure is logged and forgotten. */
    method CreditCounters(ctx: Context, cents: int, credits: nat)
      modifies this`counters
      ensures counters == Credited(old(counters), ctx, cents, credits)
    {
      if cents <= 0 || credits == 0 {
        return;
      }
      counters := Incremented(counters, AccountOf(ctx, 0), cents);
      if credits == 1 {
        return;
      }
      counters := Incremented(counters, AccountOf(ctx, 1), cents);
      if credits == 2 {
        return;
      }
      counters := Incremented(counters, AccountOf(ctx, 2), cents);
    }

    /** Runs the script and, when a counter has gone, reconciles and runs it once more. */
    method ReserveCents(ctx: Context, cents: int) returns (granted: bool, quote: Quote)
      requires Valid() && ctx.runId in caps
      modifies this`counters, this`model
      ensures model == Ensured(old(model), ctx)
      ensures KeysPresent(model, ctx) && (granted <==> Affordable(model, ctx, cents))
      ensures counters == if granted then Decremented(model.counters, ctx, cents) else model.counters
      ensures quote == CounterQuote(counters, ctx)
    {
      ghost var ensured := Ensured(model, ctx);
      EnsuredHasKeys(model, ctx);
      HasKeysIsKeysPresent(model, ctx);
      HasKeysIsKeysPresent(ensured, ctx);
      CoversIsAffordable(ensured, ctx, cents);
      var code, ticket, daily, monthly := RunReservationScript(ctx, cents);
      if code == -1 {
        var _ := Reconcile(ctx);
        code, ticket, daily, monthly := RunReservationScript(ctx, cents);
      }
      granted := code == 1;
      quote := Quote(CentsToUsd(ticket), CentsToUsd(daily), CentsToUsd(monthly));
    }

    /** Takes the amount off the counters and then inserts the row; the worker w stands for the
        calling thread, and the fault says what fails on the way. */
    method Reserve(ctx: Context, id: ResId, amount: int, ghost w: WorkerId, fault: Fault) returns (answer: Answer)
      requires Valid()
      modifies this
      ensures Valid()
      ensures (model, answer) == ReserveCall(old(model), w, ctx, id, amount, fault)
    {
      if ctx.runId !in caps {
        return Err(CapsNotConfigured);
      }
      EnsuredHasKeys(model, ctx);
      EnsuredSameTables(model, ctx);
      EnsureCounters(ctx);
      var granted, quote := ReserveCents(ctx, UsdToCents(amount));
      if !granted {
        return Err(BudgetExceeded);
      }
      model := AfterDecrement(model, w, ctx, amount);
      answer := InsertReservation(ctx, id, amount, w, fault, quote);
    }

    /** The insert, or, when it fails, the credit that undoes the decrement. */
    method InsertReservation(ctx: Context, id: ResId, amount: int, ghost w: WorkerId, fault: Fault, quote: Quote)
      returns (answer: Answer)
      requires model.caps == caps && model.rows == rows && model.counters == counters
      requires model.flights == map[w := Inserting(ctx, amount)]
      modifies this
      ensures Valid()
      ensures fault.insertFails ==> model == CreditUpTo(AfterInsertFails(old(model), w), w, fault.credits)
      ensures !fault.insertFails ==> model == AfterInsert(old(model), w, id)
      ensures answer == if fault.insertFails then Err(InsertFailed) else Ok(quote)
    {
      if fault.insertFails {
        FailedInsertCall(model, w, ctx, amount, fault.credits);
        CreditCounters(ctx, UsdToCents(amount), fault.credits);
        model := CreditUpTo(AfterInsertFails(model, w), w, fault.credits);
        answer := Err(InsertFailed);
      } else {
        rows := rows[id := Reservation(ctx, amount, Active, 0)];
        model := AfterInsert(model, w, id);
        answer := Ok(quote);
      }
    }

    /** Closes the row in one transaction and then credits what it releases. */
    method Close(id: ResId, r: Reservation, ghost w: WorkerId, credits: nat)
      requires Valid() && id in rows
      modifies this
      ensures Valid() && model == CreditUpTo(AfterClose(old(model), w, id, r), w, credits)
    {
      ClosedCall(model, w, id, r, credits);
      rows := rows[id := r];
      CreditCounters(r.ctx, UsdToCents(r.released), credits);
      model := CreditUpTo(AfterClose(model, w, id, r), w, credits);
    }

    method Settle(id: ResId, actual: int, ghost w: WorkerId, credits: nat) returns (answer: Answer)
      requires Valid()
      modifies this
      ensures Valid() && (model, answer) == SettleCall(old(model), w, id, actual, credits)
    {
      if id !in rows {
        return Err(UnknownReservation);
      }
      if rows[id].status != Active {
        return Err(NotActive);
      }
      if actual > rows[id].reserved {
        return Err(ActualAboveReserved);
      }
      Close(id, SettledRow(rows[id], actual), w, credits);
      answer := Ok(NOTHING);
    }

    method ReleaseOrphaned(id: ResId, ghost w: WorkerId, credits: nat) returns (answer: Answer)
      requires Valid()
      modifies this
      ensures Valid() && (model, answer) == ReleaseCall(old(model), w, id, credits)
    {
      if id !in rows {
        return Err(UnknownReservation);
      }
      if rows[id].status != Active {
        return Err(NotActive);
      }
      Close(id, ReleasedRow(rows[id]), w, credits);
      answer := Ok(NOTHING);
    }

    method Balance(ctx: Context) returns (answer: Answer)
      requires Valid()
      modifies this
      ensures Valid() && (model, answer) == BalanceCall(old(model), ctx)
    {
      if ctx.runId !in caps {
        return Err(CapsNotConfigured);
      }
      EnsuredSameTables(model, ctx);
      SameTablesSameQuote(model, Ensured(model, ctx), ctx);
      EnsureCounters(ctx);
      var quote := QuoteFromTables(ctx);
      answer := Ok(quote);
    }
  }

  /** Any call of the ledger is that call of the protocol. */
  method Serve(ledger: PostgresBudgetLedger, c: Command, ghost w: WorkerId, fault: Fault) returns (answer: Answer)
    requires ledger.Valid()
    modifies ledger
    ensures ledger.Valid() && (ledger.model, answer) == Perform(old(ledger.model), w, c, fault)
  {
    match c {
      case Configures(ctx, caps) =>
        ledger.ConfigureCaps(ctx, caps);
        answer := Ok(NOTHING);
      case Reserves(ctx, id, amount) => answer := ledger.Reserve(ctx, id, amount, w, fault);
      case Settles(id, actual) => answer := ledger.Settle(id, actual, w, fault.credits);
      case Releases(id) => answer := ledger.ReleaseOrphaned(id, w, fault.credits);
      case Balances(ctx) => answer := ledger.Balance(ctx);
    }
  }

  /** The ledger the tests use: every decision is made by summing the active reservations again. */
  class InMemoryBudgetLedger {
    var capsByRun: map<string, Caps>
    var teamCaps: map<(string, string), Caps>
    var spend: map<Account, int>
    var active: map<ResId, Hold>

    ghost function State(): MemState
      reads this
    {
      MemState(capsByRun, teamCaps, spend, active)
    }

    constructor ()
      ensures State() == NO_LEDGER
    {
      capsByRun, teamCaps, spend, active := map[], map[], map[], map[];
    }

    method ConfigureCaps(ctx: Context, newCaps: Caps)
      modifies this
      ensures State() == MemConfigure(old(State()), ctx, newCaps)
    {
      capsByRun := capsByRun[ctx.runId := newCaps];
      teamCaps := teamCaps[TeamOf(ctx) := newCaps];
    }

    method ReservedAmount(a: Account) returns (total: int)
      ensures total == SumMap(HoldOn(a), active)
    {
      total := 0;
      var rest := active;
      while rest != map[]
        invariant total == SumMap(HoldOn(a), active) - SumMap(HoldOn(a), rest)
        decreases |rest|
      {
        var id :| id in rest;
        SumMapSplit(HoldOn(a), rest, id);
        if Touches(rest[id].ctx, a) {
          total := total + rest[id].amount;
        }
        rest := rest - {id};
      }
    }

    method Left(ctx: Context, n: nat) returns (left: int)
      requires Configured(State(), ctx) && n < 3
      ensures left == MemLeft(State(), ctx, n)
    {
      var reserved := ReservedAmount(AccountOf(ctx, n));
      left := CapFor(capsByRun[ctx.runId], AccountOf(ctx, n)) - (Get(spend, AccountOf(ctx, n)) + reserved);
    }

    method Reserve(ctx: Context, id: ResId, amount: int) returns (answer: Answer)
      modifies this
      ensures (State(), answer) == MemReserve(old(State()), ctx, id, amount)
    {
      if ctx.runId !in capsByRun || TeamOf(ctx) !in teamCaps {
        return Err(CapsNotConfigured);
      }
      var ticket := Left(ctx, 0);
      var daily := Left(ctx, 1);
      var monthly := Left(ctx, 2);
      if ticket < amount || daily < amount || monthly < amount {
        return Err(BudgetExceeded);
      }
      active := active[id := Hold(ctx, amount)];
      answer := Ok(Quote(ticket - amount, daily - amount, monthly - amount));
    }

    method Settle(id: ResId, actual: int) returns (answer: Answer)
      modifies this
      ensures (State(), answer) == MemSettle(old(State()), id, actual)
    {
      if id !in active {
        return Err(UnknownReservation);
      }
      var hold := active[id];
      active := active - {id};
      if actual > hold.amount {
        return Err(ActualAboveReserved);
      }
      SpentOn(spend, hold.ctx, actual);
      spend := Incremented(spend, AccountOf(hold.ctx, 0), actual);
      spend := Incremented(spend, AccountOf(hold.ctx, 1), actual);
      spend := Incremented(spend, AccountOf(hold.ctx, 2), actual);
      answer := Ok(NOTHING);
    }

    method ReleaseOrphaned(id: ResId) returns (answer: Answer)
      modifies this
      ensures (State(), answer) == MemRelease(old(State()), id)
    {
      if id !in active {
        return Err(UnknownReservation);
      }
      active := active - {id};
      answer := Ok(NOTHING);
    }

    method Balance(ctx: Context) returns (answer: Answer)
      ensures (State(), answer) == MemBalance(State(), ctx)
    {
      if ctx.runId !in capsByRun || TeamOf(ctx) !in teamCaps {
        return Err(CapsNotConfigured);
      }
      var ticket := Left(ctx, 0);
      var daily := Left(ctx, 1);
      var monthly := Left(ctx, 2);
      answer := Ok(Quote(ticket, daily, monthly));
    }
  }
}
