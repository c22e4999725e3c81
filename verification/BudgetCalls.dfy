/** Whole calls of the Postgres and Redis ledger, each a fixed sequence of protocol steps, with
    the faults a call survives as a parameter. */
module BudgetCalls {
  import opened Common
  import opened Money
  import opened BudgetProtocol

  datatype LedgerError =
    | CapsNotConfigured | BudgetExceeded | InsertFailed | UnknownReservation | NotActive | ActualAboveReserved

  /** The amounts left on the three counters, in dollars. */
  datatype Quote = Quote(ticket: int, daily: int, monthly: int)

  type Answer = Result<Quote, LedgerError>

  const NOTHING := Quote(0, 0, 0)

  /** Whether the row's insert fails, and how many of the three increments of a credit succeed
      before Redis fails. */
  datatype Fault = Fault(insertFails: bool, credits: nat)

  const NO_FAULT := Fault(false, 3)

  /** One increment of a credit: once one has failed, the rest is not attempted. */
  function CreditOnce(s: State, w: WorkerId, ok: bool): State {
    if !IsCrediting(s, w) then s
    else if ok then AfterCredit(s, w)
    else AfterLoseCredit(s, w)
  }

  function CreditUpTo(s: State, w: WorkerId, credits: nat): State {
    CreditOnce(CreditOnce(CreditOnce(s, w, credits > 0), w, credits > 1), w, credits > 2)
  }

  ghost function Ensured(s: State, ctx: Context): State
    requires ctx.runId in s.caps
  {
    if KeysPresent(s, ctx) then s else AfterReconcile(s, ctx)
  }

  function CounterQuote(counters: map<Account, int>, ctx: Context): Quote {
    Quote(CentsToUsd(Get(counters, AccountOf(ctx, 0))), CentsToUsd(Get(counters, AccountOf(ctx, 1))),
          CentsToUsd(Get(counters, AccountOf(ctx, 2))))
  }

  lemma EnsuredHasKeys(s: State, ctx: Context)
    requires ctx.runId in s.caps
    ensures KeysPresent(Ensured(s, ctx), ctx)
  {
    if !KeysPresent(s, ctx) {
      forall a | Touches(ctx, a) ensures a in AfterReconcile(s, ctx).counters {
        ReconcileTouched(s, ctx, a);
      }
    }
  }

  /** Making sure of the counters leaves the tables alone. */
  lemma EnsuredSameTables(s: State, ctx: Context)
    requires ctx.runId in s.caps
    ensures Ensured(s, ctx).caps == s.caps && Ensured(s, ctx).rows == s.rows && Ensured(s, ctx).flights == s.flights
  {
  }

  /** What reconcile and balance report. */
  ghost function TableQuote(s: State, ctx: Context): Quote {
    Quote(Remaining(s, ctx, AccountOf(ctx, 0)), Remaining(s, ctx, AccountOf(ctx, 1)),
          Remaining(s, ctx, AccountOf(ctx, 2)))
  }

  lemma SameTablesSameQuote(s: State, t: State, ctx: Context)
    requires s.caps == t.caps && s.rows == t.rows
    ensures TableQuote(s, ctx) == TableQuote(t, ctx)
  {
  }

  predicate HasKeys(counters: map<Account, int>, ctx: Context) {
    AccountOf(ctx, 0) in counters && AccountOf(ctx, 1) in counters && AccountOf(ctx, 2) in counters
  }

  lemma HasKeysIsKeysPresent(s: State, ctx: Context)
    ensures HasKeys(s.counters, ctx) <==> KeysPresent(s, ctx)
  {
    assert Touches(ctx, AccountOf(ctx, 0)) && Touches(ctx, AccountOf(ctx, 1)) && Touches(ctx, AccountOf(ctx, 2));
  }

  /** What the script compares. */
  predicate Covers(counters: map<Account, int>, ctx: Context, cents: int) {
    && Get(counters, AccountOf(ctx, 0)) >= cents
    && Get(counters, AccountOf(ctx, 1)) >= cents
    && Get(counters, AccountOf(ctx, 2)) >= cents
  }

  lemma CoversIsAffordable(s: State, ctx: Context, cents: int)
    requires KeysPresent(s, ctx)
    ensures Covers(s.counters, ctx, cents) <==> Affordable(s, ctx, cents)
  {
    assert Touches(ctx, AccountOf(ctx, 0)) && Touches(ctx, AccountOf(ctx, 1)) && Touches(ctx, AccountOf(ctx, 2));
  }

  ghost function ConfigureCall(s: State, ctx: Context, caps: Caps): State {
    AfterReconcile(AfterConfigure(s, ctx, caps), ctx)
  }

  ghost function ReserveCall(s: State, w: WorkerId, ctx: Context, id: ResId, amount: int, fault: Fault)
    : (State, Answer)
  {
    if ctx.runId !in s.caps then (s, Err(CapsNotConfigured))
    else
      var s1 := Ensured(s, ctx);
      EnsuredHasKeys(s, ctx);
      if !Affordable(s1, ctx, UsdToCents(amount)) then (s1, Err(BudgetExceeded))
      else
        var s2 := AfterDecrement(s1, w, ctx, amount);
        if fault.insertFails then (CreditUpTo(AfterInsertFails(s2, w), w, fault.credits), Err(InsertFailed))
        else (AfterInsert(s2, w, id), Ok(CounterQuote(s2.counters, ctx)))
  }

  ghost function SettleCall(s: State, w: WorkerId, id: ResId, actual: int, credits: nat): (State, Answer)
    requires w !in s.flights
  {
    if id !in s.rows then (s, Err(UnknownReservation))
    else if s.rows[id].status != Active then (s, Err(NotActive))
    else if actual > s.rows[id].reserved then (s, Err(ActualAboveReserved))
    else (CreditUpTo(AfterClose(s, w, id, SettledRow(s.rows[id], actual)), w, credits), Ok(NOTHING))
  }

  ghost function ReleaseCall(s: State, w: WorkerId, id: ResId, credits: nat): (State, Answer)
    requires w !in s.flights
  {
    if id !in s.rows then (s, Err(UnknownReservation))
    else if s.rows[id].status != Active then (s, Err(NotActive))
    else (CreditUpTo(AfterClose(s, w, id, ReleasedRow(s.rows[id])), w, credits), Ok(NOTHING))
  }

  /** balance reports what the tables leave, whatever the counters say. */
  ghost function BalanceCall(s: State, ctx: Context): (State, Answer) {
    if ctx.runId !in s.caps then (s, Err(CapsNotConfigured))
    else
      (Ensured(s, ctx), Ok(TableQuote(s, ctx)))
  }

  datatype Command =
    | Configures(ctx: Context, caps: Caps)
    | Reserves(ctx: Context, id: ResId, amount: int)
    | Settles(id: ResId, actual: int)
    | Releases(id: ResId)
    | Balances(ctx: Context)

  /** The state after a call of an idle worker, and what it answers. */
  ghost function Perform(s: State, w: WorkerId, c: Command, fault: Fault): (State, Answer)
    requires w !in s.flights
  {
    match c
    case Configures(ctx, caps) => (ConfigureCall(s, ctx, caps), Ok(NOTHING))
    case Reserves(ctx, id, amount) => ReserveCall(s, w, ctx, id, amount, fault)
    case Settles(id, actual) => SettleCall(s, w, id, actual, fault.credits)
    case Releases(id) => ReleaseCall(s, w, id, fault.credits)
    case Balances(ctx) => BalanceCall(s, ctx)
  }

  // ------------------------------------------------ calls keep the law

  lemma CreditOnceKeepsInv(s: State, w: WorkerId, ok: bool)
    requires Inv(s)
    ensures Inv(CreditOnce(s, w, ok))
  {
    if IsCrediting(s, w) {
      if ok {
        CreditKeeps(s, w);
      } else {
        LoseCreditKeeps(s, w);
      }
    }
  }

  lemma CreditUpToKeepsInv(s: State, w: WorkerId, credits: nat)
    requires Inv(s)
    ensures Inv(CreditUpTo(s, w, credits))
  {
    var t := CreditOnce(s, w, credits > 0);
    var u := CreditOnce(t, w, credits > 1);
    CreditOnceKeepsInv(s, w, credits > 0);
    CreditOnceKeepsInv(t, w, credits > 1);
    CreditOnceKeepsInv(u, w, credits > 2);
  }

  lemma CreditOnceMovesOn(s: State, w: WorkerId, ok: bool, n: nat)
    requires w in s.flights ==> IsCrediting(s, w) && s.flights[w].credited == n
    ensures var t := CreditOnce(s, w, ok);
            && t.rows == s.rows && t.caps == s.caps && t.flights - {w} == s.flights - {w}
            && (w in t.flights ==> n < 2 && IsCrediting(t, w) && t.flights[w].credited == n + 1)
  {
  }

  lemma CreditUpToEndsTheCall(s: State, w: WorkerId, credits: nat)
    requires w in s.flights ==> IsCrediting(s, w) && s.flights[w].credited == 0
    ensures CreditUpTo(s, w, credits).flights == s.flights - {w}
    ensures CreditUpTo(s, w, credits).rows == s.rows
    ensures CreditUpTo(s, w, credits).caps == s.caps
  {
    var t := CreditOnce(s, w, credits > 0);
    var u := CreditOnce(t, w, credits > 1);
    var v := CreditOnce(u, w, credits > 2);
    CreditOnceMovesOn(s, w, credits > 0, 0);
    CreditOnceMovesOn(t, w, credits > 1, 1);
    CreditOnceMovesOn(u, w, credits > 2, 2);
    assert v.flights == v.flights - {w};
  }

  lemma CreditAddsOnce(s: State, w: WorkerId)
    requires IsCrediting(s, w)
    ensures var f := s.flights[w];
            var t := AfterCredit(s, w);
            && (forall a :: a in t.counters <==> a in s.counters || a == AccountOf(f.ctx, f.credited))
            && forall a :: Counter(t, a) == Counter(s, a) + if a == AccountOf(f.ctx, f.credited) then f.cents else 0
  {
  }

  /** With the counters up, a credit reaches the three counters of its context and no other. */
  lemma FullCredit(s: State, w: WorkerId, ctx: Context, cents: int)
    requires s.flights == map[]
    ensures var t := CreditUpTo(StartCredit(s, w, ctx, cents), w, 3);
            && t.flights == map[] && t.rows == s.rows && t.caps == s.caps
            && (forall a :: a in t.counters <==> a in s.counters || (Touches(ctx, a) && cents > 0))
            && forall a :: Counter(t, a) == Counter(s, a) + if Touches(ctx, a) && cents > 0 then cents else 0
  {
    var s0 := StartCredit(s, w, ctx, cents);
    if cents > 0 {
      var s1 := AfterCredit(s0, w);
      var s2 := AfterCredit(s1, w);
      CreditAddsOnce(s0, w);
      CreditAddsOnce(s1, w);
      CreditAddsOnce(s2, w);
      assert CreditUpTo(s0, w, 3) == AfterCredit(s2, w);
    }
  }

  // ------------------------------------------------ the counters, one assignment at a time

  lemma PutIsThreeUpdates(m: map<Account, int>, ctx: Context, f: Account -> int)
    ensures Put(m, ctx, 0, f) ==
      m[AccountOf(ctx, 0) := f(AccountOf(ctx, 0))]
       [AccountOf(ctx, 1) := f(AccountOf(ctx, 1))]
       [AccountOf(ctx, 2) := f(AccountOf(ctx, 2))]
  {
  }

  /** A reconcile sets the three counters to what the tables leave. */
  lemma ReconciledCounters(s: State, ctx: Context)
    requires ctx.runId in s.caps
    ensures AfterReconcile(s, ctx).counters ==
      s.counters[AccountOf(ctx, 0) := UsdToCents(TableQuote(s, ctx).ticket)]
                [AccountOf(ctx, 1) := UsdToCents(TableQuote(s, ctx).daily)]
                [AccountOf(ctx, 2) := UsdToCents(TableQuote(s, ctx).monthly)]
  {
    PutIsThreeUpdates(s.counters, ctx, CentsLeft(s, ctx));
  }

  lemma DecrementedCounters(counters: map<Account, int>, ctx: Context, cents: int)
    ensures Decremented(counters, ctx, cents) ==
      counters[AccountOf(ctx, 0) := Get(counters, AccountOf(ctx, 0)) - cents]
              [AccountOf(ctx, 1) := Get(counters, AccountOf(ctx, 1)) - cents]
              [AccountOf(ctx, 2) := Get(counters, AccountOf(ctx, 2)) - cents]
  {
  }

  function Incremented(counters: map<Account, int>, a: Account, cents: int): map<Account, int> {
    counters[a := Get(counters, a) + cents]
  }

  /** The increments that reach Redis before it fails. */
  function Credited(counters: map<Account, int>, ctx: Context, cents: int, credits: nat): map<Account, int> {
    if cents <= 0 || credits == 0 then counters
    else
      var one := Incremented(counters, AccountOf(ctx, 0), cents);
      if credits == 1 then one
      else
        var two := Incremented(one, AccountOf(ctx, 1), cents);
        if credits == 2 then two else Incremented(two, AccountOf(ctx, 2), cents)
  }

  lemma CreditOnceCounters(s: State, w: WorkerId, ok: bool)
    ensures CreditOnce(s, w, ok).counters ==
      if ok && IsCrediting(s, w)
      then Incremented(s.counters, AccountOf(s.flights[w].ctx, s.flights[w].credited), s.flights[w].cents)
      else s.counters
    ensures ok && IsCrediting(s, w) && s.flights[w].credited < 2 ==>
      CreditOnce(s, w, ok).flights == s.flights[w := s.flights[w].(credited := s.flights[w].credited + 1)]
    ensures !ok && IsCrediting(s, w) ==> w !in CreditOnce(s, w, ok).flights
  {
  }

  lemma CreditUpToCounters(s: State, w: WorkerId, ctx: Context, cents: int, credits: nat)
    requires s.flights == WithCredit(map[], w, ctx, cents)
    ensures CreditUpTo(s, w, credits).counters == Credited(s.counters, ctx, cents, credits)
  {
    var t := CreditOnce(s, w, credits > 0);
    var u := CreditOnce(t, w, credits > 1);
    CreditOnceCounters(s, w, credits > 0);
    CreditOnceCounters(t, w, credits > 1);
    CreditOnceCounters(u, w, credits > 2);
  }

  /** A credit of one call from quiet flights leaves nothing in flight and the counters credited. */
  lemma CreditedCall(s: State, w: WorkerId, ctx: Context, cents: int, credits: nat)
    requires s.flights == WithCredit(map[], w, ctx, cents)
    ensures var t := CreditUpTo(s, w, credits);
            t.caps == s.caps && t.rows == s.rows && t.flights == map[]
            && t.counters == Credited(s.counters, ctx, cents, credits)
  {
    CreditUpToCounters(s, w, ctx, cents, credits);
    CreditUpToEndsTheCall(s, w, credits);
    assert s.flights - {w} == map[];
  }

  lemma FailedInsertCall(s: State, w: WorkerId, ctx: Context, amount: int, credits: nat)
    requires s.flights == map[w := Inserting(ctx, amount)]
    ensures var t := CreditUpTo(AfterInsertFails(s, w), w, credits);
            t.caps == s.caps && t.rows == s.rows && t.flights == map[]
            && t.counters == Credited(s.counters, ctx, UsdToCents(amount), credits)
  {
    assert AfterInsertFails(s, w).flights == WithCredit(map[], w, ctx, UsdToCents(amount));
    CreditedCall(AfterInsertFails(s, w), w, ctx, UsdToCents(amount), credits);
  }

  lemma ClosedCall(s: State, w: WorkerId, id: ResId, r: Reservation, credits: nat)
    requires s.flights == map[]
    ensures var t := CreditUpTo(AfterClose(s, w, id, r), w, credits);
            t.caps == s.caps && t.rows == s.rows[id := r] && t.flights == map[]
            && t.counters == Credited(s.counters, r.ctx, UsdToCents(r.released), credits)
  {
    assert AfterClose(s, w, id, r).flights == WithCredit(map[], w, r.ctx, UsdToCents(r.released));
    CreditedCall(AfterClose(s, w, id, r), w, r.ctx, UsdToCents(r.released), credits);
  }
}
