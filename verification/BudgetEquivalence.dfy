/** Called one at a time and without faults, on whole-cent amounts, the ledger over two stores
    and the in-memory ledger give the same answers. */
module BudgetEquivalence {
  import opened Common
  import opened Money
  import opened Sums
  import opened BudgetProtocol
  import opened BudgetSafety
  import opened BudgetLifecycle
  import opened BudgetCalls
  import opened BudgetMemory

  /** The cap of every account and the team of every run, fixed in advance. */
  datatype Policy = Policy(cap: Account -> int, team: string -> (string, string))

  predicate AtHome(p: Policy, ctx: Context) {
    TeamOf(ctx) == p.team(ctx.runId)
  }

  predicate Follows(p: Policy, ctx: Context, caps: Caps) {
    && CapFor(caps, AccountOf(ctx, 0)) == p.cap(AccountOf(ctx, 0)) >= 0
    && CapFor(caps, AccountOf(ctx, 1)) == p.cap(AccountOf(ctx, 1)) >= 0
    && CapFor(caps, AccountOf(ctx, 2)) == p.cap(AccountOf(ctx, 2)) >= 0
  }

  ghost function FastCall(s: State, w: WorkerId, c: Command): (State, Answer)
    requires s.flights == map[]
  {
    Perform(s, w, c, NO_FAULT)
  }

  ghost function MemCall(m: MemState, c: Command): (MemState, Answer) {
    match c
    case Configures(ctx, caps) => (MemConfigure(m, ctx, caps), Ok(NOTHING))
    case Reserves(ctx, id, amount) => MemReserve(m, ctx, id, amount)
    case Settles(id, actual) => MemSettle(m, id, actual)
    case Releases(id) => MemRelease(m, id)
    case Balances(ctx) => MemBalance(m, ctx)
  }

  /** What a caller must respect: a run has one team and its caps follow the policy, amounts are
      whole cents, reservations are not negative and have fresh ids, and no settlement asks for
      more than was reserved. */
  ghost predicate Admissible(p: Policy, s: State, c: Command) {
    match c
    case Configures(ctx, caps) => AtHome(p, ctx) && Follows(p, ctx, caps) && WholeCaps(caps)
    case Reserves(ctx, id, amount) => AtHome(p, ctx) && id !in s.rows && amount >= 0 && WholeCents(amount)
    case Settles(id, actual) => WholeCents(actual) && (IsActive(s, id) ==> actual <= s.rows[id].reserved)
    case Releases(_) => true
    case Balances(ctx) => AtHome(p, ctx)
  }

  /** Same value, same denial, or some other error on both sides. */
  predicate SameAnswer(x: Answer, y: Answer) {
    match (x, y)
    case (Ok(v), Ok(w)) => v == w
    case (Err(e), Err(f)) => (e == BudgetExceeded <==> f == BudgetExceeded)
    case _ => false
  }

  // ------------------------------------------------ the coupling

  ghost predicate HasCounters(s: State, ctx: Context) {
    AccountOf(ctx, 0) in s.counters && AccountOf(ctx, 1) in s.counters && AccountOf(ctx, 2) in s.counters
  }

  ghost predicate SameCaps(p: Policy, s: State, m: MemState) {
    && s.caps == m.capsByRun
    && forall ctx: Context | ctx.runId in s.caps && AtHome(p, ctx) ::
         TeamOf(ctx) in m.teamCaps && HasCounters(s, ctx) && Follows(p, ctx, s.caps[ctx.runId])
  }

  /** Every counter holds exactly what the policy leaves. */
  ghost predicate CountersExact(p: Policy, s: State) {
    forall a | a in s.counters :: CentsToUsd(s.counters[a]) == p.cap(a) - Usage(s.rows, a)
  }

  ghost predicate SameHolds(s: State, m: MemState) {
    && (forall id :: id in m.active <==> IsActive(s, id))
    && (forall id | id in m.active :: m.active[id] == Hold(s.rows[id].ctx, s.rows[id].reserved))
  }

  ghost predicate SameSpend(s: State, m: MemState) {
    forall a :: Get(m.spend, a) == SumMap(ChargedOn(a), s.rows)
  }

  ghost predicate RowsAtHome(p: Policy, s: State) {
    forall id | id in s.rows :: AtHome(p, s.rows[id].ctx) && s.rows[id].ctx.runId in s.caps
  }

  ghost predicate Quiet(s: State) {
    Inv(s) && WholeState(s) && s.flights == map[]
  }

  ghost predicate Coupled(p: Policy, s: State, m: MemState) {
    && Quiet(s)
    && SameCaps(p, s, m)
    && CountersExact(p, s)
    && SameHolds(s, m)
    && SameSpend(s, m)
    && RowsAtHome(p, s)
  }

  lemma UsedIsUsage(s: State, m: MemState, a: Account)
    requires SameHolds(s, m) && SameSpend(s, m)
    ensures MemUsed(m, a) == Usage(s.rows, a)
  {
    UsageIsActivePlusCharged(s.rows, a);
    SumMapExtend(HoldOn(a), ActiveOn(a), m.active, s.rows);
  }

  lemma UncountedIsUnused(p: Policy, s: State, m: MemState, a: Account)
    requires SameCaps(p, s, m) && RowsAtHome(p, s) && a !in s.counters
    ensures Usage(s.rows, a) == 0
  {
    forall id | id in s.rows ensures UsageOn(a)(id, s.rows[id]) == 0 {
      assert HasCounters(s, s.rows[id].ctx);
    }
    SumOfZeros(UsageOn(a), s.rows);
  }

  lemma HomeHasKeys(p: Policy, s: State, m: MemState, ctx: Context)
    requires SameCaps(p, s, m) && AtHome(p, ctx) && ctx.runId in s.caps
    ensures HasCounters(s, ctx) && KeysPresent(s, ctx) && Configured(m, ctx)
    ensures Follows(p, ctx, s.caps[ctx.runId]) && Ensured(s, ctx) == s
  {
  }

  /** What each ledger says is left on a counter. */
  lemma LeftIsCounter(p: Policy, s: State, m: MemState, ctx: Context, n: nat)
    requires Coupled(p, s, m) && AtHome(p, ctx) && ctx.runId in s.caps && n < 3
    ensures Configured(m, ctx) && AccountOf(ctx, n) in s.counters
    ensures MemLeft(m, ctx, n) == CentsToUsd(s.counters[AccountOf(ctx, n)]) == Remaining(s, ctx, AccountOf(ctx, n))
  {
    HomeHasKeys(p, s, m, ctx);
    UsedIsUsage(s, m, AccountOf(ctx, n));
    assert s.counters[AccountOf(ctx, n)] >= 0;
  }

  // ------------------------------------------------ balance

  lemma BalanceAgrees(p: Policy, s: State, m: MemState, ctx: Context)
    requires Coupled(p, s, m) && AtHome(p, ctx)
    ensures BalanceCall(s, ctx).0 == s && SameAnswer(BalanceCall(s, ctx).1, MemBalance(m, ctx).1)
  {
    if ctx.runId in s.caps {
      HomeHasKeys(p, s, m, ctx);
      LeftIsCounter(p, s, m, ctx, 0);
      LeftIsCounter(p, s, m, ctx, 1);
      LeftIsCounter(p, s, m, ctx, 2);
    }
  }

  // ------------------------------------------------ reserve

  lemma AffordableIsUnderTheCaps(p: Policy, s: State, m: MemState, ctx: Context, amount: int)
    requires Coupled(p, s, m) && AtHome(p, ctx) && ctx.runId in s.caps && WholeCents(amount)
    ensures KeysPresent(s, ctx) && Configured(m, ctx)
    ensures Affordable(s, ctx, UsdToCents(amount))
       <==> MemLeft(m, ctx, 0) >= amount && MemLeft(m, ctx, 1) >= amount && MemLeft(m, ctx, 2) >= amount
  {
    HomeHasKeys(p, s, m, ctx);
    LeftIsCounter(p, s, m, ctx, 0);
    LeftIsCounter(p, s, m, ctx, 1);
    LeftIsCounter(p, s, m, ctx, 2);
    RoundingKeepsWholeCents(amount);
    assert Touches(ctx, AccountOf(ctx, 0)) && Touches(ctx, AccountOf(ctx, 1)) && Touches(ctx, AccountOf(ctx, 2));
  }

  ghost function Reserved(s: State, w: WorkerId, ctx: Context, id: ResId, amount: int): State {
    AfterInsert(AfterDecrement(s, w, ctx, amount), w, id)
  }

  lemma ReservedIsQuiet(s: State, w: WorkerId, ctx: Context, id: ResId, amount: int)
    requires Quiet(s) && Enabled(s, Decrement(w, ctx, amount)) && id !in s.rows && amount >= 0 && WholeCents(amount)
    ensures Quiet(Reserved(s, w, ctx, id, amount))
  {
    var t := AfterDecrement(s, w, ctx, amount);
    DecrementKeeps(s, w, ctx, amount);
    StepKeepsWholeCents(s, Decrement(w, ctx, amount));
    InsertKeeps(t, w, id);
    StepKeepsWholeCents(t, Insert(w, id));
  }

  lemma ReservedCountersExact(p: Policy, s: State, w: WorkerId, ctx: Context, id: ResId, amount: int)
    requires CountersExact(p, s) && KeysPresent(s, ctx) && id !in s.rows && WholeCents(amount)
    ensures CountersExact(p, Reserved(s, w, ctx, id, amount))
  {
    var t := Reserved(s, w, ctx, id, amount);
    RoundingKeepsWholeCents(amount);
    forall a | a in t.counters ensures CentsToUsd(t.counters[a]) == p.cap(a) - Usage(t.rows, a) {
      assert a in s.counters;
      SumMapInsert(UsageOn(a), s.rows, id, Reservation(ctx, amount, Active, 0));
    }
  }

  lemma ReservedSameBooks(s: State, m: MemState, w: WorkerId, ctx: Context, id: ResId, amount: int)
    requires SameHolds(s, m) && SameSpend(s, m) && id !in s.rows
    ensures var t := Reserved(s, w, ctx, id, amount);
            var n := m.(active := m.active[id := Hold(ctx, amount)]);
            SameHolds(t, n) && SameSpend(t, n)
  {
    forall a
      ensures SumMap(ChargedOn(a), s.rows[id := Reservation(ctx, amount, Active, 0)]) == SumMap(ChargedOn(a), s.rows)
    {
      SumMapInsert(ChargedOn(a), s.rows, id, Reservation(ctx, amount, Active, 0));
    }
  }

  /** Both ledgers grant the reservation, with the same amounts left, or both leave everything as
      it was. */
  lemma ReserveOutcomes(p: Policy, s: State, m: MemState, w: WorkerId, ctx: Context, id: ResId, amount: int)
    requires Coupled(p, s, m) && Admissible(p, s, Reserves(ctx, id, amount))
    ensures var (t, x) := ReserveCall(s, w, ctx, id, amount, NO_FAULT);
            var (n, y) := MemReserve(m, ctx, id, amount);
            && SameAnswer(x, y)
            && (x.Err? ==> t == s && n == m)
            && (x.Ok? ==> Enabled(s, Decrement(w, ctx, amount)) && t == Reserved(s, w, ctx, id, amount)
                          && n == m.(active := m.active[id := Hold(ctx, amount)]))
  {
    if ctx.runId in s.caps {
      HomeHasKeys(p, s, m, ctx);
      AffordableIsUnderTheCaps(p, s, m, ctx, amount);
      ReserveQuotesAgree(p, s, m, w, ctx, amount);
    }
  }

  lemma ReservedCoupled(p: Policy, s: State, m: MemState, w: WorkerId, ctx: Context, id: ResId, amount: int)
    requires Coupled(p, s, m) && Admissible(p, s, Reserves(ctx, id, amount))
    requires Enabled(s, Decrement(w, ctx, amount))
    ensures Coupled(p, Reserved(s, w, ctx, id, amount), m.(active := m.active[id := Hold(ctx, amount)]))
  {
    ReservedIsQuiet(s, w, ctx, id, amount);
    ReservedCountersExact(p, s, w, ctx, id, amount);
    ReservedSameBooks(s, m, w, ctx, id, amount);
    ReservedCapsAndHomes(p, s, m, w, ctx, id, amount);
  }

  lemma ReservedCapsAndHomes(p: Policy, s: State, m: MemState, w: WorkerId, ctx: Context, id: ResId, amount: int)
    requires SameCaps(p, s, m) && RowsAtHome(p, s) && AtHome(p, ctx) && ctx.runId in s.caps && id !in s.rows
    ensures var t := Reserved(s, w, ctx, id, amount);
            SameCaps(p, t, m.(active := m.active[id := Hold(ctx, amount)])) && RowsAtHome(p, t)
  {
    var t := Reserved(s, w, ctx, id, amount);
    forall c: Context | HasCounters(s, c) ensures HasCounters(t, c) {
    }
  }

  lemma ReserveQuotesAgree(p: Policy, s: State, m: MemState, w: WorkerId, ctx: Context, amount: int)
    requires Coupled(p, s, m) && AtHome(p, ctx) && ctx.runId in s.caps && WholeCents(amount)
    ensures Configured(m, ctx)
    ensures CounterQuote(AfterDecrement(s, w, ctx, amount).counters, ctx)
         == Quote(MemLeft(m, ctx, 0) - amount, MemLeft(m, ctx, 1) - amount, MemLeft(m, ctx, 2) - amount)
  {
    RoundingKeepsWholeCents(amount);
    LeftIsCounter(p, s, m, ctx, 0);
    LeftIsCounter(p, s, m, ctx, 1);
    LeftIsCounter(p, s, m, ctx, 2);
  }

  // ------------------------------------------------ settle and release

  ghost function Closed(s: State, w: WorkerId, id: ResId, r: Reservation): State {
    CreditUpTo(AfterClose(s, w, id, r), w, 3)
  }

  ghost predicate Closing(s: State, id: ResId, r: Reservation) {
    && IsActive(s, id)
    && r.ctx == s.rows[id].ctx && r.reserved == s.rows[id].reserved && r.status != Active
    && WholeRow(r) && 0 <= r.released && Committed(r) == r.reserved - r.released
  }

  lemma ClosedCountersExact(p: Policy, s: State, m: MemState, w: WorkerId, id: ResId, r: Reservation)
    requires CountersExact(p, s) && SameCaps(p, s, m) && RowsAtHome(p, s) && s.flights == map[] && Closing(s, id, r)
    ensures CountersExact(p, Closed(s, w, id, r))
    ensures Closed(s, w, id, r).counters.Keys == s.counters.Keys
    ensures Closed(s, w, id, r).flights == map[]
    ensures Closed(s, w, id, r).rows == s.rows[id := r] && Closed(s, w, id, r).caps == s.caps
  {
    var mid := s.(rows := s.rows[id := r]);
    var cents := UsdToCents(r.released);
    var t := Closed(s, w, id, r);
    FullCredit(mid, w, r.ctx, cents);
    RoundingKeepsWholeCents(r.released);
    assert HasCounters(s, s.rows[id].ctx);
    assert forall a :: a in t.counters <==> a in s.counters;
    forall a | a in t.counters ensures CentsToUsd(t.counters[a]) == p.cap(a) - Usage(t.rows, a) {
      assert Counter(t, a) == t.counters[a] && Counter(s, a) == s.counters[a];
      ClosedUsage(s, id, r, a);
    }
  }

  lemma ClosedUsage(s: State, id: ResId, r: Reservation, a: Account)
    requires Closing(s, id, r)
    ensures Usage(s.rows[id := r], a) == Usage(s.rows, a) - if Touches(r.ctx, a) then r.released else 0
  {
    SumMapUpdate(UsageOn(a), s.rows, id, r);
  }

  lemma ClosedInv(s: State, w: WorkerId, id: ResId, r: Reservation)
    requires Inv(s) && s.flights == map[] && Closing(s, id, r) && RowOk(s, r)
    ensures Inv(Closed(s, w, id, r))
  {
    CloseKeeps(s, w, id, r);
    CreditUpToKeepsInv(AfterClose(s, w, id, r), w, 3);
  }

  lemma ClosedIsWhole(s: State, t: State, id: ResId, r: Reservation)
    requires WholeState(s) && WholeRow(r)
    requires t.rows == s.rows[id := r] && t.caps == s.caps && t.flights == map[]
    ensures WholeState(t)
  {
  }

  lemma ClosedCapsAndHomes(p: Policy, s: State, t: State, m: MemState, n: MemState, id: ResId, r: Reservation)
    requires SameCaps(p, s, m) && RowsAtHome(p, s) && id in s.rows && r.ctx == s.rows[id].ctx
    requires t.rows == s.rows[id := r] && t.caps == s.caps && t.counters.Keys == s.counters.Keys
    requires n.capsByRun == m.capsByRun && n.teamCaps == m.teamCaps
    ensures SameCaps(p, t, n) && RowsAtHome(p, t)
  {
    forall c: Context | HasCounters(s, c) ensures HasCounters(t, c) {
    }
  }

  lemma SettledSameBooks(s: State, t: State, m: MemState, id: ResId, actual: int)
    requires SameHolds(s, m) && SameSpend(s, m) && IsActive(s, id) && actual <= s.rows[id].reserved
    requires t.rows == s.rows[id := SettledRow(s.rows[id], actual)]
    ensures SameHolds(t, MemSettle(m, id, actual).0) && SameSpend(t, MemSettle(m, id, actual).0)
  {
    var n := MemSettle(m, id, actual).0;
    forall a ensures Get(n.spend, a) == SumMap(ChargedOn(a), t.rows) {
      SumMapUpdate(ChargedOn(a), s.rows, id, SettledRow(s.rows[id], actual));
      assert Get(m.spend, a) == SumMap(ChargedOn(a), s.rows);
    }
  }

  lemma ReleasedSameBooks(s: State, t: State, m: MemState, id: ResId)
    requires SameHolds(s, m) && SameSpend(s, m) && IsActive(s, id)
    requires t.rows == s.rows[id := ReleasedRow(s.rows[id])]
    ensures SameHolds(t, MemRelease(m, id).0) && SameSpend(t, MemRelease(m, id).0)
  {
    var n := MemRelease(m, id).0;
    forall a ensures Get(n.spend, a) == SumMap(ChargedOn(a), t.rows) {
      SumMapUpdate(ChargedOn(a), s.rows, id, ReleasedRow(s.rows[id]));
    }
  }

  lemma ClosingIsOk(s: State, id: ResId, actual: int)
    requires RowsOk(s) && WholeState(s) && IsActive(s, id)
    ensures Closing(s, id, ReleasedRow(s.rows[id])) && RowOk(s, ReleasedRow(s.rows[id]))
    ensures actual <= s.rows[id].reserved && WholeCents(actual) ==>
              Closing(s, id, SettledRow(s.rows[id], actual)) && RowOk(s, SettledRow(s.rows[id], actual))
  {
    assert RowOk(s, s.rows[id]) && WholeRow(s.rows[id]);
  }

  lemma ClosedCoupled(p: Policy, s: State, m: MemState, n: MemState, w: WorkerId, id: ResId, r: Reservation)
    requires Coupled(p, s, m) && Closing(s, id, r) && RowOk(s, r)
    requires n.capsByRun == m.capsByRun && n.teamCaps == m.teamCaps
    requires SameHolds(Closed(s, w, id, r), n) && SameSpend(Closed(s, w, id, r), n)
    ensures Coupled(p, Closed(s, w, id, r), n)
  {
    var t := Closed(s, w, id, r);
    ClosedCountersExact(p, s, m, w, id, r);
    ClosedInv(s, w, id, r);
    ClosedIsWhole(s, t, id, r);
    ClosedCapsAndHomes(p, s, t, m, n, id, r);
  }

  lemma SettledCoupled(p: Policy, s: State, m: MemState, w: WorkerId, id: ResId, actual: int)
    requires Coupled(p, s, m) && IsActive(s, id) && actual <= s.rows[id].reserved && WholeCents(actual)
    ensures Coupled(p, Closed(s, w, id, SettledRow(s.rows[id], actual)), MemSettle(m, id, actual).0)
  {
    var r := SettledRow(s.rows[id], actual);
    ClosingIsOk(s, id, actual);
    ClosedCountersExact(p, s, m, w, id, r);
    SettledSameBooks(s, Closed(s, w, id, r), m, id, actual);
    ClosedCoupled(p, s, m, MemSettle(m, id, actual).0, w, id, r);
  }

  lemma ReleasedCoupled(p: Policy, s: State, m: MemState, w: WorkerId, id: ResId)
    requires Coupled(p, s, m) && IsActive(s, id)
    ensures Coupled(p, Closed(s, w, id, ReleasedRow(s.rows[id])), MemRelease(m, id).0)
  {
    var r := ReleasedRow(s.rows[id]);
    ClosingIsOk(s, id, 0);
    ClosedCountersExact(p, s, m, w, id, r);
    ReleasedSameBooks(s, Closed(s, w, id, r), m, id);
    ClosedCoupled(p, s, m, MemRelease(m, id).0, w, id, r);
  }

  // ------------------------------------------------ configure

  lemma ConfiguredIsQuiet(s: State, ctx: Context, caps: Caps)
    requires Quiet(s) && WholeCaps(caps)
    ensures Quiet(ConfigureCall(s, ctx, caps))
  {
    var t := AfterConfigure(s, ctx, caps);
    ConfigureKeeps(s, ctx, caps);
    ReconcileKeeps(t, ctx);
    StepKeepsWholeCents(s, Configure(ctx, caps));
    StepKeepsWholeCents(t, Reconcile(ctx));
  }

  lemma ConfiguredCountersExact(p: Policy, s: State, m: MemState, ctx: Context, caps: Caps)
    requires Coupled(p, s, m) && Admissible(p, s, Configures(ctx, caps))
    ensures CountersExact(p, ConfigureCall(s, ctx, caps))
  {
    var t := AfterConfigure(s, ctx, caps);
    var u := ConfigureCall(s, ctx, caps);
    forall a | a in u.counters ensures CentsToUsd(u.counters[a]) == p.cap(a) - Usage(u.rows, a) {
      if Touches(ctx, a) {
        ReconcileTouched(t, ctx, a);
        ConfiguredRemaining(p, s, m, ctx, caps, a);
      } else {
        ReconcileUntouched(t, ctx, a);
        UntouchedCounter(p, s, u, a);
      }
    }
  }

  lemma UntouchedCounter(p: Policy, s: State, u: State, a: Account)
    requires CountersExact(p, s) && a in u.counters && a in s.counters && Get(u.counters, a) == Get(s.counters, a)
    requires u.rows == s.rows
    ensures CentsToUsd(u.counters[a]) == p.cap(a) - Usage(u.rows, a)
  {
  }

  /** In whole cents the counters hold exactly what the new caps leave. */
  lemma ConfiguredWhole(s: State, ctx: Context, caps: Caps, a: Account)
    requires Quiet(s) && WholeCaps(caps)
    ensures Rounded(Remaining(AfterConfigure(s, ctx, caps), ctx, a)) == Max(0, CapFor(caps, a) - Usage(s.rows, a))
  {
    var t := AfterConfigure(s, ctx, caps);
    StepKeepsWholeCents(s, Configure(ctx, caps));
    OkCarriesOver(s, t);
    WholeLeft(t, ctx, a);
  }

  lemma ConfiguredRemaining(p: Policy, s: State, m: MemState, ctx: Context, caps: Caps, a: Account)
    requires Coupled(p, s, m) && Admissible(p, s, Configures(ctx, caps)) && Touches(ctx, a)
    ensures Rounded(Remaining(AfterConfigure(s, ctx, caps), ctx, a)) == p.cap(a) - Usage(s.rows, a)
  {
    UsageUnderCap(p, s, m, ctx, caps, a);
    CapIsWhole(p, caps, ctx, a);
    ConfiguredWhole(s, ctx, caps, a);
  }

  lemma UsageUnderCap(p: Policy, s: State, m: MemState, ctx: Context, caps: Caps, a: Account)
    requires Coupled(p, s, m) && Follows(p, ctx, caps) && WholeCaps(caps) && Touches(ctx, a)
    ensures Usage(s.rows, a) <= p.cap(a)
  {
    if a !in s.counters {
      UncountedIsUnused(p, s, m, a);
      CapIsWhole(p, caps, ctx, a);
    } else {
      assert s.counters[a] >= 0;
    }
  }

  lemma CapIsWhole(p: Policy, caps: Caps, ctx: Context, a: Account)
    requires Follows(p, ctx, caps) && WholeCaps(caps) && Touches(ctx, a)
    ensures CapFor(caps, a) == p.cap(a) >= 0 && WholeCents(p.cap(a))
  {
  }

  lemma ConfiguredSameCaps(p: Policy, s: State, u: State, m: MemState, ctx: Context, caps: Caps)
    requires SameCaps(p, s, m) && RowsAtHome(p, s) && AtHome(p, ctx) && Follows(p, ctx, caps)
    requires u.caps == s.caps[ctx.runId := caps] && u.rows == s.rows
    requires forall a :: a in s.counters || Touches(ctx, a) ==> a in u.counters
    ensures SameCaps(p, u, MemConfigure(m, ctx, caps)) && RowsAtHome(p, u)
  {
    forall c: Context | c.runId in u.caps && AtHome(p, c)
      ensures TeamOf(c) in MemConfigure(m, ctx, caps).teamCaps && HasCounters(u, c) && Follows(p, c, u.caps[c.runId])
    {
      if c.runId == ctx.runId {
        assert AccountOf(c, 0) == AccountOf(ctx, 0);
        assert AccountOf(c, 1) == AccountOf(ctx, 1) && AccountOf(c, 2) == AccountOf(ctx, 2);
      } else {
        assert HasCounters(s, c);
      }
    }
  }

  lemma ConfiguredCoupled(p: Policy, s: State, m: MemState, ctx: Context, caps: Caps)
    requires Coupled(p, s, m) && Admissible(p, s, Configures(ctx, caps))
    ensures Coupled(p, ConfigureCall(s, ctx, caps), MemConfigure(m, ctx, caps))
  {
    ConfiguredIsQuiet(s, ctx, caps);
    ConfiguredCountersExact(p, s, m, ctx, caps);
    ConfiguredSameCaps(p, s, ConfigureCall(s, ctx, caps), m, ctx, caps);
  }

  // ------------------------------------------------ runs of calls

  lemma SettleAgrees(p: Policy, s: State, m: MemState, w: WorkerId, id: ResId, actual: int)
    requires Coupled(p, s, m) && Admissible(p, s, Settles(id, actual))
    ensures var (t, x) := SettleCall(s, w, id, actual, 3);
            var (n, y) := MemSettle(m, id, actual);
            Coupled(p, t, n) && SameAnswer(x, y)
  {
    if IsActive(s, id) {
      SettledCoupled(p, s, m, w, id, actual);
    }
  }

  lemma ReleaseAgrees(p: Policy, s: State, m: MemState, w: WorkerId, id: ResId)
    requires Coupled(p, s, m)
    ensures var (t, x) := ReleaseCall(s, w, id, 3);
            var (n, y) := MemRelease(m, id);
            Coupled(p, t, n) && SameAnswer(x, y)
  {
    if IsActive(s, id) {
      ReleasedCoupled(p, s, m, w, id);
    }
  }

  lemma ReserveAgrees(p: Policy, s: State, m: MemState, w: WorkerId, ctx: Context, id: ResId, amount: int)
    requires Coupled(p, s, m) && Admissible(p, s, Reserves(ctx, id, amount))
    ensures var (t, x) := ReserveCall(s, w, ctx, id, amount, NO_FAULT);
            var (n, y) := MemReserve(m, ctx, id, amount);
            Coupled(p, t, n) && SameAnswer(x, y)
  {
    ReserveOutcomes(p, s, m, w, ctx, id, amount);
    if ReserveCall(s, w, ctx, id, amount, NO_FAULT).1.Ok? {
      ReservedCoupled(p, s, m, w, ctx, id, amount);
    }
  }

  /** One call answers the same in both ledgers and leaves them coupled. */
  lemma CallAgrees(p: Policy, s: State, m: MemState, w: WorkerId, c: Command)
    requires Coupled(p, s, m) && Admissible(p, s, c)
    ensures Coupled(p, FastCall(s, w, c).0, MemCall(m, c).0)
    ensures SameAnswer(FastCall(s, w, c).1, MemCall(m, c).1)
  {
    match c
    case Configures(ctx, caps) => ConfiguredCoupled(p, s, m, ctx, caps);
    case Reserves(ctx, id, amount) => ReserveAgrees(p, s, m, w, ctx, id, amount);
    case Settles(id, actual) => SettleAgrees(p, s, m, w, id, actual);
    case Releases(id) => ReleaseAgrees(p, s, m, w, id);
    case Balances(ctx) => BalanceAgrees(p, s, m, ctx);
  }

  /** The two ledgers after the same calls, fs and ms, with every call admissible where it is made. */
  ghost predicate BothRun(p: Policy, w: WorkerId, calls: seq<Command>, fs: seq<State>, ms: seq<MemState>) {
    && |fs| == |ms| == |calls| + 1
    && fs[0] == EMPTY && ms[0] == NO_LEDGER
    && forall i | 0 <= i < |calls| :: BothStep(p, w, fs[i], ms[i], calls[i], fs[i + 1], ms[i + 1])
  }

  ghost predicate BothStep(p: Policy, w: WorkerId, s: State, m: MemState, c: Command, t: State, n: MemState) {
    s.flights == map[] && Admissible(p, s, c) && t == FastCall(s, w, c).0 && n == MemCall(m, c).0
  }

  lemma {:induction false} RunsStayCoupled(p: Policy, w: WorkerId, calls: seq<Command>, fs: seq<State>,
                                           ms: seq<MemState>, i: nat)
    requires BothRun(p, w, calls, fs, ms) && i <= |calls|
    ensures Coupled(p, fs[i], ms[i])
  {
    if i > 0 {
      RunsStayCoupled(p, w, calls, fs, ms, i - 1);
      assert BothStep(p, w, fs[i - 1], ms[i - 1], calls[i - 1], fs[i], ms[i]);
      CallAgrees(p, fs[i - 1], ms[i - 1], w, calls[i - 1]);
    }
  }

  /** Over any admissible sequence of calls every answer is the same, grants, denials and the
      amounts left included. */
  lemma SequentialAnswersAgree(p: Policy, w: WorkerId, calls: seq<Command>, fs: seq<State>, ms: seq<MemState>, i: nat)
    requires BothRun(p, w, calls, fs, ms) && i < |calls|
    ensures fs[i].flights == map[]
    ensures SameAnswer(FastCall(fs[i], w, calls[i]).1, MemCall(ms[i], calls[i]).1)
  {
    RunsStayCoupled(p, w, calls, fs, ms, i);
    assert BothStep(p, w, fs[i], ms[i], calls[i], fs[i + 1], ms[i + 1]);
    CallAgrees(p, fs[i], ms[i], w, calls[i]);
  }

  /** A settlement keeps the two ledgers together exactly when it does not ask for more than was
      reserved: the in-memory one has then already dropped the hold. */
  lemma SettleStaysCoupledIff(p: Policy, s: State, m: MemState, w: WorkerId, id: ResId, actual: int)
    requires Coupled(p, s, m) && IsActive(s, id) && WholeCents(actual)
    ensures Coupled(p, SettleCall(s, w, id, actual, 3).0, MemSettle(m, id, actual).0) <==> actual <= s.rows[id].reserved
  {
    if actual <= s.rows[id].reserved {
      SettledCoupled(p, s, m, w, id, actual);
    } else {
      DroppedHoldUncouples(s, m, id, actual);
    }
  }

  lemma DroppedHoldUncouples(s: State, m: MemState, id: ResId, actual: int)
    requires IsActive(s, id)
    ensures !SameHolds(s, MemSettle(m, id, actual).0)
  {
    assert id !in MemSettle(m, id, actual).0.active;
  }
}
