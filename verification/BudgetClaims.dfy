/** Which calls can overspend a cap, for arbitrary amounts: what is claimed on an account, the
    test of each call that keeps the claim from growing, and the caps of runs that pass every test. */
module BudgetClaims {
  import opened Common
  import opened Money
  import opened Sums
  import opened BudgetProtocol
  import opened BudgetSafety

  /** What an account may come to be charged: what its counter offers or is about to be given
      back, and what is charged or reserved already. */
  ghost function Claimed(s: State, a: Account): int {
    CentsToUsd(Counter(s, a) + Pending(s, a)) + Usage(s.rows, a)
  }

  // ------------------------------------------------ how each step moves the claim

  lemma DecrementMovesNothing(s: State, w: WorkerId, ctx: Context, amount: int, a: Account)
    requires w !in s.flights
    ensures Claimed(AfterDecrement(s, w, ctx, amount), a) == Claimed(s, a)
  {
    SumMapInsert(HeldOn(a), s.flights, w, Inserting(ctx, amount));
  }

  lemma InsertMovesClaim(s: State, w: WorkerId, id: ResId, a: Account)
    requires IsInserting(s, w) && id !in s.rows
    ensures var f := s.flights[w];
            Claimed(AfterInsert(s, w, id), a)
            == Claimed(s, a) + if Touches(f.ctx, a) then f.amount - Rounded(f.amount) else 0
  {
    RemoveFlight(s, w, a);
    SumMapInsert(UsageOn(a), s.rows, id, AfterInsert(s, w, id).rows[id]);
  }

  lemma InsertFailsMovesClaim(s: State, w: WorkerId, a: Account)
    requires IsInserting(s, w)
    ensures var f := s.flights[w];
            Claimed(AfterInsertFails(s, w), a)
            == Claimed(s, a) + if Touches(f.ctx, a) then Max(0, Rounded(f.amount)) - Rounded(f.amount) else 0
  {
    var f := s.flights[w];
    RemoveFlight(s, w, a);
    StartCreditHolds(s, w, f.ctx, UsdToCents(f.amount), a);
  }

  /** r closes the active row id, giving back r.released. */
  predicate ClosesRow(s: State, id: ResId, r: Reservation) {
    && IsActive(s, id) && r.ctx == s.rows[id].ctx && r.status != Active
    && Committed(r) == s.rows[id].reserved - r.released
  }

  lemma CloseMovesClaim(s: State, w: WorkerId, id: ResId, r: Reservation, a: Account)
    requires w !in s.flights && ClosesRow(s, id, r)
    ensures Claimed(AfterClose(s, w, id, r), a)
            == Claimed(s, a) + if Touches(r.ctx, a) then Max(0, Rounded(r.released)) - r.released else 0
  {
    var mid := s.(rows := s.rows[id := r]);
    SumMapUpdate(UsageOn(a), s.rows, id, r);
    RemoveFlight(mid, w, a);
    StartCreditHolds(mid, w, r.ctx, UsdToCents(r.released), a);
    assert Pending(mid, a) == Pending(s, a);
  }

  lemma CreditMovesNothing(s: State, w: WorkerId, a: Account)
    requires IsCrediting(s, w)
    ensures Claimed(AfterCredit(s, w), a) == Claimed(s, a)
  {
    NextCreditHolds(s, w, a);
  }

  lemma LostCreditLowersClaim(s: State, w: WorkerId, a: Account)
    requires IsCrediting(s, w) && s.flights[w].cents > 0
    ensures Claimed(AfterLoseCredit(s, w), a) <= Claimed(s, a)
  {
    RemoveFlight(s, w, a);
  }

  // ------------------------------------------------ the test of each call

  /** A reservation takes at least its amount from the counters, and never adds to them. */
  predicate TakesEnough(amount: int) {
    Rounded(amount) >= Max(amount, 0)
  }

  /** A settlement or release gives the counters no more than it frees in the tables. */
  predicate GivesNoMore(released: int) {
    Max(0, Rounded(released)) <= released
  }

  /** What is left is not offered as more than it is. */
  predicate RoundsDown(left: int) {
    Rounded(left) <= left
  }

  /** A reservation whose row is inserted leaves the claim no higher exactly when its cents are at
      least its amount. */
  lemma ReservationKeepsClaimIff(s: State, w: WorkerId, ctx: Context, id: ResId, amount: int, a: Account)
    requires w !in s.flights && id !in s.rows && Touches(ctx, a)
    ensures Claimed(AfterInsert(AfterDecrement(s, w, ctx, amount), w, id), a) <= Claimed(s, a)
            <==> Rounded(amount) >= amount
  {
    DecrementMovesNothing(s, w, ctx, amount, a);
    InsertMovesClaim(AfterDecrement(s, w, ctx, amount), w, id, a);
  }

  /** One whose insert fails leaves it no higher exactly when its cents are not negative. */
  lemma FailedReservationKeepsClaimIff(s: State, w: WorkerId, ctx: Context, amount: int, a: Account)
    requires w !in s.flights && Touches(ctx, a)
    ensures Claimed(AfterInsertFails(AfterDecrement(s, w, ctx, amount), w), a) <= Claimed(s, a)
            <==> UsdToCents(amount) >= 0
  {
    DecrementMovesNothing(s, w, ctx, amount, a);
    InsertFailsMovesClaim(AfterDecrement(s, w, ctx, amount), w, a);
  }

  /** Settling leaves the claim no higher exactly when what is given back, in cents, is no more than
      what is freed. Releasing is settling at no cost. */
  lemma SettlementKeepsClaimIff(s: State, w: WorkerId, id: ResId, actual: int, a: Account)
    requires w !in s.flights && IsActive(s, id) && Touches(s.rows[id].ctx, a)
    ensures Claimed(AfterClose(s, w, id, SettledRow(s.rows[id], actual)), a) <= Claimed(s, a)
            <==> GivesNoMore(s.rows[id].reserved - actual)
    ensures actual == 0 ==> Claimed(AfterClose(s, w, id, ReleasedRow(s.rows[id])), a)
                            == Claimed(AfterClose(s, w, id, SettledRow(s.rows[id], actual)), a)
  {
    CloseMovesClaim(s, w, id, SettledRow(s.rows[id], actual), a);
    if actual == 0 {
      ReleaseIsSettlingForNothing(s, w, id, a);
    }
  }

  lemma ReleaseIsSettlingForNothing(s: State, w: WorkerId, id: ResId, a: Account)
    requires w !in s.flights && IsActive(s, id)
    ensures Claimed(AfterClose(s, w, id, ReleasedRow(s.rows[id])), a)
            == Claimed(AfterClose(s, w, id, SettledRow(s.rows[id], 0)), a)
  {
    CloseMovesClaim(s, w, id, SettledRow(s.rows[id], 0), a);
    CloseMovesClaim(s, w, id, ReleasedRow(s.rows[id]), a);
  }

  lemma ReconciledClaim(s: State, ctx: Context, a: Account)
    requires ctx.runId in s.caps && Touches(ctx, a)
    ensures Claimed(AfterReconcile(s, ctx), a)
            == Rounded(Remaining(s, ctx, a)) + CentsToUsd(Pending(s, a)) + Usage(s.rows, a)
  {
    ReconcileTouched(s, ctx, a);
    assert AfterReconcile(s, ctx).flights == s.flights;
  }

  /** A reconcile of an account within its cap leaves the claim within the cap exactly when nothing
      is in flight there and the amount left does not round up. */
  lemma ReconcileKeepsCapIff(s: State, ctx: Context, a: Account)
    requires ctx.runId in s.caps && Touches(ctx, a) && Pending(s, a) >= 0
    requires Usage(s.rows, a) <= CapFor(s.caps[ctx.runId], a)
    ensures var left := CapFor(s.caps[ctx.runId], a) - Usage(s.rows, a);
            Claimed(AfterReconcile(s, ctx), a) <= CapFor(s.caps[ctx.runId], a)
            <==> Pending(s, a) == 0 && RoundsDown(left)
  {
    ReconciledClaim(s, ctx, a);
    var left := CapFor(s.caps[ctx.runId], a) - Usage(s.rows, a);
    assert Remaining(s, ctx, a) == left;
    NothingPendingOrTooMuch(left, Pending(s, a));
  }

  lemma NothingPendingOrTooMuch(left: int, pending: int)
    requires pending >= 0
    ensures Rounded(left) + CentsToUsd(pending) <= left <==> pending == 0 && RoundsDown(left)
  {
    RoundingIsNearest(left);
    if pending >= 1 {
      assert CentsToUsd(pending) >= MICROS_PER_CENT;
    }
  }

  /** In whole cents only the wait matters. */
  lemma ReconcileKeepsCapsIffQuiescent(s: State, ctx: Context)
    requires RowsOk(s) && FlightsOk(s) && WholeState(s) && ctx.runId in s.caps
    requires forall a | Touches(ctx, a) :: Usage(s.rows, a) <= CapFor(s.caps[ctx.runId], a)
    ensures (forall a | Touches(ctx, a) :: Claimed(AfterReconcile(s, ctx), a) <= CapFor(s.caps[ctx.runId], a))
            <==> Quiescent(s, ctx)
  {
    forall a | Touches(ctx, a)
      ensures Claimed(AfterReconcile(s, ctx), a) <= CapFor(s.caps[ctx.runId], a) <==> Pending(s, a) == 0
    {
      PendingIsNonNegative(s, a);
      ReconcileKeepsCapIff(s, ctx, a);
      WholeLeft(s, ctx, a);
      WholeDifference(CapFor(s.caps[ctx.runId], a), Usage(s.rows, a));
    }
  }

  // ------------------------------------------------ runs in which every call passes its test

  ghost predicate Tested(s: State, step: Step) {
    match step
    case Decrement(_, _, amount) => TakesEnough(amount)
    case Settle(_, id, actual) => id in s.rows ==> GivesNoMore(s.rows[id].reserved - actual)
    case Release(_, id) => id in s.rows ==> GivesNoMore(s.rows[id].reserved)
    case Reconcile(ctx) =>
      forall a | Touches(ctx, a) :: Pending(s, a) == 0 && RoundsDown(Remaining(s, ctx, a))
    case _ => true
  }

  ghost predicate FlightTested(s: State, f: Flight) {
    && Known(s, f.ctx)
    && match f
       case Inserting(_, amount) => TakesEnough(amount)
       case Crediting(_, cents, n) => cents > 0 && n < 3
  }

  /** Only reconciled accounts are in use, and no call in progress owes a counter anything. */
  ghost predicate InOrder(s: State) {
    && s.counters.Keys <= s.anchor.Keys == s.peak.Keys
    && (forall a | a in s.counters :: s.counters[a] >= 0)
    && (forall id | id in s.rows :: Known(s, s.rows[id].ctx))
    && (forall w | w in s.flights :: FlightTested(s, s.flights[w]))
  }

  ghost predicate WithinCap(s: State, a: Account)
    requires a in s.peak
  {
    Claimed(s, a) <= s.peak[a]
  }

  ghost predicate ClaimsFit(s: State) {
    InOrder(s) && forall a | a in s.peak :: WithinCap(s, a)
  }

  lemma NothingOwed(s: State, a: Account)
    requires InOrder(s)
    ensures Pending(s, a) >= 0 && Counter(s, a) >= 0
    ensures a !in s.anchor ==> Usage(s.rows, a) == 0
  {
    forall w | w in s.flights ensures HeldOn(a)(w, s.flights[w]) >= 0 {
      FlightOwesNothing(s, s.flights[w], a);
    }
    SumMapNonNegative(HeldOn(a), s.flights);
    if a !in s.anchor {
      forall id | id in s.rows ensures UsageOn(a)(id, s.rows[id]) == 0 {
        assert Known(s, s.rows[id].ctx);
      }
      SumOfZeros(UsageOn(a), s.rows);
    }
  }

  lemma FlightOwesNothing(s: State, f: Flight, a: Account)
    requires FlightTested(s, f)
    ensures Held(f, a) >= 0
  {
  }

  lemma ReconcileStaysInOrder(s: State, ctx: Context)
    requires InOrder(s) && ctx.runId in s.caps
    ensures InOrder(AfterReconcile(s, ctx))
  {
    var t := AfterReconcile(s, ctx);
    forall a
      ensures a in t.anchor <==> a in t.peak
      ensures a in t.counters || a in s.anchor ==> a in t.anchor
      ensures Get(t.counters, a) >= 0
    {
      if Touches(ctx, a) {
        ReconcileTouched(s, ctx, a);
        RoundingIsMonotone(0, Remaining(s, ctx, a));
      } else {
        ReconcileUntouched(s, ctx, a);
      }
    }
    forall a | a in t.counters ensures t.counters[a] >= 0 {
      assert Get(t.counters, a) >= 0;
    }
    StillInOrder(s, t);
  }

  /** A step that brings no unknown account into use leaves a state in order. */
  lemma StillInOrder(s: State, t: State)
    requires t.counters.Keys <= t.anchor.Keys == t.peak.Keys && s.anchor.Keys <= t.anchor.Keys
    requires forall a | a in t.counters :: t.counters[a] >= 0
    requires forall id | id in t.rows :: Known(s, t.rows[id].ctx)
    requires forall w | w in t.flights :: FlightTested(s, t.flights[w])
    ensures InOrder(t)
  {
  }

  lemma UsageFits(s: State, a: Account)
    requires ClaimsFit(s)
    ensures Usage(s.rows, a) <= Get(s.peak, a)
  {
    NothingOwed(s, a);
    if a in s.peak {
      assert WithinCap(s, a);
    }
  }

  lemma ReconcileFits(s: State, ctx: Context, a: Account)
    requires ClaimsFit(s) && ctx.runId in s.caps && Tested(s, Reconcile(ctx)) && a in AfterReconcile(s, ctx).peak
    ensures WithinCap(AfterReconcile(s, ctx), a)
  {
    var t := AfterReconcile(s, ctx);
    if Touches(ctx, a) {
      ReconcileTouched(s, ctx, a);
      UsageFits(s, a);
      ReconciledClaim(s, ctx, a);
      ReconcileFitsTouched(s, ctx, a, Rounded(Remaining(s, ctx, a)));
    } else {
      ReconcileUntouched(s, ctx, a);
      assert WithinCap(s, a);
      SameClaim(s, t, a);
    }
  }

  lemma SameClaim(s: State, t: State, a: Account)
    requires t.flights == s.flights && t.rows == s.rows && Counter(t, a) == Counter(s, a)
    ensures Claimed(t, a) == Claimed(s, a)
  {
  }

  lemma ReconcileFitsTouched(s: State, ctx: Context, a: Account, rounded: int)
    requires Usage(s.rows, a) <= Get(s.peak, a) && ctx.runId in s.caps
    requires Claimed(AfterReconcile(s, ctx), a) == rounded + Usage(s.rows, a) && rounded <= Remaining(s, ctx, a)
    ensures Claimed(AfterReconcile(s, ctx), a) <= PeakAt(s, ctx, a)
  {
    var cap, usage, left := CapFor(s.caps[ctx.runId], a), Usage(s.rows, a), Remaining(s, ctx, a);
    LeftOrUsed(cap, usage, Get(s.peak, a), left, rounded);
  }

  lemma LeftOrUsed(cap: int, usage: int, peak: int, left: int, rounded: int)
    requires left == Max(0, cap - usage) && rounded <= left && usage <= peak
    ensures rounded + usage <= Max(peak, cap)
  {
  }

  lemma CreditStarts(s: State, t: State, w: WorkerId, ctx: Context, cents: int)
    requires InOrder(s) && Known(s, ctx) && t.flights == WithCredit(s.flights, w, ctx, cents)
    requires t.counters == s.counters && t.anchor == s.anchor && t.peak == s.peak
    requires forall id | id in t.rows :: Known(s, t.rows[id].ctx)
    ensures InOrder(t)
  {
    forall v | v in t.flights ensures FlightTested(t, t.flights[v]) {
      if v != w {
        assert FlightTested(s, s.flights[v]);
      }
    }
  }

  lemma DecrementStaysInOrder(s: State, w: WorkerId, ctx: Context, amount: int)
    requires InOrder(s) && KeysPresent(s, ctx) && Affordable(s, ctx, UsdToCents(amount)) && TakesEnough(amount)
    ensures InOrder(AfterDecrement(s, w, ctx, amount))
  {
    var t := AfterDecrement(s, w, ctx, amount);
    assert Touches(ctx, AccountOf(ctx, 0)) && Touches(ctx, AccountOf(ctx, 1)) && Touches(ctx, AccountOf(ctx, 2));
    forall v | v in t.flights ensures FlightTested(s, t.flights[v]) {
      assert v == w || v in s.flights;
    }
    StillInOrder(s, t);
  }

  lemma InsertStaysInOrder(s: State, w: WorkerId, id: ResId)
    requires InOrder(s) && IsInserting(s, w)
    ensures InOrder(AfterInsert(s, w, id))
  {
    assert FlightTested(s, s.flights[w]);
    StillInOrder(s, AfterInsert(s, w, id));
  }

  lemma InsertFailsStaysInOrder(s: State, w: WorkerId)
    requires InOrder(s) && IsInserting(s, w)
    ensures InOrder(AfterInsertFails(s, w))
  {
    assert FlightTested(s, s.flights[w]);
    CreditStarts(s, AfterInsertFails(s, w), w, s.flights[w].ctx, UsdToCents(s.flights[w].amount));
  }

  lemma CloseStaysInOrder(s: State, w: WorkerId, id: ResId, r: Reservation)
    requires InOrder(s) && ClosesRow(s, id, r)
    ensures InOrder(AfterClose(s, w, id, r))
  {
    assert Known(s, s.rows[id].ctx);
    CreditStarts(s, AfterClose(s, w, id, r), w, r.ctx, UsdToCents(r.released));
  }

  lemma CreditStaysInOrder(s: State, w: WorkerId)
    requires InOrder(s) && IsCrediting(s, w)
    ensures InOrder(AfterCredit(s, w))
  {
    assert FlightTested(s, s.flights[w]);
    StillInOrder(s, AfterCredit(s, w));
  }

  lemma LoseCreditStaysInOrder(s: State, w: WorkerId)
    requires InOrder(s) && IsCrediting(s, w)
    ensures InOrder(AfterLoseCredit(s, w))
  {
    StillInOrder(s, AfterLoseCredit(s, w));
  }

  lemma EvictStaysInOrder(s: State, a: Account)
    requires InOrder(s) && a in s.counters
    ensures InOrder(AfterEvict(s, a))
  {
    StillInOrder(s, AfterEvict(s, a));
  }

  lemma InsertKeepsClaim(s: State, step: Step, a: Account)
    requires InOrder(s) && Enabled(s, step) && (step.Insert? || step.InsertFails?)
    ensures Claimed(Next(s, step), a) <= Claimed(s, a)
  {
    assert FlightTested(s, s.flights[step.worker]);
    if step.Insert? {
      InsertMovesClaim(s, step.worker, step.id, a);
    } else {
      InsertFailsMovesClaim(s, step.worker, a);
    }
  }

  lemma CloseKeepsClaim(s: State, step: Step, a: Account)
    requires Enabled(s, step) && Tested(s, step) && (step.Settle? || step.Release?)
    ensures Claimed(Next(s, step), a) <= Claimed(s, a)
  {
    if step.Settle? {
      CloseMovesClaim(s, step.worker, step.id, SettledRow(s.rows[step.id], step.actual), a);
    } else {
      CloseMovesClaim(s, step.worker, step.id, ReleasedRow(s.rows[step.id]), a);
    }
  }

  /** No step but a reconcile moves a claim up. */
  lemma StepKeepsClaim(s: State, step: Step, a: Account)
    requires InOrder(s) && Enabled(s, step) && Tested(s, step) && !step.Reconcile?
    ensures Claimed(Next(s, step), a) <= Claimed(s, a)
  {
    if step.Configure? {
      SameClaim(s, Next(s, step), a);
    } else if step.Decrement? {
      DecrementMovesNothing(s, step.worker, step.ctx, step.amount, a);
    } else if step.Credit? || step.LoseCredit? || step.Evict? {
      CreditingKeepsClaim(s, step, a);
    } else if step.Insert? || step.InsertFails? {
      InsertKeepsClaim(s, step, a);
    } else {
      CloseKeepsClaim(s, step, a);
    }
  }

  lemma CreditingKeepsClaim(s: State, step: Step, a: Account)
    requires InOrder(s) && Enabled(s, step) && (step.Credit? || step.LoseCredit? || step.Evict?)
    ensures Claimed(Next(s, step), a) <= Claimed(s, a)
  {
    match step
    case Credit(w) => CreditMovesNothing(s, w, a);
    case LoseCredit(w) =>
      assert FlightTested(s, s.flights[w]);
      LostCreditLowersClaim(s, w, a);
    case Evict(b) => assert Next(s, step).flights == s.flights;
  }

  lemma StepStaysInOrder(s: State, step: Step)
    requires InOrder(s) && Enabled(s, step) && Tested(s, step)
    ensures InOrder(Next(s, step))
  {
    match step
    case Configure(ctx, caps) => StillInOrder(s, Next(s, step));
    case Reconcile(ctx) => ReconcileStaysInOrder(s, ctx);
    case Decrement(w, ctx, amount) => DecrementStaysInOrder(s, w, ctx, amount);
    case Insert(w, id) => InsertStaysInOrder(s, w, id);
    case InsertFails(w) => InsertFailsStaysInOrder(s, w);
    case Settle(w, id, actual) => CloseStaysInOrder(s, w, id, SettledRow(s.rows[id], actual));
    case Release(w, id) => CloseStaysInOrder(s, w, id, ReleasedRow(s.rows[id]));
    case Credit(w) => CreditStaysInOrder(s, w);
    case LoseCredit(w) => LoseCreditStaysInOrder(s, w);
    case Evict(a) => EvictStaysInOrder(s, a);
  }

  lemma StepKeepsClaimsFit(s: State, step: Step)
    requires ClaimsFit(s) && Enabled(s, step) && Tested(s, step)
    ensures ClaimsFit(Next(s, step))
  {
    StepStaysInOrder(s, step);
    if !step.Reconcile? {
      OnlyReconcileMovesAnchors(s, step);
    }
    forall a | a in Next(s, step).peak ensures WithinCap(Next(s, step), a) {
      if step.Reconcile? {
        ReconcileFits(s, step.ctx, a);
      } else {
        StepKeepsClaim(s, step, a);
        assert WithinCap(s, a);
      }
    }
  }

  ghost predicate TestedRun(steps: seq<Step>, states: seq<State>) {
    IsRun(steps, states) && forall i | 0 <= i < |steps| :: Tested(states[i], steps[i])
  }

  lemma {:induction false} TestedRunFits(steps: seq<Step>, states: seq<State>, i: nat)
    requires TestedRun(steps, states) && i <= |steps|
    ensures ClaimsFit(states[i])
  {
    if i > 0 {
      TestedRunFits(steps, states, i - 1);
      assert Leads(states[i - 1], steps[i - 1], states[i]);
      StepKeepsClaimsFit(states[i - 1], steps[i - 1]);
    }
  }

  /** For arbitrary amounts: when every call passes its test, then at every point of the run, calls
      interleaved and credits lost, what is charged and reserved stays within the highest cap the
      account was reconciled with, and the counter offers no more than is left. */
  lemma TestedCallsKeepTheCaps(steps: seq<Step>, states: seq<State>, i: nat, a: Account)
    requires TestedRun(steps, states) && i <= |steps| && a in states[i].peak
    ensures 0 <= CentsToUsd(Counter(states[i], a)) <= states[i].peak[a] - Usage(states[i].rows, a)
  {
    TestedRunFits(steps, states, i);
    assert WithinCap(states[i], a);
    NothingOwed(states[i], a);
  }

  lemma WholeReservationIsTested(s: State, step: Step)
    requires step.Decrement? && WholeCents(step.amount) && step.amount >= 0
    ensures Tested(s, step)
  {
    RoundingKeepsWholeCents(step.amount);
  }

  lemma WaitingReconcileIsTested(s: State, step: Step)
    requires RowsOk(s) && WholeState(s) && step.Reconcile? && step.ctx.runId in s.caps && Quiescent(s, step.ctx)
    ensures Tested(s, step)
  {
    forall a | Touches(step.ctx, a)
      ensures Pending(s, a) == 0 && RoundsDown(Remaining(s, step.ctx, a))
    {
      WholeLeft(s, step.ctx, a);
    }
  }

  lemma WholeSettlementIsTested(s: State, step: Step)
    requires step.Settle? && WholeState(s) && IsActive(s, step.id)
    requires WholeCents(step.actual) && step.actual <= s.rows[step.id].reserved
    ensures Tested(s, step)
  {
    assert WholeRow(s.rows[step.id]);
    WholeDifference(s.rows[step.id].reserved, step.actual);
  }

  lemma WholeReleaseIsTested(s: State, step: Step)
    requires step.Release? && WholeState(s) && RowsOk(s) && IsActive(s, step.id)
    ensures Tested(s, step)
  {
    assert RowOk(s, s.rows[step.id]) && WholeRow(s.rows[step.id]);
    RoundingKeepsWholeCents(s.rows[step.id].reserved);
  }

  /** Whole cents and waiting reconciles pass every test. */
  lemma CarefulStepsAreTested(s: State, step: Step)
    requires Safe(s) && Enabled(s, step) && Careful(s, step)
    ensures Tested(s, step)
  {
    if step.Decrement? {
      WholeReservationIsTested(s, step);
    } else if step.Settle? {
      WholeSettlementIsTested(s, step);
    } else if step.Release? {
      WholeReleaseIsTested(s, step);
    } else if step.Reconcile? {
      WaitingReconcileIsTested(s, step);
    }
  }
}
