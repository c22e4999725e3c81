/** What the conservation law buys: no cap is exceeded by any run of whole-cent amounts in
    which a reconcile waits for the calls on its counters, and exactly that wait keeps what the
    counters account for within the caps. */
module BudgetSafety {
  import opened Common
  import opened Money
  import opened Sums
  import opened BudgetProtocol

  // ------------------------------------------------ whole cents

  predicate WholeCaps(caps: Caps) {
    WholeCents(caps.ticket) && WholeCents(caps.daily) && WholeCents(caps.monthly)
  }

  predicate WholeCentStep(step: Step) {
    match step
    case Configure(_, caps) => WholeCaps(caps)
    case Decrement(_, _, amount) => WholeCents(amount)
    case Settle(_, _, actual) => WholeCents(actual)
    case _ => true
  }

  predicate WholeRow(r: Reservation) {
    WholeCents(r.reserved) && WholeCents(r.released) && (r.status.Settled? ==> WholeCents(r.status.actual))
  }

  ghost predicate WholeState(s: State) {
    && (forall run | run in s.caps :: WholeCaps(s.caps[run]))
    && (forall id | id in s.rows :: WholeRow(s.rows[id]))
    && (forall w | w in s.flights && s.flights[w].Inserting? :: WholeCents(s.flights[w].amount))
  }

  lemma StepKeepsWholeCents(s: State, step: Step)
    requires WholeState(s) && Enabled(s, step) && WholeCentStep(step)
    ensures WholeState(Next(s, step))
  {
  }

  lemma WholeRowRoundsExactly(s: State, r: Reservation)
    requires RowOk(s, r) && WholeRow(r)
    ensures RoundedCommitted(r) == Committed(r) && WholeCents(Committed(r))
  {
    RoundingKeepsWholeCents(r.reserved);
    RoundingKeepsWholeCents(r.released);
  }

  lemma WholeSum(x: int, y: int)
    requires WholeCents(x) && WholeCents(y)
    ensures WholeCents(x + y)
  {
  }

  lemma {:induction false} SumOfWholeCents<K, V>(f: (K, V) -> int, m: map<K, V>)
    requires forall k | k in m :: WholeCents(f(k, m[k]))
    ensures WholeCents(SumMap(f, m))
    decreases |m|
  {
    if m != map[] {
      var k :| k in m;
      SumMapSplit(f, m, k);
      SumOfWholeCents(f, m - {k});
      WholeSum(f(k, m[k]), SumMap(f, m - {k}));
    }
  }

  /** In whole cents the counters see every row at its durable value. */
  lemma WholeCentsRoundExactly(s: State, a: Account)
    requires RowsOk(s) && WholeState(s)
    ensures RoundedUsage(s.rows, a) == Usage(s.rows, a) && WholeCents(Usage(s.rows, a))
  {
    var f, g := RoundedUsageOn(a), UsageOn(a);
    forall id | id in s.rows ensures f(id, s.rows[id]) == g(id, s.rows[id]) && WholeCents(g(id, s.rows[id])) {
      WholeRowRoundsExactly(s, s.rows[id]);
    }
    SumMapEqual(f, g, s.rows);
    SumOfWholeCents(g, s.rows);
  }

  lemma WholeDifference(x: int, y: int)
    requires WholeCents(x) && WholeCents(y)
    ensures WholeCents(x - y) && Rounded(x - y) == x - y
  {
    RoundingKeepsWholeCents(x - y);
  }

  lemma WholeLeft(s: State, ctx: Context, a: Account)
    requires RowsOk(s) && WholeState(s) && ctx.runId in s.caps
    ensures WholeCents(CapFor(s.caps[ctx.runId], a)) && WholeCents(Usage(s.rows, a))
    ensures Rounded(Remaining(s, ctx, a)) == Remaining(s, ctx, a)
  {
    WholeCentsRoundExactly(s, a);
    assert WholeCaps(s.caps[ctx.runId]);
    WholeDifference(CapFor(s.caps[ctx.runId], a), Usage(s.rows, a));
  }

  lemma PendingIsNonNegative(s: State, a: Account)
    requires FlightsOk(s)
    ensures Pending(s, a) >= 0
  {
    forall w | w in s.flights ensures HeldOn(a)(w, s.flights[w]) >= 0 {
      FlightHoldsNoDebt(s, s.flights[w], a);
    }
    SumMapNonNegative(HeldOn(a), s.flights);
  }

  lemma FlightHoldsNoDebt(s: State, f: Flight, a: Account)
    requires FlightOk(s, f)
    ensures Held(f, a) >= 0
  {
    if f.Inserting? {
      RoundingIsMonotone(0, f.amount);
    }
  }

  /** Nothing counts against an account no reconcile has ever set. */
  lemma UnknownAccountIsUnused(s: State, a: Account)
    requires RowsOk(s) && FlightsOk(s) && a !in s.anchor
    ensures Usage(s.rows, a) == 0 && Pending(s, a) == 0
  {
    forall id | id in s.rows ensures UsageOn(a)(id, s.rows[id]) == 0 {
      assert RowOk(s, s.rows[id]);
    }
    forall w | w in s.flights ensures HeldOn(a)(w, s.flights[w]) == 0 {
      assert FlightOk(s, s.flights[w]);
    }
    SumOfZeros(UsageOn(a), s.rows);
    SumOfZeros(HeldOn(a), s.flights);
  }

  lemma {:induction false} SumOfZeros<K, V>(f: (K, V) -> int, m: map<K, V>)
    requires forall k | k in m :: f(k, m[k]) == 0
    ensures SumMap(f, m) == 0
    decreases |m|
  {
    if m != map[] {
      var k :| k in m;
      SumMapSplit(f, m, k);
      SumOfZeros(f, m - {k});
    }
  }

  // ------------------------------------------------ the caps hold

  /** What a counter accounts for stays within the highest cap it was reconciled with. */
  ghost predicate WithinPeak(s: State, a: Account)
    requires a in s.anchor && a in s.peak
  {
    s.anchor[a] <= s.peak[a]
  }

  ghost predicate Safe(s: State) {
    Inv(s) && WholeState(s) && forall a | a in s.anchor :: WithinPeak(s, a)
  }

  /** The three counters of ctx are not touched by a call in progress. */
  ghost predicate Quiescent(s: State, ctx: Context) {
    forall a | Touches(ctx, a) :: Pending(s, a) == 0
  }

  ghost predicate Careful(s: State, step: Step) {
    && NonNegative(step)
    && WholeCentStep(step)
    && (step.Reconcile? ==> Quiescent(s, step.ctx))
  }

  /** In a safe state, what is spent or held, what the counter still offers, what is in flight
      and what was lost fit under the cap together. */
  lemma SafeStateFitsTheCap(s: State, a: Account)
    requires Safe(s) && a in s.anchor
    ensures Counter(s, a) >= 0 && Pending(s, a) >= 0 && s.lost[a] >= 0
    ensures CentsToUsd(Counter(s, a) + Pending(s, a) + s.lost[a]) + Usage(s.rows, a) <= s.peak[a]
  {
    assert Conserved(s, a) && WithinPeak(s, a);
    WholeCentsRoundExactly(s, a);
    PendingIsNonNegative(s, a);
  }

  lemma CapOrUsage(cap: int, usage: int)
    requires WholeCents(cap) && WholeCents(usage)
    ensures Rounded(Max(0, cap - usage)) + usage == Max(cap, usage)
  {
    RoundingKeepsWholeCents(Max(0, cap - usage));
  }

  /** What a reconcile makes a counter account for. */
  lemma ReconciledAnchor(s: State, ctx: Context, a: Account)
    requires RowsOk(s) && WholeState(s) && ctx.runId in s.caps && Touches(ctx, a)
    ensures AnchorAt(s, ctx, a) == Max(CapFor(s.caps[ctx.runId], a), Usage(s.rows, a)) + CentsToUsd(Pending(s, a))
  {
    WholeCentsRoundExactly(s, a);
    assert WholeCaps(s.caps[ctx.runId]);
    CapOrUsage(CapFor(s.caps[ctx.runId], a), Usage(s.rows, a));
  }

  lemma QuiescentReconcileIsSafe(s: State, ctx: Context)
    requires Safe(s) && ctx.runId in s.caps && Quiescent(s, ctx)
    ensures forall a | a in AfterReconcile(s, ctx).anchor ::
              a in AfterReconcile(s, ctx).peak && WithinPeak(AfterReconcile(s, ctx), a)
  {
    var t := AfterReconcile(s, ctx);
    forall a | a in t.anchor ensures a in t.peak && WithinPeak(t, a) {
      if Touches(ctx, a) {
        ReconciledWithinPeak(s, ctx, a);
      } else {
        assert WithinPeak(s, a);
      }
    }
  }

  lemma ReconciledWithinPeak(s: State, ctx: Context, a: Account)
    requires Safe(s) && ctx.runId in s.caps && Touches(ctx, a) && Pending(s, a) == 0
    ensures AnchorAt(s, ctx, a) <= PeakAt(s, ctx, a)
  {
    ReconciledAnchor(s, ctx, a);
    if a in s.anchor {
      SafeStateFitsTheCap(s, a);
    } else {
      UnknownAccountIsUnused(s, a);
    }
  }

  lemma StepKeepsSafe(s: State, step: Step)
    requires Safe(s) && Enabled(s, step) && Careful(s, step)
    ensures Safe(Next(s, step))
  {
    StepKeepsInv(s, step);
    StepKeepsWholeCents(s, step);
    if step.Reconcile? {
      QuiescentReconcileIsSafe(s, step.ctx);
    } else {
      OnlyReconcileMovesAnchors(s, step);
      forall a | a in Next(s, step).anchor ensures WithinPeak(Next(s, step), a) {
        assert WithinPeak(s, a);
      }
    }
  }

  lemma OnlyReconcileMovesAnchors(s: State, step: Step)
    requires Enabled(s, step) && !step.Reconcile?
    ensures Next(s, step).anchor == s.anchor && Next(s, step).peak == s.peak
  {
  }

  ghost predicate CarefulRun(steps: seq<Step>, states: seq<State>) {
    IsRun(steps, states) && forall i | 0 <= i < |steps| :: Careful(states[i], steps[i])
  }

  lemma {:induction false} CarefulRunsAreSafe(steps: seq<Step>, states: seq<State>, i: nat)
    requires CarefulRun(steps, states) && i <= |steps|
    ensures Safe(states[i])
  {
    if i > 0 {
      CarefulRunsAreSafe(steps, states, i - 1);
      assert Leads(states[i - 1], steps[i - 1], states[i]);
      StepKeepsSafe(states[i - 1], steps[i - 1]);
    }
  }

  /** No run exceeds a cap: at every point of it, whatever calls interleave and whatever credits
      are lost or counters evicted, active reservations and charges of an account stay within
      the highest cap it was reconciled with, and a counter offers no more than is left. */
  lemma NoCapIsExceeded(steps: seq<Step>, states: seq<State>, i: nat, a: Account)
    requires CarefulRun(steps, states) && i <= |steps| && a in states[i].anchor
    ensures a in states[i].peak
    ensures 0 <= CentsToUsd(Counter(states[i], a)) <= states[i].peak[a] - Usage(states[i].rows, a)
  {
    CarefulRunsAreSafe(steps, states, i);
    SafeStateFitsTheCap(states[i], a);
  }

  /** One of the first i steps configures v as the cap of a. */
  ghost predicate CapConfigured(steps: seq<Step>, i: nat, a: Account, v: int) {
    exists j | 0 <= j < i && j < |steps| && steps[j].Configure? :: CapFor(steps[j].caps, a) == v
  }

  /** The peak is a cap that was configured, or zero where no cap was ever positive. */
  lemma {:induction false} PeakIsAConfiguredCap(steps: seq<Step>, states: seq<State>, i: nat, a: Account)
    requires IsRun(steps, states) && i <= |steps|
    ensures Get(states[i].peak, a) == 0 || CapConfigured(steps, i, a, Get(states[i].peak, a))
    decreases i
  {
    if i > 0 {
      assert Leads(states[i - 1], steps[i - 1], states[i]);
      PeakIsAConfiguredCap(steps, states, i - 1, a);
      PeakMoves(states[i - 1], steps[i - 1], a);
      if steps[i - 1].Reconcile? {
        ReconciledCapWasConfigured(steps, states, i - 1, a);
      }
    }
  }

  lemma ReconciledCapWasConfigured(steps: seq<Step>, states: seq<State>, i: nat, a: Account)
    requires IsRun(steps, states) && i < |steps| && steps[i].Reconcile? && Enabled(states[i], steps[i])
    ensures CapConfigured(steps, i + 1, a, CapFor(states[i].caps[steps[i].ctx.runId], a))
  {
    CapsWereConfigured(steps, states, i, steps[i].ctx.runId);
  }

  lemma PeakMoves(s: State, step: Step, a: Account)
    requires Enabled(s, step)
    ensures step.Reconcile? && Touches(step.ctx, a) ==>
              Get(Next(s, step).peak, a) == Max(Get(s.peak, a), CapFor(s.caps[step.ctx.runId], a))
    ensures !(step.Reconcile? && Touches(step.ctx, a)) ==>
              Get(Next(s, step).peak, a) == Get(s.peak, a) && (a in Next(s, step).peak ==> a in s.peak)
  {
    if !step.Reconcile? {
      OnlyReconcileMovesAnchors(s, step);
    } else if Touches(step.ctx, a) {
      ReconcileTouched(s, step.ctx, a);
    } else {
      ReconcileUntouched(s, step.ctx, a);
    }
  }

  lemma {:induction false} CapsWereConfigured(steps: seq<Step>, states: seq<State>, i: nat, run: string)
    requires IsRun(steps, states) && i <= |steps| && run in states[i].caps
    ensures exists j :: 0 <= j < i && steps[j].Configure? && steps[j].caps == states[i].caps[run]
    decreases i
  {
    assert i > 0;
    assert Leads(states[i - 1], steps[i - 1], states[i]);
    var step := steps[i - 1];
    if !(step.Configure? && step.ctx.runId == run) {
      OnlyConfigureChangesCaps(states[i - 1], step);
      CapsWereConfigured(steps, states, i - 1, run);
    }
  }

  lemma OnlyConfigureChangesCaps(s: State, step: Step)
    requires Enabled(s, step)
    ensures !step.Configure? ==> Next(s, step).caps == s.caps
    ensures step.Configure? ==> Next(s, step).caps == s.caps[step.ctx.runId := step.caps]
  {
  }

  // ------------------------------------------------ the wait is exactly what is needed

  /** Caps that no reconcile has been above, and that are not yet overspent. */
  ghost predicate AtItsCap(s: State, ctx: Context) {
    && ctx.runId in s.caps
    && forall a | Touches(ctx, a) ::
         Usage(s.rows, a) <= CapFor(s.caps[ctx.runId], a) && Get(s.peak, a) <= CapFor(s.caps[ctx.runId], a)
  }

  /** With a fixed cap, reconciling keeps what the counters account for within the peaks if and only
      if no call on the three counters is in progress. */
  lemma ReconcileIsSafeIffQuiescent(s: State, ctx: Context)
    requires Safe(s) && AtItsCap(s, ctx)
    ensures Safe(AfterReconcile(s, ctx)) <==> Quiescent(s, ctx)
  {
    if Quiescent(s, ctx) {
      StepKeepsSafe(s, Reconcile(ctx));
    }
    if Safe(AfterReconcile(s, ctx)) {
      forall a | Touches(ctx, a) ensures Pending(s, a) == 0 {
        SafeReconcileFoundNothingPending(s, ctx, a);
      }
    }
  }

  lemma SafeReconcileFoundNothingPending(s: State, ctx: Context, a: Account)
    requires RowsOk(s) && FlightsOk(s) && WholeState(s) && AtItsCap(s, ctx) && Touches(ctx, a)
    requires var t := AfterReconcile(s, ctx); a in t.anchor && a in t.peak && WithinPeak(t, a)
    ensures Pending(s, a) == 0
  {
    ReconcileTouched(s, ctx, a);
    ReconciledAnchor(s, ctx, a);
    PendingIsNonNegative(s, a);
  }
}
