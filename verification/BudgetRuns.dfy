/** Pieces that runs of the budget ledger are put together from: counters that stand at a number of
    cents under equal caps, and what a single step makes of them. */
module BudgetRuns {
  import opened Money
  import opened Sums
  import opened BudgetProtocol

  function Equal(cap: int): Caps {
    Caps(cap, cap, cap)
  }

  /** The three caps of ctx are `cap`, so is the highest one ever reconciled, and the counters hold
      n cents. */
  ghost predicate Stands(s: State, ctx: Context, cap: int, n: int) {
    && ctx.runId in s.caps && s.caps[ctx.runId] == Equal(cap)
    && forall a | Touches(ctx, a) :: a in s.counters && s.counters[a] == n && a in s.peak && s.peak[a] == cap
  }

  /** A reconcile that finds no rows, under caps no earlier one was above. */
  lemma ReconciledStands(s: State, ctx: Context, cap: int)
    requires s.rows == map[] && ctx.runId in s.caps && s.caps[ctx.runId] == Equal(cap) && cap >= 0
    requires forall a | Touches(ctx, a) :: Get(s.peak, a) <= cap
    ensures Stands(AfterReconcile(s, ctx), ctx, cap, UsdToCents(cap))
    ensures AfterReconcile(s, ctx).rows == map[] && AfterReconcile(s, ctx).flights == s.flights
  {
    forall a | Touches(ctx, a) ensures Remaining(s, ctx, a) == cap && PeakAt(s, ctx, a) == cap {
      NoUsage(s, ctx, cap, a);
    }
    TouchedStands(s, ctx, cap, UsdToCents(cap));
  }

  lemma ReconciledAgain(s: State, ctx: Context, cap: int, n: int)
    requires Stands(s, ctx, cap, n) && s.rows == map[] && cap >= 0
    ensures Stands(AfterReconcile(s, ctx), ctx, cap, UsdToCents(cap))
  {
    ReconciledStands(s, ctx, cap);
  }

  lemma NoUsage(s: State, ctx: Context, cap: int, a: Account)
    requires s.rows == map[] && ctx.runId in s.caps && s.caps[ctx.runId] == Equal(cap) && cap >= 0
    ensures Usage(s.rows, a) == 0 && Remaining(s, ctx, a) == cap
  {
    assert CapFor(Equal(cap), a) == cap;
  }

  lemma TouchedStands(s: State, ctx: Context, cap: int, n: int)
    requires ctx.runId in s.caps && s.caps[ctx.runId] == Equal(cap)
    requires forall a | Touches(ctx, a) :: UsdToCents(Remaining(s, ctx, a)) == n && PeakAt(s, ctx, a) == cap
    ensures Stands(AfterReconcile(s, ctx), ctx, cap, n)
  {
    var t := AfterReconcile(s, ctx);
    forall a | Touches(ctx, a) ensures a in t.counters && t.counters[a] == n && a in t.peak && t.peak[a] == cap {
      ReconcileTouched(s, ctx, a);
    }
  }

  lemma DecrementedStands(s: State, w: WorkerId, ctx: Context, amount: int, cap: int, n: int)
    requires Stands(s, ctx, cap, n) && w !in s.flights && UsdToCents(amount) <= n
    ensures Enabled(s, Decrement(w, ctx, amount))
    ensures Stands(AfterDecrement(s, w, ctx, amount), ctx, cap, n - UsdToCents(amount))
  {
  }

  lemma UsageOfOne(id: ResId, r: Reservation, a: Account)
    requires Touches(r.ctx, a)
    ensures Usage(map[id := r], a) == Committed(r)
  {
    var none: Rows := map[];
    SumMapInsert(UsageOn(a), none, id, r);
  }

  lemma UsageOfTwo(id: ResId, jd: ResId, q: Reservation, r: Reservation, a: Account)
    requires id != jd && Touches(q.ctx, a) && Touches(r.ctx, a)
    ensures Usage(map[id := q][jd := r], a) == Committed(q) + Committed(r)
  {
    UsageOfOne(id, q, a);
    SumMapInsert(UsageOn(a), map[id := q], jd, r);
  }

  // ------------------------------------------------ runs with their steps

  /** s is where some run under these steps ends. */
  ghost predicate EndsIn(steps: seq<Step>, s: State) {
    exists states :: IsRun(steps, states) && states[|steps|] == s
  }

  lemma RunGoesOn(steps: seq<Step>, states: seq<State>, step: Step, t: State)
    requires IsRun(steps, states) && Leads(states[|steps|], step, t)
    ensures IsRun(steps + [step], states + [t])
  {
    var steps', states' := steps + [step], states + [t];
    forall i | 0 <= i < |steps'| ensures Leads(states'[i], steps'[i], states'[i + 1]) {
      if i < |steps| {
        assert Leads(states[i], steps[i], states[i + 1]);
      }
    }
  }

  lemma EndsInStep(steps: seq<Step>, s: State, step: Step, t: State)
    requires EndsIn(steps, s) && Leads(s, step, t)
    ensures EndsIn(steps + [step], t)
  {
    var states :| IsRun(steps, states) && states[|steps|] == s;
    RunGoesOn(steps, states, step, t);
    assert (states + [t])[|steps + [step]|] == t;
  }
}
