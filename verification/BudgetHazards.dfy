/** Two runs of the budget ledger that overspend a cap in whole cents, one for each of the other side
    conditions of the safety theorem: a reconcile that does not wait, and a reservation of a negative
    amount. `BudgetOverspend` has the runs in fractions of a cent. */
module BudgetHazards {
  import opened Money
  import opened BudgetProtocol
  import opened BudgetRuns

  const ONE_CENT := Equal(10000)

  lemma OpeningSteps(ctx: Context) returns (t: State)
    ensures EndsIn([] + [Configure(ctx, ONE_CENT)] + [Reconcile(ctx)], t)
    ensures Stands(t, ctx, 10000, 1) && t.rows == map[] && t.flights == map[]
  {
    assert IsRun([], [EMPTY]);
    var s := AfterConfigure(EMPTY, ctx, ONE_CENT);
    EndsInStep([], EMPTY, Configure(ctx, ONE_CENT), s);
    t := ReconcilesAgain([] + [Configure(ctx, ONE_CENT)], s, ctx);
  }

  lemma ReconcilesAgain(steps: seq<Step>, s: State, ctx: Context) returns (t: State)
    requires EndsIn(steps, s) && s.rows == map[] && ctx.runId in s.caps && s.caps[ctx.runId] == ONE_CENT
    requires forall a | Touches(ctx, a) :: Get(s.peak, a) <= 10000
    ensures EndsIn(steps + [Reconcile(ctx)], t)
    ensures Stands(t, ctx, 10000, 1) && t.rows == map[] && t.flights == s.flights
  {
    t := AfterReconcile(s, ctx);
    ReconciledStands(s, ctx, 10000);
    EndsInStep(steps, s, Reconcile(ctx), t);
  }

  /** One reservation of `amount` from a quiet ledger. */
  lemma Reserves(steps: seq<Step>, s: State, w: WorkerId, ctx: Context, id: ResId, amount: int, n: int)
    returns (t: State, u: State)
    requires EndsIn(steps, s)
    requires Stands(s, ctx, 10000, n) && s.flights == map[] && id !in s.rows && UsdToCents(amount) <= n
    ensures EndsIn(steps + [Decrement(w, ctx, amount)], t)
    ensures EndsIn(steps + [Decrement(w, ctx, amount)] + [Insert(w, id)], u)
    ensures Stands(t, ctx, 10000, n - UsdToCents(amount)) && t.rows == s.rows
    ensures t.flights == map[w := Inserting(ctx, amount)]
    ensures Stands(u, ctx, 10000, n - UsdToCents(amount)) && u.flights == map[]
    ensures u.rows == s.rows[id := Reservation(ctx, amount, Active, 0)]
  {
    t := AfterDecrement(s, w, ctx, amount);
    DecrementedStands(s, w, ctx, amount, 10000, n);
    EndsInStep(steps, s, Decrement(w, ctx, amount), t);
    u := Inserts(steps + [Decrement(w, ctx, amount)], t, w, ctx, id, amount, n - UsdToCents(amount));
  }

  lemma Inserts(steps: seq<Step>, s: State, w: WorkerId, ctx: Context, id: ResId, amount: int, n: int)
    returns (t: State)
    requires EndsIn(steps, s)
    requires Stands(s, ctx, 10000, n) && s.flights == map[w := Inserting(ctx, amount)] && id !in s.rows
    ensures EndsIn(steps + [Insert(w, id)], t) && Stands(t, ctx, 10000, n) && t.flights == map[]
    ensures t.rows == s.rows[id := Reservation(ctx, amount, Active, 0)]
  {
    t := AfterInsert(s, w, id);
    EndsInStep(steps, s, Insert(w, id), t);
  }

  lemma ReleasesNegative(steps: seq<Step>, s: State, w: WorkerId, ctx: Context, id: ResId, n: int) returns (t: State)
    requires EndsIn(steps, s)
    requires Stands(s, ctx, 10000, n) && s.flights == map[] && s.rows == map[id := Reservation(ctx, -10000, Active, 0)]
    ensures EndsIn(steps + [Release(w, id)], t) && Stands(t, ctx, 10000, n) && t.flights == map[]
    ensures t.rows == map[id := Reservation(ctx, -10000, Released, -10000)]
  {
    t := AfterClose(s, w, id, ReleasedRow(s.rows[id]));
    EndsInStep(steps, s, Release(w, id), t);
  }

  ghost predicate Overspent(s: State, ctx: Context) {
    forall a | Touches(ctx, a) :: Usage(s.rows, a) > CapFor(ONE_CENT, a)
  }

  /** The second reconcile falls between the first call's decrement and its insert. */
  function UnwaitedReconcile(ctx: Context, w: WorkerId, id: ResId, jd: ResId): seq<Step> {
    [] + [Configure(ctx, ONE_CENT)] + [Reconcile(ctx)] + [Decrement(w, ctx, 10000)] + [Reconcile(ctx)] + [Insert(w, id)]
    + [Decrement(w, ctx, 10000)] + [Insert(w, jd)]
  }

  /** A reconcile between the decrement and the insert of a call gives its cents away twice:
      every amount is a positive whole cent, and the one-cent cap ends up overspent. */
  lemma UnwaitedReconcileOverspends(ctx: Context, w: WorkerId, id: ResId, jd: ResId) returns (s: State)
    requires id != jd
    ensures EndsIn(UnwaitedReconcile(ctx, w, id, jd), s) && Overspent(s, ctx)
  {
    var steps := [] + [Configure(ctx, ONE_CENT)] + [Reconcile(ctx)];
    s := OpeningSteps(ctx);
    var s1, _ := Reserves(steps, s, w, ctx, id, 10000, 1);
    steps := steps + [Decrement(w, ctx, 10000)];
    var s2 := ReconcilesAgain(steps, s1, ctx);
    steps := steps + [Reconcile(ctx)];
    var s3 := Inserts(steps, s2, w, ctx, id, 10000, 1);
    steps := steps + [Insert(w, id)];
    var _, s4 := Reserves(steps, s3, w, ctx, jd, 10000, 1);
    s := s4;
    forall a | Touches(ctx, a) ensures Usage(s.rows, a) > CapFor(ONE_CENT, a) {
      UsageOfTwo(id, jd, Reservation(ctx, 10000, Active, 0), Reservation(ctx, 10000, Active, 0), a);
    }
  }

  function NegativeReservation(ctx: Context, w: WorkerId, id: ResId, jd: ResId): seq<Step> {
    [] + [Configure(ctx, ONE_CENT)] + [Reconcile(ctx)] + [Decrement(w, ctx, -10000)] + [Insert(w, id)]
    + [Release(w, id)]
    + [Decrement(w, ctx, 20000)] + [Insert(w, jd)]
  }

  /** Reserving minus one cent adds a cent to the counters, and releasing it takes nothing back:
      the calls run one after the other, and the one-cent cap ends up overspent. */
  lemma NegativeReservationOverspends(ctx: Context, w: WorkerId, id: ResId, jd: ResId) returns (s: State)
    requires id != jd
    ensures EndsIn(NegativeReservation(ctx, w, id, jd), s) && Overspent(s, ctx)
  {
    var steps := [] + [Configure(ctx, ONE_CENT)] + [Reconcile(ctx)];
    s := OpeningSteps(ctx);
    var _, s1 := Reserves(steps, s, w, ctx, id, -10000, 1);
    steps := steps + [Decrement(w, ctx, -10000)] + [Insert(w, id)];
    var s2 := ReleasesNegative(steps, s1, w, ctx, id, 2);
    steps := steps + [Release(w, id)];
    var _, s3 := Reserves(steps, s2, w, ctx, jd, 20000, 2);
    s := s3;
    forall a | Touches(ctx, a) ensures Usage(s.rows, a) > CapFor(ONE_CENT, a) {
      UsageOfTwo(id, jd, Reservation(ctx, -10000, Released, -10000), Reservation(ctx, 20000, Active, 0), a);
    }
  }
}
