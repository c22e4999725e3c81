/** How far the cent counters drift from the durable tables when amounts are not whole cents. */
module BudgetRounding {
  import opened Money
  import opened Sums
  import opened BudgetProtocol
  import opened BudgetSafety
  import opened BudgetLifecycle

  const HALF_CENT := MICROS_PER_CENT / 2

  ghost function ErrorOf(r: Reservation): int {
    RoundedCommitted(r) - Committed(r)
  }

  ghost function ErrorOn(a: Account): (ResId, Reservation) -> int {
    (id: ResId, r: Reservation) => if Touches(r.ctx, a) then ErrorOf(r) else 0
  }

  ghost function OldErrorOn(a: Account, before: Rows): (ResId, Reservation) -> int {
    (id: ResId, r: Reservation) => if id in before && Touches(before[id].ctx, a) then ErrorOf(before[id]) else 0
  }

  /** What one reservation may add to the drift since `before`: a new one half a cent while it is
      active, a cent once it is settled, and nothing once it is released, for its two roundings
      cancel; an older one half a cent when it is closed. */
  function Slack(before: Rows, id: ResId, r: Reservation): int {
    if id in before then
      if before[id].status == Active && r.status != Active then HALF_CENT else 0
    else
      match r.status
      case Active => HALF_CENT
      case Settled(_) => 2 * HALF_CENT
      case Released => 0
  }

  ghost function SlackOn(a: Account, before: Rows): (ResId, Reservation) -> int {
    (id: ResId, r: Reservation) => if Touches(r.ctx, a) then Slack(before, id, r) else 0
  }

  lemma RowDrift(s: State, before: Rows, id: ResId, r: Reservation)
    requires RowOk(s, r) && (id in before ==> RowEvolves(before[id], r))
    ensures var earlier := if id in before then ErrorOf(before[id]) else 0;
            -Slack(before, id, r) <= ErrorOf(r) - earlier <= Slack(before, id, r)
  {
    RoundingIsNearest(r.reserved);
    RoundingIsNearest(r.released);
  }

  lemma ErrorsDrift(s: State, before: Rows, a: Account)
    requires RowsOk(s) && RowsEvolve(before, s.rows)
    ensures var drift := SumMap(ErrorOn(a), s.rows) - SumMap(ErrorOn(a), before);
            -SumMap(SlackOn(a, before), s.rows) <= drift <= SumMap(SlackOn(a, before), s.rows)
  {
    var now, earlier, slack := ErrorOn(a), OldErrorOn(a, before), SlackOn(a, before);
    SumMapExtend(ErrorOn(a), earlier, before, s.rows) by {
      forall id | id in before ensures earlier(id, s.rows[id]) == ErrorOn(a)(id, before[id]) {
        assert RowEvolves(before[id], s.rows[id]);
      }
    }
    forall id | id in s.rows
      ensures now(id, s.rows[id]) <= earlier(id, s.rows[id]) + slack(id, s.rows[id])
      ensures earlier(id, s.rows[id]) <= now(id, s.rows[id]) + slack(id, s.rows[id])
    {
      RowDrift(s, before, id, s.rows[id]);
    }
    SumOfBounds(now, earlier, slack, s.rows);
    SumOfBounds(earlier, now, slack, s.rows);
  }

  lemma {:induction false} SumOfBounds<K, V>(f: (K, V) -> int, g: (K, V) -> int, h: (K, V) -> int, m: map<K, V>)
    requires forall k | k in m :: f(k, m[k]) <= g(k, m[k]) + h(k, m[k])
    ensures SumMap(f, m) <= SumMap(g, m) + SumMap(h, m)
    decreases |m|
  {
    if m != map[] {
      var k :| k in m;
      SumMapSplit(f, m, k);
      SumMapSplit(g, m, k);
      SumMapSplit(h, m, k);
      SumOfBounds(f, g, h, m - {k});
    }
  }

  lemma ErrorIsTheGap(rows: Rows, a: Account)
    ensures RoundedUsage(rows, a) == Usage(rows, a) + SumMap(ErrorOn(a), rows)
  {
    SumMapAdd(RoundedUsageOn(a), UsageOn(a), ErrorOn(a), rows);
  }

  /** No reconcile of account a among the steps from k on. */
  predicate Unreconciled(steps: seq<Step>, k: nat, i: nat, a: Account)
    requires k <= i <= |steps|
  {
    forall j | k <= j < i && steps[j].Reconcile? :: !Touches(steps[j].ctx, a)
  }

  lemma {:induction false} AnchorStays(steps: seq<Step>, states: seq<State>, k: nat, i: nat, a: Account)
    requires IsRun(steps, states) && k <= i <= |steps| && Unreconciled(steps, k, i, a) && a in states[k].anchor
    ensures a in states[i].anchor && states[i].anchor[a] == states[k].anchor[a]
    decreases i
  {
    if k < i {
      AnchorStays(steps, states, k, i - 1, a);
      var s, step := states[i - 1], steps[i - 1];
      assert Leads(s, step, states[i]);
      if step.Reconcile? {
        ReconcileUntouched(s, step.ctx, a);
      } else {
        OnlyReconcileMovesAnchors(s, step);
      }
    }
  }

  lemma {:induction false} RunKeepsInv(steps: seq<Step>, states: seq<State>, i: nat)
    requires IsRun(steps, states) && i <= |steps| && forall j | 0 <= j < i :: NonNegative(steps[j])
    ensures Inv(states[i])
  {
    if i > 0 {
      RunKeepsInv(steps, states, i - 1);
      assert Leads(states[i - 1], steps[i - 1], states[i]);
      StepKeepsInv(states[i - 1], steps[i - 1]);
    }
  }

  /** What the counter of a offers, will be credited and has lost, in money. */
  ghost function Offered(s: State, a: Account): int {
    CentsToUsd(Counter(s, a) + Pending(s, a) + Get(s.lost, a))
  }

  lemma OfferedIsAnchored(steps: seq<Step>, states: seq<State>, k: nat, i: nat, ctx: Context, a: Account)
    requires IsRun(steps, states) && k < i <= |steps| && (forall j | 0 <= j < i :: NonNegative(steps[j]))
    requires steps[k] == Reconcile(ctx) && Touches(ctx, a) && Unreconciled(steps, k + 1, i, a)
    requires Enabled(states[k], steps[k])
    ensures Inv(states[i]) && Offered(states[i], a) + RoundedUsage(states[i].rows, a) == AnchorAt(states[k], ctx, a)
  {
    assert Leads(states[k], steps[k], states[k + 1]);
    ReconcileTouched(states[k], ctx, a);
    RunKeepsInv(steps, states, i);
    AnchorStays(steps, states, k + 1, i, a);
    assert Conserved(states[i], a);
  }

  /** For arbitrary amounts: after a reconcile that found account a quiet and within its cap,
      and until the next one, what the counter stands for differs from what the tables leave by
      at most half a cent plus the slack of the reservations since. */
  lemma CounterStaysNearTheTables(steps: seq<Step>, states: seq<State>, k: nat, i: nat, ctx: Context, a: Account)
    requires IsRun(steps, states) && k < i <= |steps| && (forall j | 0 <= j < i :: NonNegative(steps[j]))
    requires steps[k] == Reconcile(ctx) && Touches(ctx, a) && Unreconciled(steps, k + 1, i, a)
    requires Enabled(states[k], steps[k]) && Pending(states[k], a) == 0
    requires Usage(states[k].rows, a) <= CapFor(states[k].caps[ctx.runId], a)
    ensures var left := CapFor(states[k].caps[ctx.runId], a) - Usage(states[i].rows, a);
            var bound := HALF_CENT + SumMap(SlackOn(a, states[k].rows), states[i].rows);
            -bound <= Offered(states[i], a) - left <= bound
  {
    var s, t := states[k], states[i];
    OfferedIsAnchored(steps, states, k, i, ctx, a);
    RunEvolvesRows(steps, states, k, i);
    ErrorsDrift(t, s.rows, a);
    ErrorIsTheGap(s.rows, a);
    ErrorIsTheGap(t.rows, a);
    RoundingIsNearest(Remaining(s, ctx, a));
  }

  /** So a cap can be overspent by no more than that slack. */
  lemma OverspendingIsBoundedByRounding(steps: seq<Step>, states: seq<State>, k: nat, i: nat, ctx: Context, a: Account)
    requires IsRun(steps, states) && k < i <= |steps| && (forall j | 0 <= j < i :: NonNegative(steps[j]))
    requires steps[k] == Reconcile(ctx) && Touches(ctx, a) && Unreconciled(steps, k + 1, i, a)
    requires Enabled(states[k], steps[k]) && Pending(states[k], a) == 0
    requires Usage(states[k].rows, a) <= CapFor(states[k].caps[ctx.runId], a)
    ensures Usage(states[i].rows, a)
         <= CapFor(states[k].caps[ctx.runId], a) + HALF_CENT + SumMap(SlackOn(a, states[k].rows), states[i].rows)
  {
    CounterStaysNearTheTables(steps, states, k, i, ctx, a);
    RunKeepsInv(steps, states, i);
    PendingIsNonNegative(states[i], a);
  }
}
