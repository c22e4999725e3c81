/** What happens to one reservation over a run, and where its money goes. */
module BudgetLifecycle {
  import opened Sums
  import opened BudgetProtocol

  /** A row never disappears, keeps its context and amount, and is settled or released at most
      once: once it is closed it is frozen. */
  ghost predicate RowEvolves(before: Reservation, after: Reservation) {
    && after.ctx == before.ctx
    && after.reserved == before.reserved
    && (before.status != Active ==> after == before)
  }

  ghost predicate RowsEvolve(before: Rows, after: Rows) {
    before.Keys <= after.Keys && forall id | id in before :: RowEvolves(before[id], after[id])
  }

  lemma StepEvolvesRows(s: State, step: Step)
    requires Enabled(s, step)
    ensures RowsEvolve(s.rows, Next(s, step).rows)
  {
  }

  lemma RowsEvolveTransitively(a: Rows, b: Rows, c: Rows)
    requires RowsEvolve(a, b) && RowsEvolve(b, c)
    ensures RowsEvolve(a, c)
  {
    forall id | id in a ensures id in c && RowEvolves(a[id], c[id]) {
      assert RowEvolves(a[id], b[id]) && RowEvolves(b[id], c[id]);
    }
  }

  lemma {:induction false} RunEvolvesRows(steps: seq<Step>, states: seq<State>, i: nat, j: nat)
    requires IsRun(steps, states) && i <= j <= |steps|
    ensures RowsEvolve(states[i].rows, states[j].rows)
    decreases j
  {
    if i < j {
      RunEvolvesRows(steps, states, i, j - 1);
      assert Leads(states[j - 1], steps[j - 1], states[j]);
      StepEvolvesRows(states[j - 1], steps[j - 1]);
      RowsEvolveTransitively(states[i].rows, states[j - 1].rows, states[j].rows);
    }
  }

  /** The step closes reservation id. */
  predicate Closes(step: Step, id: ResId) {
    (step.Settle? || step.Release?) && step.id == id
  }

  /** No reservation is closed twice in a run. */
  lemma ClosedAtMostOnce(steps: seq<Step>, states: seq<State>, i: nat, j: nat, id: ResId)
    requires IsRun(steps, states) && i < j < |steps| && Closes(steps[i], id)
    ensures !Closes(steps[j], id)
  {
    assert Leads(states[i], steps[i], states[i + 1]);
    RunEvolvesRows(steps, states, i + 1, j);
    assert Leads(states[j], steps[j], states[j + 1]);
    assert id in states[i + 1].rows && states[i + 1].rows[id].status != Active;
    assert RowEvolves(states[i + 1].rows[id], states[j].rows[id]);
  }

  // ------------------------------------------------ where the reserved money is

  ghost function ReservedOn(a: Account): (ResId, Reservation) -> int {
    (id: ResId, r: Reservation) => if Touches(r.ctx, a) then r.reserved else 0
  }

  ghost function ActiveOn(a: Account): (ResId, Reservation) -> int {
    (id: ResId, r: Reservation) => if Touches(r.ctx, a) && r.status == Active then r.reserved else 0
  }

  ghost function ChargedOn(a: Account): (ResId, Reservation) -> int {
    (id: ResId, r: Reservation) => if Touches(r.ctx, a) && r.status.Settled? then r.status.actual else 0
  }

  ghost function ReleasedOn(a: Account): (ResId, Reservation) -> int {
    (id: ResId, r: Reservation) => if Touches(r.ctx, a) then r.released else 0
  }

  lemma RowSplits(s: State, r: Reservation)
    requires RowOk(s, r)
    ensures r.reserved == Committed(r) + r.released
  {
  }

  lemma UsageIsActivePlusCharged(rows: Rows, a: Account)
    ensures Usage(rows, a) == SumMap(ActiveOn(a), rows) + SumMap(ChargedOn(a), rows)
  {
    SumMapAdd(UsageOn(a), ActiveOn(a), ChargedOn(a), rows);
  }

  /** Everything ever reserved on an account is active, charged or given back. */
  lemma ReservedIsActiveChargedOrReleased(s: State, a: Account)
    requires RowsOk(s)
    ensures SumMap(ReservedOn(a), s.rows)
         == SumMap(ActiveOn(a), s.rows) + SumMap(ChargedOn(a), s.rows) + SumMap(ReleasedOn(a), s.rows)
  {
    var f, g, h := ReservedOn(a), UsageOn(a), ReleasedOn(a);
    forall id | id in s.rows ensures f(id, s.rows[id]) == g(id, s.rows[id]) + h(id, s.rows[id]) {
      RowSplits(s, s.rows[id]);
    }
    SumMapAdd(f, g, h, s.rows);
    UsageIsActivePlusCharged(s.rows, a);
  }
}
