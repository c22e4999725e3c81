/** A call that fails its test can overspend: for every amount a reservation must not have, every
    amount a settlement or release must not free, every amount a reconcile must not leave and every
    number of cents it must not find in flight, a run in which all other calls pass theirs. */
module BudgetOverspend {
  import opened Money
  import opened Sums
  import opened BudgetProtocol
  import opened BudgetCalls
  import opened BudgetClaims
  import opened BudgetRuns

  /** The one kind of call that a run may make without passing its test. */
  datatype Exemption =
    | ReservationOf(amount: int)
    | ClosingThatFrees(released: int)
    | ReconcileThatLeaves(left: int)
    | ReconcileOver(cents: int)

  ghost predicate IsExempt(e: Exemption, s: State, step: Step) {
    match e
    case ReservationOf(amount) => step.Decrement? && step.amount == amount
    case ClosingThatFrees(released) =>
      || (step.Settle? && IsActive(s, step.id) && s.rows[step.id].reserved - step.actual == released)
      || (step.Release? && IsActive(s, step.id) && s.rows[step.id].reserved == released)
    case ReconcileThatLeaves(left) => step.Reconcile? && OnlyLeaves(s, step.ctx, left)
    case ReconcileOver(cents) => step.Reconcile? && OnlyOver(s, step.ctx, cents)
  }

  /** Nothing is in flight, and what is left passes the test or is this amount. */
  ghost predicate OnlyLeaves(s: State, ctx: Context, left: int) {
    forall a | Touches(ctx, a) ::
      Pending(s, a) == 0 && (RoundsDown(Remaining(s, ctx, a)) || Remaining(s, ctx, a) == left)
  }

  /** What is left passes the test, and nothing is in flight but this many cents. */
  ghost predicate OnlyOver(s: State, ctx: Context, cents: int) {
    forall a | Touches(ctx, a) ::
      RoundsDown(Remaining(s, ctx, a)) && (Pending(s, a) == 0 || Pending(s, a) == cents)
  }

  ghost predicate Allowed(e: Exemption, s: State, step: Step) {
    Tested(s, step) || IsExempt(e, s, step)
  }

  /** A run of n steps, each of them tested or exempt, ends in s. */
  ghost predicate ReachesIn(e: Exemption, n: nat, s: State) {
    if n == 0 then s == EMPTY
    else exists r, step :: ReachesIn(e, n - 1, r) && Goes(e, r, step, s)
  }

  ghost predicate Goes(e: Exemption, s: State, step: Step, t: State) {
    Leads(s, step, t) && Allowed(e, s, step)
  }

  ghost predicate Reaches(e: Exemption, s: State) {
    exists n: nat :: ReachesIn(e, n, s)
  }

  /** More is charged and reserved on a than any cap it was reconciled with. */
  ghost predicate Overspends(s: State, a: Account) {
    a in s.peak && Usage(s.rows, a) > s.peak[a]
  }

  ghost predicate CanOverspend(e: Exemption) {
    exists s, a :: Reaches(e, s) && Overspends(s, a)
  }

  // ------------------------------------------------ a harmless exemption

  predicate Harmless(e: Exemption) {
    match e
    case ReservationOf(amount) => TakesEnough(amount)
    case ClosingThatFrees(released) => GivesNoMore(released)
    case ReconcileThatLeaves(left) => left < 0 || RoundsDown(left)
    case ReconcileOver(cents) => cents <= 0
  }

  lemma HarmlessIsTested(e: Exemption, s: State, step: Step)
    requires Harmless(e) && Enabled(s, step) && Allowed(e, s, step) && InOrder(s)
    ensures Tested(s, step)
  {
    if step.Reconcile? && IsExempt(e, s, step) {
      forall a | Touches(step.ctx, a) ensures Pending(s, a) == 0 && RoundsDown(Remaining(s, step.ctx, a)) {
        NothingOwed(s, a);
        assert Remaining(s, step.ctx, a) >= 0;
      }
    }
  }

  lemma {:induction false} HarmlessRunFits(e: Exemption, n: nat, s: State)
    requires Harmless(e) && ReachesIn(e, n, s)
    ensures ClaimsFit(s)
  {
    if n > 0 {
      var r, step :| ReachesIn(e, n - 1, r) && Goes(e, r, step, s);
      HarmlessRunFits(e, n - 1, r);
      HarmlessIsTested(e, r, step);
      StepKeepsClaimsFit(r, step);
    }
  }

  lemma FittingClaimsDoNotOverspend(s: State, a: Account)
    requires ClaimsFit(s)
    ensures !Overspends(s, a)
  {
    NothingOwed(s, a);
    if a in s.peak {
      assert WithinCap(s, a);
    }
  }

  lemma HarmlessCannotOverspend(e: Exemption)
    requires Harmless(e)
    ensures !CanOverspend(e)
  {
    forall s, a | Reaches(e, s) ensures !Overspends(s, a) {
      var n: nat :| ReachesIn(e, n, s);
      HarmlessRunFits(e, n, s);
      FittingClaimsDoNotOverspend(s, a);
    }
  }

  // ------------------------------------------------ the pieces of a run

  const CTX := Context("tenant", "team", "run", "ticket", "role")

  lemma Follow(e: Exemption, s: State, step: Step, t: State)
    requires Reaches(e, s) && Leads(s, step, t) && Allowed(e, s, step)
    ensures Reaches(e, t)
  {
    var n: nat :| ReachesIn(e, n, s);
    assert Goes(e, s, step, t);
    assert ReachesIn(e, n + 1, t);
  }

  /** A first reconcile under equal caps, which passes its test or is the exempt one. */
  lemma Opens(e: Exemption, cap: int) returns (t: State)
    requires cap >= 0 && (RoundsDown(cap) || e == ReconcileThatLeaves(cap))
    ensures Reaches(e, t) && Stands(t, CTX, cap, UsdToCents(cap)) && t.rows == map[] && t.flights == map[]
  {
    assert ReachesIn(e, 0, EMPTY);
    var s := AfterConfigure(EMPTY, CTX, Equal(cap));
    Follow(e, EMPTY, Configure(CTX, Equal(cap)), s);
    t := ReconcilesQuietly(e, s, cap);
  }

  lemma ReconcilesQuietly(e: Exemption, s: State, cap: int) returns (t: State)
    requires Reaches(e, s) && s.rows == map[] && s.flights == map[] && s.peak == map[]
    requires CTX.runId in s.caps && s.caps[CTX.runId] == Equal(cap)
    requires cap >= 0 && (RoundsDown(cap) || e == ReconcileThatLeaves(cap))
    ensures Reaches(e, t) && Stands(t, CTX, cap, UsdToCents(cap)) && t.rows == map[] && t.flights == map[]
  {
    t := AfterReconcile(s, CTX);
    ReconciledStands(s, CTX, cap);
    forall a | Touches(CTX, a) ensures Pending(s, a) == 0 && Remaining(s, CTX, a) == cap {
      NoUsage(s, CTX, cap, a);
    }
    Follow(e, s, Reconcile(CTX), t);
  }

  lemma Takes(e: Exemption, s: State, w: WorkerId, amount: int, cap: int, n: int) returns (t: State)
    requires Reaches(e, s) && Stands(s, CTX, cap, n) && w !in s.flights && UsdToCents(amount) <= n
    requires TakesEnough(amount) || e == ReservationOf(amount)
    ensures Reaches(e, t) && Stands(t, CTX, cap, n - UsdToCents(amount))
    ensures t.rows == s.rows && t.flights == s.flights[w := Inserting(CTX, amount)]
  {
    t := AfterDecrement(s, w, CTX, amount);
    DecrementedStands(s, w, CTX, amount, cap, n);
    Follow(e, s, Decrement(w, CTX, amount), t);
  }

  lemma Inserts(e: Exemption, s: State, w: WorkerId, id: ResId, amount: int, cap: int, n: int) returns (t: State)
    requires Reaches(e, s) && Stands(s, CTX, cap, n) && id !in s.rows
    requires w in s.flights && s.flights[w] == Inserting(CTX, amount)
    ensures Reaches(e, t) && Stands(t, CTX, cap, n)
    ensures t.rows == s.rows[id := Reservation(CTX, amount, Active, 0)] && t.flights == s.flights - {w}
  {
    t := AfterInsert(s, w, id);
    Follow(e, s, Insert(w, id), t);
  }

  lemma Settles(e: Exemption, s: State, w: WorkerId, id: ResId, actual: int, cap: int, n: int) returns (t: State)
    requires Reaches(e, s) && Stands(s, CTX, cap, n) && s.flights == map[]
    requires IsActive(s, id) && s.rows[id].ctx == CTX && actual <= s.rows[id].reserved
    requires e == ClosingThatFrees(s.rows[id].reserved - actual) && UsdToCents(s.rows[id].reserved - actual) > 0
    ensures Reaches(e, t) && Stands(t, CTX, cap, n + UsdToCents(s.rows[id].reserved - actual))
    ensures t.rows == s.rows[id := SettledRow(s.rows[id], actual)] && t.flights == map[]
  {
    var r := SettledRow(s.rows[id], actual);
    var mid := s.(rows := s.rows[id := r]);
    var cents := UsdToCents(r.released);
    var s0 := AfterClose(s, w, id, r);
    Follow(e, s, Settle(w, id, actual), s0);
    var s1 := AfterCredit(s0, w);
    Follow(e, s0, Credit(w), s1);
    var s2 := AfterCredit(s1, w);
    Follow(e, s1, Credit(w), s2);
    t := AfterCredit(s2, w);
    Follow(e, s2, Credit(w), t);
    assert CreditUpTo(s0, w, 3) == t;
    FullCredit(mid, w, CTX, cents);
    CreditedStands(mid, t, cents, cap, n);
  }

  lemma CreditedStands(s: State, t: State, cents: int, cap: int, n: int)
    requires Stands(s, CTX, cap, n) && t.caps == s.caps && t.peak == s.peak
    requires forall a | Touches(CTX, a) :: a in t.counters && Counter(t, a) == Counter(s, a) + cents
    ensures Stands(t, CTX, cap, n + cents)
  {
    forall a | Touches(CTX, a)
      ensures a in t.counters && t.counters[a] == n + cents && a in t.peak && t.peak[a] == cap
    {
      assert Counter(t, a) == Counter(s, a) + cents;
    }
  }

  // ------------------------------------------------ a harmful one

  /** A reservation that takes too little is granted under a cap of just what it takes. */
  lemma TooLittleIsTaken(amount: int) returns (s: State, a: Account)
    requires 0 <= Rounded(amount) < amount
    ensures Reaches(ReservationOf(amount), s) && Overspends(s, a)
  {
    var e, cap := ReservationOf(amount), Rounded(amount);
    a := AccountOf(CTX, 0);
    RoundingKeepsWholeCents(cap);
    var s1 := Opens(e, cap);
    var s2 := Takes(e, s1, "w", amount, cap, UsdToCents(cap));
    s := Inserts(e, s2, "w", "r", amount, cap, UsdToCents(cap) - UsdToCents(amount));
    UsageOfOne("r", Reservation(CTX, amount, Active, 0), a);
    assert s.rows == map["r" := Reservation(CTX, amount, Active, 0)];
  }

  /** One that adds to the counters lets another call take what was added. */
  lemma LessThanNothingIsTaken(amount: int) returns (s: State, a: Account)
    requires UsdToCents(amount) < 0
    ensures Reaches(ReservationOf(amount), s) && Overspends(s, a)
  {
    var e, gift := ReservationOf(amount), -Rounded(amount);
    a := AccountOf(CTX, 0);
    RoundingKeepsWholeCents(gift);
    var s1 := Opens(e, 0);
    var s2 := Takes(e, s1, "w", amount, 0, 0);
    var s3 := Takes(e, s2, "v", gift, 0, -UsdToCents(amount));
    s := Inserts(e, s3, "v", "r", gift, 0, 0);
    UsageOfOne("r", Reservation(CTX, gift, Active, 0), a);
    assert s.rows == map["r" := Reservation(CTX, gift, Active, 0)];
  }

  lemma HarmfulReservation(amount: int) returns (s: State, a: Account)
    requires !TakesEnough(amount)
    ensures Reaches(ReservationOf(amount), s) && Overspends(s, a)
  {
    if UsdToCents(amount) < 0 {
      s, a := LessThanNothingIsTaken(amount);
    } else {
      s, a := TooLittleIsTaken(amount);
    }
  }

  /** A settlement that gives back more than it frees makes room for one reservation too many. */
  lemma HarmfulSettlement(released: int) returns (s: State, a: Account)
    requires released >= 0 && !GivesNoMore(released)
    ensures Reaches(ClosingThatFrees(released), s) && Overspends(s, a)
  {
    var e := ClosingThatFrees(released);
    var n := UsdToCents(released);
    var reserved := CentsToUsd(n);
    var actual := reserved - released;
    a := AccountOf(CTX, 0);
    RoundingKeepsWholeCents(reserved);
    var s1 := Opens(e, reserved);
    var s2 := Takes(e, s1, "w", reserved, reserved, n);
    var s3 := Inserts(e, s2, "w", "r", reserved, reserved, 0);
    var s4 := Settles(e, s3, "w", "r", actual, reserved, 0);
    var s5 := Takes(e, s4, "w", reserved, reserved, n);
    s := Inserts(e, s5, "w", "q", reserved, reserved, 0);
    SettledAndReservedAgain(s.rows, reserved, actual, a);
  }

  /** A reconcile that rounds up what is left offers more than the cap from the start. */
  lemma HarmfulReconcile(left: int) returns (s: State, a: Account)
    requires left >= 0 && Rounded(left) > left
    ensures Reaches(ReconcileThatLeaves(left), s) && Overspends(s, a)
  {
    var e, n := ReconcileThatLeaves(left), UsdToCents(left);
    a := AccountOf(CTX, 0);
    RoundingKeepsWholeCents(Rounded(left));
    var s1 := Opens(e, left);
    var s2 := Takes(e, s1, "w", Rounded(left), left, n);
    s := Inserts(e, s2, "w", "r", Rounded(left), left, 0);
    UsageOfOne("r", Reservation(CTX, Rounded(left), Active, 0), a);
    assert s.rows == map["r" := Reservation(CTX, Rounded(left), Active, 0)];
  }

  /** One that finds cents in flight offers them again. */
  lemma UnwaitedReconcile(cents: int) returns (s: State, a: Account)
    requires cents > 0
    ensures Reaches(ReconcileOver(cents), s) && Overspends(s, a)
  {
    var e, cap := ReconcileOver(cents), CentsToUsd(cents);
    a := AccountOf(CTX, 0);
    RoundingKeepsWholeCents(cap);
    var s1 := Opens(e, cap);
    var s2 := Takes(e, s1, "w", cap, cap, cents);
    FindsOnlyOver(s2, "w", cap);
    var s3 := ReconcilesAgain(e, s2, cap, 0);
    var s4 := Inserts(e, s3, "w", "r", cap, cap, cents);
    var s5 := Takes(e, s4, "w", cap, cap, cents);
    s := Inserts(e, s5, "w", "q", cap, cap, 0);
    var r := Reservation(CTX, cap, Active, 0);
    UsageOfTwo("r", "q", r, r, a);
    assert s.rows == map["r" := r]["q" := r];
  }

  lemma FindsOver(s: State, w: WorkerId, cap: int, a: Account)
    requires Stands(s, CTX, cap, 0) && s.flights == map[w := Inserting(CTX, cap)] && s.rows == map[] && cap >= 0
    requires Touches(CTX, a)
    ensures Remaining(s, CTX, a) == cap && Pending(s, a) == UsdToCents(cap)
  {
    NoUsage(s, CTX, cap, a);
    var none: map<WorkerId, Flight> := map[];
    SumMapInsert(HeldOn(a), none, w, Inserting(CTX, cap));
  }

  lemma FindsOnlyOver(s: State, w: WorkerId, cap: int)
    requires Stands(s, CTX, cap, 0) && s.flights == map[w := Inserting(CTX, cap)] && s.rows == map[]
    requires cap >= 0 && RoundsDown(cap)
    ensures OnlyOver(s, CTX, UsdToCents(cap))
  {
    forall a | Touches(CTX, a) ensures RoundsDown(Remaining(s, CTX, a)) && Pending(s, a) == UsdToCents(cap) {
      FindsOver(s, w, cap, a);
    }
  }

  lemma ReconcilesAgain(e: Exemption, s: State, cap: int, n: int) returns (t: State)
    requires Reaches(e, s) && Stands(s, CTX, cap, n) && s.rows == map[] && cap >= 0
    requires Allowed(e, s, Reconcile(CTX))
    ensures Reaches(e, t) && Stands(t, CTX, cap, UsdToCents(cap)) && t.rows == map[] && t.flights == s.flights
  {
    t := AfterReconcile(s, CTX);
    Follow(e, s, Reconcile(CTX), t);
    ReconciledAgain(s, CTX, cap, n);
  }

  lemma SettledAndReservedAgain(rows: Rows, reserved: int, actual: int, a: Account)
    requires Touches(CTX, a)
    requires var r := Reservation(CTX, reserved, Active, 0);
      rows == map["r" := r]["r" := SettledRow(r, actual)]["q" := r]
    ensures Usage(rows, a) == actual + reserved
  {
    var settled := SettledRow(Reservation(CTX, reserved, Active, 0), actual);
    var again := Reservation(CTX, reserved, Active, 0);
    assert rows == map["r" := settled]["q" := again];
    UsageOfTwo("r", "q", settled, again, a);
  }

  // ------------------------------------------------ releases of less than nothing

  /** No amount was reserved, or is about to be, that takes less than nothing. */
  ghost predicate TookEnough(s: State) {
    && (forall id | id in s.rows :: TakesEnough(s.rows[id].reserved))
    && (forall w | w in s.flights && s.flights[w].Inserting? :: TakesEnough(s.flights[w].amount))
  }

  lemma StepTakesEnough(e: Exemption, s: State, step: Step)
    requires TookEnough(s) && Enabled(s, step) && Allowed(e, s, step) && e.ClosingThatFrees?
    ensures TookEnough(Next(s, step))
  {
  }

  /** What adds to the counters when it is reserved is never there to be released. */
  lemma {:induction false} NegativeCentsAreNeverFreed(released: int, n: nat, s: State)
    requires UsdToCents(released) < 0 && ReachesIn(ClosingThatFrees(released), n, s)
    ensures TookEnough(s) && ClaimsFit(s)
  {
    if n > 0 {
      var e := ClosingThatFrees(released);
      var r, step :| ReachesIn(e, n - 1, r) && Goes(e, r, step, s);
      NegativeCentsAreNeverFreed(released, n - 1, r);
      NotExempt(released, r, step);
      StepTakesEnough(e, r, step);
      StepKeepsClaimsFit(r, step);
    }
  }

  lemma NothingFreesTooLittle(released: int)
    requires UsdToCents(released) < 0
    ensures !CanOverspend(ClosingThatFrees(released))
  {
    forall s, a | Reaches(ClosingThatFrees(released), s) ensures !Overspends(s, a) {
      var n: nat :| ReachesIn(ClosingThatFrees(released), n, s);
      NegativeCentsAreNeverFreed(released, n, s);
      FittingClaimsDoNotOverspend(s, a);
    }
  }

  lemma NotExempt(released: int, s: State, step: Step)
    requires UsdToCents(released) < 0 && TookEnough(s) && Enabled(s, step)
    ensures !IsExempt(ClosingThatFrees(released), s, step)
  {
    if step.Release? {
      assert TakesEnough(s.rows[step.id].reserved);
    }
  }

  function Name(k: nat): ResId {
    seq(k, _ => 'r')
  }

  /** k rows of the same small amount, each of which took nothing. */
  ghost predicate Many(rows: Rows, k: nat, amount: int) {
    && (forall id | id in rows :: |id| < k && rows[id].ctx == CTX)
    && (k > 0 ==> Name(0) in rows && rows[Name(0)] == Reservation(CTX, amount, Active, 0))
    && forall a | Touches(CTX, a) :: Usage(rows, a) == Times(k, amount)
  }

  function Times(k: nat, amount: int): int {
    if k == 0 then 0 else Times(k - 1, amount) + amount
  }

  lemma {:induction false} ReservesMany(e: Exemption, amount: int, k: nat) returns (s: State)
    requires TakesEnough(amount) && UsdToCents(amount) == 0
    ensures Reaches(e, s) && Stands(s, CTX, 0, 0) && s.flights == map[] && Many(s.rows, k, amount)
  {
    if k == 0 {
      s := Opens(e, 0);
    } else {
      var s1 := ReservesMany(e, amount, k - 1);
      var s2 := Takes(e, s1, "w", amount, 0, 0);
      assert |Name(k - 1)| == k - 1;
      s := Inserts(e, s2, "w", Name(k - 1), amount, 0, 0);
      OneMore(s1.rows, k - 1, amount);
    }
  }

  lemma OneMore(rows: Rows, k: nat, amount: int)
    requires Many(rows, k, amount)
    ensures Many(rows[Name(k) := Reservation(CTX, amount, Active, 0)], k + 1, amount)
  {
    var r := Reservation(CTX, amount, Active, 0);
    forall a | Touches(CTX, a) ensures Usage(rows[Name(k) := r], a) == Times(k + 1, amount) {
      SumMapInsert(UsageOn(a), rows, Name(k), r);
    }
    assert k > 0 ==> Name(0) != Name(k) by {
      assert |Name(k)| == k;
    }
  }

  /** As many as it takes to free a cent. */
  lemma {:induction false} EnoughForACent(amount: int, k: nat) returns (n: nat)
    requires -5000 < amount < 0 && -10000 < Times(k, amount)
    ensures n > 0 && -10000 + amount < Times(n, amount) <= -10000
    decreases 10000 + Times(k, amount)
  {
    if Times(k + 1, amount) <= -10000 {
      n := k + 1;
    } else {
      n := EnoughForACent(amount, k + 1);
    }
  }

  lemma OneCentAndABit(left: int)
    requires 10000 <= left < 15000
    ensures UsdToCents(left) == 1 && RoundsDown(left)
  {
  }

  /** n rows that together have freed a cent and a bit that is less than one of them. */
  ghost predicate FreedACent(rows: Rows, n: nat, amount: int) {
    && Many(rows, n, amount) && n > 0
    && -5000 < amount < 0 && -10000 + amount < Times(n, amount) <= -10000
  }

  lemma ACentIsLeft(s: State, n: nat, amount: int, a: Account)
    requires Stands(s, CTX, 0, 0) && FreedACent(s.rows, n, amount) && Touches(CTX, a)
    ensures UsdToCents(Remaining(s, CTX, a)) == 1 && RoundsDown(Remaining(s, CTX, a)) && PeakAt(s, CTX, a) == 0
  {
    assert Usage(s.rows, a) == Times(n, amount);
    assert CapFor(Equal(0), a) == 0;
    OneCentAndABit(-Times(n, amount));
  }

  lemma LeavesACent(s: State, n: nat, amount: int)
    requires Stands(s, CTX, 0, 0) && s.flights == map[] && FreedACent(s.rows, n, amount)
    ensures Tested(s, Reconcile(CTX)) && Stands(AfterReconcile(s, CTX), CTX, 0, 1)
  {
    forall a | Touches(CTX, a)
      ensures Pending(s, a) == 0 && RoundsDown(Remaining(s, CTX, a))
      ensures UsdToCents(Remaining(s, CTX, a)) == 1 && PeakAt(s, CTX, a) == 0
    {
      ACentIsLeft(s, n, amount, a);
    }
    TouchedStands(s, CTX, 0, 1);
  }

  /** Under a zero cap a reconcile then offers that cent. */
  lemma ReconcilesOneCent(e: Exemption, s: State, n: nat, amount: int) returns (t: State)
    requires Reaches(e, s) && Stands(s, CTX, 0, 0) && s.flights == map[] && FreedACent(s.rows, n, amount)
    ensures Reaches(e, t) && Stands(t, CTX, 0, 1) && t.flights == map[] && t.rows == s.rows
  {
    t := AfterReconcile(s, CTX);
    LeavesACent(s, n, amount);
    Follow(e, s, Reconcile(CTX), t);
  }

  lemma ReleasesOne(s: State, n: nat, released: int) returns (t: State)
    requires Reaches(ClosingThatFrees(released), s) && Stands(s, CTX, 0, 1) && s.flights == map[]
    requires FreedACent(s.rows, n, released)
    ensures Reaches(ClosingThatFrees(released), t) && Stands(t, CTX, 0, 1) && t.flights == map[]
    ensures t.rows == s.rows[Name(0) := ReleasedRow(s.rows[Name(0)])]
  {
    t := AfterClose(s, "w", Name(0), ReleasedRow(s.rows[Name(0)]));
    Follow(ClosingThatFrees(released), s, Release("w", Name(0)), t);
  }

  lemma OneTooMany(rows: Rows, n: nat, amount: int, a: Account)
    requires FreedACent(rows, n, amount) && Touches(CTX, a)
    ensures Name(n) !in rows[Name(0) := ReleasedRow(rows[Name(0)])]
    ensures Usage(rows[Name(0) := ReleasedRow(rows[Name(0)])][Name(n) := Reservation(CTX, 10000, Active, 0)], a) > 0
  {
    var row := ReleasedRow(rows[Name(0)]);
    assert |Name(n)| == n;
    SumMapUpdate(UsageOn(a), rows, Name(0), row);
    SumMapInsert(UsageOn(a), rows[Name(0) := row], Name(n), Reservation(CTX, 10000, Active, 0));
  }

  lemma SpendsTheCent(e: Exemption, s: State, id: ResId, a: Account) returns (t: State)
    requires Reaches(e, s) && Stands(s, CTX, 0, 1) && s.flights == map[] && Touches(CTX, a) && id !in s.rows
    requires Usage(s.rows[id := Reservation(CTX, 10000, Active, 0)], a) > 0
    ensures Reaches(e, t) && Overspends(t, a)
  {
    var mid := Takes(e, s, "w", 10000, 0, 1);
    t := Inserts(e, mid, "w", id, 10000, 0, 0);
  }

  /** Releasing one of them now makes the cent one too many. */
  lemma HarmfulRelease(released: int) returns (s: State, a: Account)
    requires -5000 < released < 0
    ensures Reaches(ClosingThatFrees(released), s) && Overspends(s, a)
  {
    var e := ClosingThatFrees(released);
    a := AccountOf(CTX, 0);
    var n := EnoughForACent(released, 0);
    var s1 := ReservesMany(e, released, n);
    var s2 := ReconcilesOneCent(e, s1, n, released);
    var s3 := ReleasesOne(s2, n, released);
    OneTooMany(s2.rows, n, released, a);
    s := SpendsTheCent(e, s3, Name(n), a);
  }

  // ------------------------------------------------ exactly the tests

  /** With every other call passing its test, reservations of an amount can overspend a cap exactly
      when the cents they take are less than the amount, or negative. */
  lemma ReservationsCanOverspendIff(amount: int)
    ensures CanOverspend(ReservationOf(amount)) <==> !TakesEnough(amount)
  {
    if TakesEnough(amount) {
      HarmlessCannotOverspend(ReservationOf(amount));
    } else {
      var s, a := HarmfulReservation(amount);
    }
  }

  /** And settlements and releases that free an amount exactly when it rounds up; an amount that
      rounds below zero is never there to be freed. */
  lemma ClosingsCanOverspendIff(released: int)
    ensures CanOverspend(ClosingThatFrees(released)) <==> Rounded(released) > released && UsdToCents(released) >= 0
  {
    if UsdToCents(released) < 0 {
      NothingFreesTooLittle(released);
    } else if released < 0 {
      var s, a := HarmfulRelease(released);
    } else if GivesNoMore(released) {
      HarmlessCannotOverspend(ClosingThatFrees(released));
    } else {
      var s, a := HarmfulSettlement(released);
    }
  }

  /** A reconcile that finds nothing in flight can overspend exactly when what it leaves rounds up. */
  lemma ReconcilesCanOverspendIff(left: int)
    ensures CanOverspend(ReconcileThatLeaves(left)) <==> left >= 0 && Rounded(left) > left
  {
    if left >= 0 && Rounded(left) > left {
      var s, a := HarmfulReconcile(left);
    } else {
      HarmlessCannotOverspend(ReconcileThatLeaves(left));
    }
  }

  /** And one that leaves what rounds down exactly when it finds a cent in flight. */
  lemma UnwaitedReconcilesCanOverspendIff(cents: int)
    ensures CanOverspend(ReconcileOver(cents)) <==> cents > 0
  {
    if cents > 0 {
      var s, a := UnwaitedReconcile(cents);
    } else {
      HarmlessCannotOverspend(ReconcileOver(cents));
    }
  }

  /** Less than half a cent is granted for nothing, and minus one cent is a gift. */
  lemma HalfACentAndMinusOneCentOverspend()
    ensures CanOverspend(ReservationOf(4999)) && CanOverspend(ReservationOf(-10000))
    ensures CanOverspend(ClosingThatFrees(5000)) && CanOverspend(ReconcileThatLeaves(5000))
  {
    ReservationsCanOverspendIff(4999);
    ReservationsCanOverspendIff(-10000);
    ClosingsCanOverspendIff(5000);
    ReconcilesCanOverspendIff(5000);
  }
}
