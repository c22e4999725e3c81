/** The budget ledger as a protocol over two stores: reservation rows in Postgres and three
    cent counters per context in Redis. Every database transaction and every Redis call is one
    step; calls of different workers interleave freely and a worker can lose its credits. */
module BudgetProtocol {
  import opened Common
  import opened Money
  import opened Sums

  type ResId = string
  type WorkerId = string

  datatype Context = Context(tenantId: string, teamId: string, runId: string, ticketKey: string, role: string)

  /** What a counter key names, within one day and one month. */
  datatype Account =
    | Ticket(runId: string)
    | Daily(tenantId: string, teamId: string)
    | Monthly(tenantId: string, teamId: string)

  /** The three counters of a context, in the order they are credited. */
  function AccountOf(ctx: Context, n: nat): Account
    requires n < 3
  {
    if n == 0 then Ticket(ctx.runId)
    else if n == 1 then Daily(ctx.tenantId, ctx.teamId)
    else Monthly(ctx.tenantId, ctx.teamId)
  }

  predicate Touches(ctx: Context, a: Account) {
    Awaits(ctx, 0, a)
  }

  /** a is one of the counters from the n-th on. */
  predicate Awaits(ctx: Context, n: nat, a: Account) {
    || (n == 0 && a == AccountOf(ctx, 0))
    || (n <= 1 && a == AccountOf(ctx, 1))
    || (n <= 2 && a == AccountOf(ctx, 2))
  }

  /** m with the value f(a) for the counters of ctx from the n-th on. */
  function Put<V>(m: map<Account, V>, ctx: Context, n: nat, f: Account -> V): (r: map<Account, V>)
    ensures forall a :: a in r <==> a in m || Awaits(ctx, n, a)
    ensures forall a | a in r :: r[a] == if Awaits(ctx, n, a) then f(a) else m[a]
  {
    m + map a | a in {AccountOf(ctx, 0), AccountOf(ctx, 1), AccountOf(ctx, 2)} && Awaits(ctx, n, a) :: f(a)
  }

  function Get(m: map<Account, int>, a: Account): int {
    if a in m then m[a] else 0
  }

  datatype Caps = Caps(ticket: int, daily: int, monthly: int)

  function CapFor(caps: Caps, a: Account): int {
    match a
    case Ticket(_) => caps.ticket
    case Daily(_, _) => caps.daily
    case Monthly(_, _) => caps.monthly
  }

  /** The charge row of a settled reservation is written in the transaction that settles it and
      is unique to it; its actual cost is kept here. */
  datatype Status = Active | Settled(actual: int) | Released

  datatype Reservation = Reservation(ctx: Context, reserved: int, status: Status, released: int)

  /** A call in progress: the counters are decremented and the row is not yet inserted, or a
      credit has reached the first `credited` counters. */
  datatype Flight = Inserting(ctx: Context, amount: int) | Crediting(ctx: Context, cents: int, credited: nat)

  type Rows = map<ResId, Reservation>

  /** The tables and counters, the calls in progress, and three history variables per account:
      cents whose credit was lost since the last reconcile, what the counter accounts for in
      all, and the highest cap it was ever reconciled with. */
  datatype State = State(caps: map<string, Caps>, rows: Rows, counters: map<Account, int>,
                         flights: map<WorkerId, Flight>,
                         lost: map<Account, int>, anchor: map<Account, int>, peak: map<Account, int>)

  // ------------------------------------------------ what a row or a call holds

  /** What a row counts against the caps, in the durable tables. */
  function Committed(r: Reservation): int {
    match r.status
    case Active => r.reserved
    case Settled(actual) => actual
    case Released => 0
  }

  /** The same row as the counters have seen it: in whole cents, rounded call by call. */
  function RoundedCommitted(r: Reservation): int {
    match r.status
    case Active => Rounded(r.reserved)
    case Settled(_) => Rounded(r.reserved) - Rounded(r.released)
    case Released => 0
  }

  /** Cents still to be credited to, or not yet backed by a row on, an account. */
  function Held(f: Flight, a: Account): int {
    match f
    case Inserting(ctx, amount) => if Touches(ctx, a) then UsdToCents(amount) else 0
    case Crediting(ctx, cents, n) => if Awaits(ctx, n, a) then cents else 0
  }

  ghost function UsageOn(a: Account): (ResId, Reservation) -> int {
    (id: ResId, r: Reservation) => if Touches(r.ctx, a) then Committed(r) else 0
  }

  ghost function RoundedUsageOn(a: Account): (ResId, Reservation) -> int {
    (id: ResId, r: Reservation) => if Touches(r.ctx, a) then RoundedCommitted(r) else 0
  }

  ghost function HeldOn(a: Account): (WorkerId, Flight) -> int {
    (w: WorkerId, f: Flight) => Held(f, a)
  }

  /** Active reservations plus charges of an account: what the SQL sums. */
  ghost function Usage(rows: Rows, a: Account): int {
    SumMap(UsageOn(a), rows)
  }

  ghost function RoundedUsage(rows: Rows, a: Account): int {
    SumMap(RoundedUsageOn(a), rows)
  }

  ghost function Pending(s: State, a: Account): int {
    SumMap(HeldOn(a), s.flights)
  }

  function Counter(s: State, a: Account): int {
    Get(s.counters, a)
  }

  // ------------------------------------------------ the steps

  datatype Step =
    | Configure(ctx: Context, caps: Caps)
    | Reconcile(ctx: Context)
    | Decrement(worker: WorkerId, ctx: Context, amount: int)
    | Insert(worker: WorkerId, id: ResId)
    | InsertFails(worker: WorkerId)
    | Settle(worker: WorkerId, id: ResId, actual: int)
    | Release(worker: WorkerId, id: ResId)
    | Credit(worker: WorkerId)
    | LoseCredit(worker: WorkerId)
    | Evict(account: Account)

  ghost function Remaining(s: State, ctx: Context, a: Account): int
  {
    if ctx.runId in s.caps then Max(0, CapFor(s.caps[ctx.runId], a) - Usage(s.rows, a)) else 0
  }

  /** The reservation script answers from the three counters alone. */
  ghost predicate KeysPresent(s: State, ctx: Context) {
    forall a | Touches(ctx, a) :: a in s.counters
  }

  ghost predicate Affordable(s: State, ctx: Context, cents: int)
    requires KeysPresent(s, ctx)
  {
    forall a | Touches(ctx, a) :: cents <= s.counters[a]
  }

  /** A credit of nothing is never started. */
  function WithCredit(flights: map<WorkerId, Flight>, worker: WorkerId, ctx: Context, cents: int)
    : map<WorkerId, Flight>
  {
    if cents <= 0 then flights - {worker} else flights[worker := Crediting(ctx, cents, 0)]
  }

  function StartCredit(s: State, worker: WorkerId, ctx: Context, cents: int): State {
    s.(flights := WithCredit(s.flights, worker, ctx, cents))
  }

  // Each step as a function of the state in which it is enabled.

  function AfterConfigure(s: State, ctx: Context, caps: Caps): State {
    s.(caps := s.caps[ctx.runId := caps])
  }

  /** What a counter accounts for once it has been reconciled. */
  ghost function AnchorAt(s: State, ctx: Context, a: Account): int {
    Rounded(Remaining(s, ctx, a)) + CentsToUsd(Pending(s, a)) + RoundedUsage(s.rows, a)
  }

  ghost function PeakAt(s: State, ctx: Context, a: Account): int {
    if ctx.runId in s.caps then Max(Get(s.peak, a), CapFor(s.caps[ctx.runId], a)) else 0
  }

  ghost function CentsLeft(s: State, ctx: Context): Account -> int {
    a => UsdToCents(Remaining(s, ctx, a))
  }

  ghost function AfterReconcile(s: State, ctx: Context): State
    requires ctx.runId in s.caps
  {
    s.(counters := Put(s.counters, ctx, 0, CentsLeft(s, ctx)),
       lost := Put(s.lost, ctx, 0, a => 0),
       anchor := Put(s.anchor, ctx, 0, a => AnchorAt(s, ctx, a)),
       peak := Put(s.peak, ctx, 0, a => PeakAt(s, ctx, a)))
  }

  function Decremented(counters: map<Account, int>, ctx: Context, cents: int): map<Account, int> {
    Put(counters, ctx, 0, a => Get(counters, a) - cents)
  }

  function AfterDecrement(s: State, w: WorkerId, ctx: Context, amount: int): State {
    s.(counters := Decremented(s.counters, ctx, UsdToCents(amount)),
       flights := s.flights[w := Inserting(ctx, amount)])
  }

  predicate IsInserting(s: State, w: WorkerId) {
    w in s.flights && s.flights[w].Inserting?
  }

  predicate IsCrediting(s: State, w: WorkerId) {
    w in s.flights && s.flights[w].Crediting? && s.flights[w].credited < 3
  }

  function AfterInsert(s: State, w: WorkerId, id: ResId): State
    requires IsInserting(s, w)
  {
    var f := s.flights[w];
    s.(rows := s.rows[id := Reservation(f.ctx, f.amount, Active, 0)], flights := s.flights - {w})
  }

  function AfterInsertFails(s: State, w: WorkerId): State
    requires IsInserting(s, w)
  {
    StartCredit(s, w, s.flights[w].ctx, UsdToCents(s.flights[w].amount))
  }

  predicate IsActive(s: State, id: ResId) {
    id in s.rows && s.rows[id].status == Active
  }

  /** A row leaves the active state for good, and what it releases is to be credited. */
  function AfterClose(s: State, w: WorkerId, id: ResId, r: Reservation): State {
    StartCredit(s.(rows := s.rows[id := r]), w, r.ctx, UsdToCents(r.released))
  }

  function SettledRow(r: Reservation, actual: int): Reservation {
    r.(status := Settled(actual), released := r.reserved - actual)
  }

  function ReleasedRow(r: Reservation): Reservation {
    r.(status := Released, released := r.reserved)
  }

  /** The call goes on to its next counter, and is over after the third. */
  function WithNextCredit(flights: map<WorkerId, Flight>, w: WorkerId): map<WorkerId, Flight>
    requires w in flights && flights[w].Crediting?
  {
    if flights[w].credited == 2 then flights - {w}
    else flights[w := flights[w].(credited := flights[w].credited + 1)]
  }

  function AfterCredit(s: State, w: WorkerId): State
    requires IsCrediting(s, w)
  {
    var f := s.flights[w];
    var a := AccountOf(f.ctx, f.credited);
    s.(counters := s.counters[a := Counter(s, a) + f.cents],
       flights := WithNextCredit(s.flights, w))
  }

  function AfterLoseCredit(s: State, w: WorkerId): State
    requires IsCrediting(s, w)
  {
    var f := s.flights[w];
    s.(flights := s.flights - {w},
       lost := Put(s.lost, f.ctx, f.credited, a => Get(s.lost, a) + f.cents))
  }

  function AfterEvict(s: State, a: Account): State
    requires a in s.counters
  {
    s.(counters := s.counters - {a}, lost := s.lost[a := Get(s.lost, a) + s.counters[a]])
  }

  ghost predicate Enabled(s: State, step: Step) {
    match step
    case Configure(_, _) => true
    case Reconcile(ctx) => ctx.runId in s.caps
    case Decrement(w, ctx, amount) =>
      w !in s.flights && ctx.runId in s.caps && KeysPresent(s, ctx) && Affordable(s, ctx, UsdToCents(amount))
    case Insert(w, id) => IsInserting(s, w) && id !in s.rows
    case InsertFails(w) => IsInserting(s, w)
    case Settle(w, id, actual) => w !in s.flights && IsActive(s, id) && actual <= s.rows[id].reserved
    case Release(w, id) => w !in s.flights && IsActive(s, id)
    case Credit(w) => IsCrediting(s, w)
    case LoseCredit(w) => IsCrediting(s, w)
    case Evict(a) => a in s.counters
  }

  ghost function Next(s: State, step: Step): State
    requires Enabled(s, step)
  {
    match step
    case Configure(ctx, caps) => AfterConfigure(s, ctx, caps)
    case Reconcile(ctx) => AfterReconcile(s, ctx)
    case Decrement(w, ctx, amount) => AfterDecrement(s, w, ctx, amount)
    case Insert(w, id) => AfterInsert(s, w, id)
    case InsertFails(w) => AfterInsertFails(s, w)
    case Settle(w, id, actual) => AfterClose(s, w, id, SettledRow(s.rows[id], actual))
    case Release(w, id) => AfterClose(s, w, id, ReleasedRow(s.rows[id]))
    case Credit(w) => AfterCredit(s, w)
    case LoseCredit(w) => AfterLoseCredit(s, w)
    case Evict(a) => AfterEvict(s, a)
  }

  const EMPTY := State(map[], map[], map[], map[], map[], map[], map[])

  /** states is a run of the ledger from empty stores under the given steps. */
  ghost predicate IsRun(steps: seq<Step>, states: seq<State>) {
    && |states| == |steps| + 1
    && states[0] == EMPTY
    && forall i | 0 <= i < |steps| :: Leads(states[i], steps[i], states[i + 1])
  }

  ghost predicate Leads(s: State, step: Step, t: State) {
    Enabled(s, step) && t == Next(s, step)
  }

  // ------------------------------------------------ the conservation law

  /** The counters of ctx have been set by a reconcile at some time. */
  ghost predicate Known(s: State, ctx: Context) {
    && AccountOf(ctx, 0) in s.anchor
    && AccountOf(ctx, 1) in s.anchor
    && AccountOf(ctx, 2) in s.anchor
  }

  ghost predicate RowOk(s: State, r: Reservation) {
    && r.reserved >= 0
    && Known(s, r.ctx)
    && match r.status
       case Active => r.released == 0
       case Settled(actual) => actual <= r.reserved && r.released == r.reserved - actual
       case Released => r.released == r.reserved
  }

  ghost predicate FlightOk(s: State, f: Flight) {
    && Known(s, f.ctx)
    && match f
       case Inserting(_, amount) => amount >= 0
       case Crediting(_, cents, n) => cents > 0 && n < 3
  }

  ghost predicate RowsOk(s: State) {
    forall id | id in s.rows :: RowOk(s, s.rows[id])
  }

  ghost predicate FlightsOk(s: State) {
    forall w | w in s.flights :: FlightOk(s, s.flights[w])
  }

  ghost predicate CountersOk(s: State) {
    && s.lost.Keys == s.anchor.Keys == s.peak.Keys
    && s.counters.Keys <= s.anchor.Keys
    && (forall a | a in s.counters :: s.counters[a] >= 0)
    && (forall a | a in s.lost :: s.lost[a] >= 0)
  }

  ghost predicate WellFormed(s: State) {
    CountersOk(s) && RowsOk(s) && FlightsOk(s)
  }

  /** Counter, calls in progress, lost credits and rounded rows always add up to what the last
      reconcile found. */
  ghost predicate Conserved(s: State, a: Account)
    requires a in s.anchor && a in s.lost
  {
    CentsToUsd(Counter(s, a) + Pending(s, a) + s.lost[a]) + RoundedUsage(s.rows, a) == s.anchor[a]
  }

  ghost predicate Inv(s: State) {
    WellFormed(s) && forall a | a in s.anchor :: Conserved(s, a)
  }

  /** Reservations are asked for non-negative amounts. The code does not check it. */
  predicate NonNegative(step: Step) {
    step.Decrement? ==> step.amount >= 0
  }

  lemma StartCreditHolds(s: State, w: WorkerId, ctx: Context, cents: int, a: Account)
    ensures Pending(StartCredit(s, w, ctx, cents), a)
         == Pending(s.(flights := s.flights - {w}), a) + if cents > 0 && Touches(ctx, a) then cents else 0
  {
    var rest := s.flights - {w};
    if cents > 0 {
      SumMapInsert(HeldOn(a), rest, w, Crediting(ctx, cents, 0));
      assert s.flights[w := Crediting(ctx, cents, 0)] == rest[w := Crediting(ctx, cents, 0)];
    }
  }

  lemma RemoveFlight(s: State, w: WorkerId, a: Account)
    ensures Pending(s.(flights := s.flights - {w}), a)
         == Pending(s, a) - if w in s.flights then Held(s.flights[w], a) else 0
  {
    if w in s.flights {
      SumMapSplit(HeldOn(a), s.flights, w);
    } else {
      assert s.flights - {w} == s.flights;
    }
  }

  /** Rows and calls stay in order when no account is forgotten. */
  lemma OkCarriesOver(s: State, t: State)
    requires s.anchor.Keys <= t.anchor.Keys
    ensures forall r :: RowOk(s, r) ==> RowOk(t, r)
    ensures forall f :: FlightOk(s, f) ==> FlightOk(t, f)
  {
  }

  lemma ReconcileTouched(s: State, ctx: Context, a: Account)
    requires ctx.runId in s.caps && Touches(ctx, a)
    ensures var t := AfterReconcile(s, ctx);
      && a in t.counters && t.counters[a] == UsdToCents(Remaining(s, ctx, a))
      && a in t.lost && t.lost[a] == 0
      && a in t.anchor && t.anchor[a] == AnchorAt(s, ctx, a)
      && a in t.peak && t.peak[a] == PeakAt(s, ctx, a)
  {
  }

  lemma ReconcileUntouched(s: State, ctx: Context, a: Account)
    requires ctx.runId in s.caps && !Touches(ctx, a)
    ensures var t := AfterReconcile(s, ctx);
      && (a in t.counters <==> a in s.counters) && Get(t.counters, a) == Get(s.counters, a)
      && (a in t.lost <==> a in s.lost) && Get(t.lost, a) == Get(s.lost, a)
      && (a in t.anchor <==> a in s.anchor) && Get(t.anchor, a) == Get(s.anchor, a)
      && (a in t.peak <==> a in s.peak) && Get(t.peak, a) == Get(s.peak, a)
  {
  }

  lemma ReconcileKeepsCounters(s: State, ctx: Context)
    requires CountersOk(s) && ctx.runId in s.caps
    ensures CountersOk(AfterReconcile(s, ctx))
    ensures s.anchor.Keys <= AfterReconcile(s, ctx).anchor.Keys
  {
    var t := AfterReconcile(s, ctx);
    forall a
      ensures (a in t.lost <==> a in t.anchor) && (a in t.anchor <==> a in t.peak)
      ensures (a in t.counters ==> a in t.anchor) && (a in s.anchor ==> a in t.anchor)
      ensures Get(t.counters, a) >= 0 && Get(t.lost, a) >= 0
    {
      if Touches(ctx, a) {
        ReconcileTouched(s, ctx, a);
        RoundingIsMonotone(0, Remaining(s, ctx, a));
      } else {
        ReconcileUntouched(s, ctx, a);
      }
    }
    CountersOkPointwise(t);
  }

  lemma CountersOkPointwise(t: State)
    requires forall a :: (a in t.lost <==> a in t.anchor) && (a in t.anchor <==> a in t.peak)
    requires forall a :: a in t.counters ==> a in t.anchor
    requires forall a :: Get(t.counters, a) >= 0 && Get(t.lost, a) >= 0
    ensures CountersOk(t)
  {
    forall a | a in t.counters ensures t.counters[a] >= 0 {
      assert Get(t.counters, a) >= 0;
    }
    forall a | a in t.lost ensures t.lost[a] >= 0 {
      assert Get(t.lost, a) >= 0;
    }
  }

  lemma ReconcileConserves(s: State, t: State, ctx: Context, a: Account)
    requires t.flights == s.flights && t.rows == s.rows && a in t.anchor && a in t.lost
    requires Counter(t, a) == UsdToCents(Remaining(s, ctx, a)) && t.lost[a] == 0 && t.anchor[a] == AnchorAt(s, ctx, a)
    ensures Conserved(t, a)
  {
  }

  lemma ReconcileConservesAt(s: State, ctx: Context, a: Account)
    requires ctx.runId in s.caps && a in AfterReconcile(s, ctx).anchor && s.lost.Keys == s.anchor.Keys
    requires a in s.anchor ==> Conserved(s, a)
    ensures a in AfterReconcile(s, ctx).lost && Conserved(AfterReconcile(s, ctx), a)
  {
    var t := AfterReconcile(s, ctx);
    if Touches(ctx, a) {
      ReconcileTouched(s, ctx, a);
      ReconcileConserves(s, t, ctx, a);
    } else {
      ReconcileUntouched(s, ctx, a);
    }
  }

  lemma ReconcileKeeps(s: State, ctx: Context)
    requires Inv(s) && ctx.runId in s.caps
    ensures Inv(AfterReconcile(s, ctx))
  {
    var t := AfterReconcile(s, ctx);
    ReconcileKeepsCounters(s, ctx);
    OkCarriesOver(s, t);
    forall a | a in t.anchor ensures Conserved(t, a) {
      assert a in s.anchor ==> Conserved(s, a);
      ReconcileConservesAt(s, ctx, a);
    }
  }

  lemma DecrementKeeps(s: State, w: WorkerId, ctx: Context, amount: int)
    requires Inv(s) && Enabled(s, Decrement(w, ctx, amount)) && amount >= 0
    ensures Inv(AfterDecrement(s, w, ctx, amount))
  {
    var t := AfterDecrement(s, w, ctx, amount);
    DecrementKeepsCounters(s, w, ctx, amount);
    DecrementKeepsRowsAndFlights(s, w, ctx, amount);
    forall a | a in t.anchor ensures Conserved(t, a) {
      DecrementConserves(s, w, ctx, amount, a);
    }
  }

  /** The script takes the cents from all three counters, none of which it leaves below zero, and
      from no other; the call holds them until its row is there. */
  lemma DecrementTakesFromAllThree(s: State, w: WorkerId, ctx: Context, amount: int, a: Account)
    requires Enabled(s, Decrement(w, ctx, amount))
    ensures var taken := if Touches(ctx, a) then UsdToCents(amount) else 0;
            && Counter(AfterDecrement(s, w, ctx, amount), a) == Counter(s, a) - taken
            && Pending(AfterDecrement(s, w, ctx, amount), a) == Pending(s, a) + taken
    ensures Touches(ctx, a) ==> Counter(AfterDecrement(s, w, ctx, amount), a) >= 0
  {
    SumMapInsert(HeldOn(a), s.flights, w, Inserting(ctx, amount));
  }

  lemma DecrementKeepsCounters(s: State, w: WorkerId, ctx: Context, amount: int)
    requires CountersOk(s) && KeysPresent(s, ctx) && Affordable(s, ctx, UsdToCents(amount))
    ensures CountersOk(AfterDecrement(s, w, ctx, amount)) && Known(s, ctx)
  {
    assert Touches(ctx, AccountOf(ctx, 0)) && Touches(ctx, AccountOf(ctx, 1)) && Touches(ctx, AccountOf(ctx, 2));
  }

  lemma DecrementKeepsRowsAndFlights(s: State, w: WorkerId, ctx: Context, amount: int)
    requires RowsOk(s) && FlightsOk(s) && Known(s, ctx) && amount >= 0
    ensures RowsOk(AfterDecrement(s, w, ctx, amount)) && FlightsOk(AfterDecrement(s, w, ctx, amount))
  {
    OkCarriesOver(s, AfterDecrement(s, w, ctx, amount));
  }

  lemma DecrementConserves(s: State, w: WorkerId, ctx: Context, amount: int, a: Account)
    requires w !in s.flights && KeysPresent(s, ctx) && a in s.anchor && a in s.lost && Conserved(s, a)
    ensures Conserved(AfterDecrement(s, w, ctx, amount), a)
  {
    SumMapInsert(HeldOn(a), s.flights, w, Inserting(ctx, amount));
  }

  lemma InsertKeeps(s: State, w: WorkerId, id: ResId)
    requires Inv(s) && Enabled(s, Insert(w, id))
    ensures Inv(AfterInsert(s, w, id))
  {
    var t := AfterInsert(s, w, id);
    assert FlightOk(s, s.flights[w]);
    InsertWellFormed(s, w, id);
    forall a | a in t.anchor ensures Conserved(t, a) {
      InsertConserves(s, w, id, a);
    }
  }

  lemma InsertWellFormed(s: State, w: WorkerId, id: ResId)
    requires WellFormed(s) && IsInserting(s, w) && FlightOk(s, s.flights[w])
    ensures WellFormed(AfterInsert(s, w, id))
  {
    OkCarriesOver(s, AfterInsert(s, w, id));
  }

  lemma InsertConserves(s: State, w: WorkerId, id: ResId, a: Account)
    requires IsInserting(s, w) && id !in s.rows && a in s.anchor && a in s.lost && Conserved(s, a)
    ensures Conserved(AfterInsert(s, w, id), a)
  {
    RemoveFlight(s, w, a);
    SumMapInsert(RoundedUsageOn(a), s.rows, id, AfterInsert(s, w, id).rows[id]);
  }

  lemma StartCreditWellFormed(s: State, w: WorkerId, ctx: Context, cents: int)
    requires WellFormed(s) && Known(s, ctx)
    ensures WellFormed(StartCredit(s, w, ctx, cents))
  {
    var t := StartCredit(s, w, ctx, cents);
    OkCarriesOver(s, t);
    assert t.rows == s.rows && t.counters == s.counters && t.lost == s.lost && t.anchor == s.anchor;
    forall v | v in t.flights ensures FlightOk(t, t.flights[v]) {
      assert v == w || v in s.flights;
    }
  }

  lemma InsertFailsKeeps(s: State, w: WorkerId)
    requires Inv(s) && IsInserting(s, w)
    ensures Inv(AfterInsertFails(s, w))
  {
    var f := s.flights[w];
    var cents := UsdToCents(f.amount);
    var t := AfterInsertFails(s, w);
    assert FlightOk(s, f);
    StartCreditWellFormed(s, w, f.ctx, cents);
    RoundingIsMonotone(0, f.amount);
    forall a | a in t.anchor ensures Conserved(t, a) {
      assert Conserved(s, a);
      RemoveFlight(s, w, a);
      StartCreditHolds(s, w, f.ctx, cents, a);
    }
  }

  lemma CloseKeeps(s: State, w: WorkerId, id: ResId, r: Reservation)
    requires Inv(s) && w !in s.flights && IsActive(s, id) && r.ctx == s.rows[id].ctx
    requires RowOk(s, r) && r.status != Active && r.reserved == s.rows[id].reserved
    ensures Inv(AfterClose(s, w, id, r))
  {
    var mid := s.(rows := s.rows[id := r]);
    OkCarriesOver(s, mid);
    StartCreditWellFormed(mid, w, r.ctx, UsdToCents(r.released));
    forall a | a in AfterClose(s, w, id, r).anchor ensures Conserved(AfterClose(s, w, id, r), a) {
      CloseConserves(s, w, id, r, a);
    }
  }

  /** Closing a row leaves the counters alone and puts what it releases in flight to all three. */
  lemma CloseHolds(s: State, w: WorkerId, id: ResId, r: Reservation, a: Account)
    requires w !in s.flights && r.released >= 0
    ensures Counter(AfterClose(s, w, id, r), a) == Counter(s, a)
    ensures Pending(AfterClose(s, w, id, r), a)
            == Pending(s, a) + if Touches(r.ctx, a) then UsdToCents(r.released) else 0
  {
    var mid := s.(rows := s.rows[id := r]);
    RemoveFlight(mid, w, a);
    StartCreditHolds(mid, w, r.ctx, UsdToCents(r.released), a);
    RoundingIsMonotone(0, r.released);
    assert Pending(mid, a) == Pending(s, a);
  }

  lemma CloseConserves(s: State, w: WorkerId, id: ResId, r: Reservation, a: Account)
    requires Inv(s) && w !in s.flights && IsActive(s, id) && r.ctx == s.rows[id].ctx
    requires RowOk(s, r) && r.status != Active && r.reserved == s.rows[id].reserved && a in s.anchor
    ensures Conserved(AfterClose(s, w, id, r), a)
  {
    var mid := s.(rows := s.rows[id := r]);
    var cents := UsdToCents(r.released);
    assert Conserved(s, a);
    SumMapUpdate(RoundedUsageOn(a), s.rows, id, r);
    RemoveFlight(mid, w, a);
    StartCreditHolds(mid, w, r.ctx, cents, a);
    assert cents >= 0 by { RoundingIsMonotone(0, r.released); }
    assert Pending(mid, a) == Pending(s, a);
  }

  lemma CreditKeeps(s: State, w: WorkerId)
    requires Inv(s) && IsCrediting(s, w)
    ensures Inv(AfterCredit(s, w))
  {
    var t := AfterCredit(s, w);
    assert FlightOk(s, s.flights[w]);
    CreditKeepsCounters(s, w);
    OkCarriesOver(s, t);
    forall a | a in t.anchor ensures Conserved(t, a) {
      NextCreditHolds(s, w, a);
    }
  }

  /** One increment moves its cents from the call to the one counter whose turn it is. */
  lemma CreditMovesCents(s: State, w: WorkerId, a: Account)
    requires IsCrediting(s, w)
    ensures var f := s.flights[w];
            var moved := if a == AccountOf(f.ctx, f.credited) then f.cents else 0;
            && Counter(AfterCredit(s, w), a) == Counter(s, a) + moved
            && Pending(AfterCredit(s, w), a) == Pending(s, a) - moved
  {
    NextCreditHolds(s, w, a);
  }

  lemma CreditKeepsCounters(s: State, w: WorkerId)
    requires CountersOk(s) && IsCrediting(s, w) && FlightOk(s, s.flights[w])
    ensures CountersOk(AfterCredit(s, w))
  {
  }

  lemma NextTurn(f: Flight, a: Account)
    requires f.Crediting? && f.credited < 3
    ensures Held(f, a) == Held(f.(credited := f.credited + 1), a)
                          + if a == AccountOf(f.ctx, f.credited) then f.cents else 0
  {
  }

  lemma NextCreditHolds(s: State, w: WorkerId, a: Account)
    requires IsCrediting(s, w)
    ensures Pending(s.(flights := WithNextCredit(s.flights, w)), a)
         == Pending(s, a) - if a == AccountOf(s.flights[w].ctx, s.flights[w].credited) then s.flights[w].cents else 0
  {
    var f := s.flights[w];
    var after := f.(credited := f.credited + 1);
    NextTurn(f, a);
    if f.credited == 2 {
      RemoveFlight(s, w, a);
    } else {
      SumMapUpdate(HeldOn(a), s.flights, w, after);
    }
  }

  lemma LoseCreditKeeps(s: State, w: WorkerId)
    requires Inv(s) && IsCrediting(s, w)
    ensures Inv(AfterLoseCredit(s, w))
  {
    var t := AfterLoseCredit(s, w);
    assert FlightOk(s, s.flights[w]);
    LoseCreditKeepsCounters(s, w);
    OkCarriesOver(s, t);
    forall a | a in t.anchor ensures Conserved(t, a) {
      RemoveFlight(s, w, a);
    }
  }

  lemma LoseCreditKeepsCounters(s: State, w: WorkerId)
    requires CountersOk(s) && IsCrediting(s, w) && FlightOk(s, s.flights[w])
    ensures CountersOk(AfterLoseCredit(s, w))
  {
  }

  lemma EvictKeeps(s: State, a: Account)
    requires Inv(s) && a in s.counters
    ensures Inv(AfterEvict(s, a))
  {
    var t := AfterEvict(s, a);
    OkCarriesOver(s, t);
    forall b | b in t.anchor ensures Conserved(t, b) {
      assert Conserved(s, b);
    }
  }

  lemma ConfigureKeeps(s: State, ctx: Context, caps: Caps)
    requires Inv(s)
    ensures Inv(AfterConfigure(s, ctx, caps))
  {
    var t := AfterConfigure(s, ctx, caps);
    OkCarriesOver(s, t);
    forall a | a in t.anchor ensures Conserved(t, a) {
      assert Conserved(s, a);
    }
  }

  lemma SettleKeeps(s: State, w: WorkerId, id: ResId, actual: int)
    requires Inv(s) && w !in s.flights && IsActive(s, id) && actual <= s.rows[id].reserved
    ensures Inv(AfterClose(s, w, id, SettledRow(s.rows[id], actual)))
  {
    assert RowOk(s, s.rows[id]);
    CloseKeeps(s, w, id, SettledRow(s.rows[id], actual));
  }

  lemma ReleaseKeeps(s: State, w: WorkerId, id: ResId)
    requires Inv(s) && w !in s.flights && IsActive(s, id)
    ensures Inv(AfterClose(s, w, id, ReleasedRow(s.rows[id])))
  {
    assert RowOk(s, s.rows[id]);
    CloseKeeps(s, w, id, ReleasedRow(s.rows[id]));
  }

  lemma OpeningKeepsInv(s: State, step: Step)
    requires Inv(s) && Enabled(s, step) && NonNegative(step)
    requires step.Configure? || step.Reconcile? || step.Decrement?
    ensures Inv(Next(s, step))
  {
    if step.Configure? {
      ConfigureKeeps(s, step.ctx, step.caps);
    } else if step.Reconcile? {
      ReconcileKeeps(s, step.ctx);
    } else {
      DecrementKeeps(s, step.worker, step.ctx, step.amount);
    }
  }

  lemma RowStepKeepsInv(s: State, step: Step)
    requires Inv(s) && Enabled(s, step)
    requires step.Insert? || step.InsertFails? || step.Settle? || step.Release?
    ensures Inv(Next(s, step))
  {
    if step.Insert? {
      InsertKeeps(s, step.worker, step.id);
    } else if step.InsertFails? {
      InsertFailsKeeps(s, step.worker);
    } else if step.Settle? {
      SettleKeeps(s, step.worker, step.id, step.actual);
    } else {
      ReleaseKeeps(s, step.worker, step.id);
    }
  }

  lemma CreditingKeepsInv(s: State, step: Step)
    requires Inv(s) && Enabled(s, step) && (step.Credit? || step.LoseCredit? || step.Evict?)
    ensures Inv(Next(s, step))
  {
    if step.Credit? {
      CreditKeeps(s, step.worker);
    } else if step.LoseCredit? {
      LoseCreditKeeps(s, step.worker);
    } else {
      EvictKeeps(s, step.account);
    }
  }

  /** Whatever the interleaving, and even across a reconcile taken while calls are in progress,
      no step breaks the conservation law. */
  lemma StepKeepsInv(s: State, step: Step)
    requires Inv(s) && Enabled(s, step) && NonNegative(step)
    ensures Inv(Next(s, step))
  {
    if step.Configure? || step.Reconcile? || step.Decrement? {
      OpeningKeepsInv(s, step);
    } else if step.Credit? || step.LoseCredit? || step.Evict? {
      CreditingKeepsInv(s, step);
    } else {
      RowStepKeepsInv(s, step);
    }
  }
}
