/** Exactly when the two ledgers part, for caps that differ between the runs of a team: the in-memory
    one decides by the caps of the run that asks, the counters hold what is left of the caps their
    accounts were last reconciled with. */
module BudgetDivergence {
  import opened Common
  import opened Money
  import opened Sums
  import opened BudgetProtocol
  import opened BudgetSafety
  import opened BudgetCalls
  import opened BudgetMemory
  import opened BudgetEquivalence

  /** The team of every run, fixed in advance. */
  type Teams = string -> (string, string)

  predicate Home(teams: Teams, ctx: Context) {
    TeamOf(ctx) == teams(ctx.runId)
  }

  /** What a counter offers, and what the caps of the run that asks leave. */
  function Offered(s: State, ctx: Context, n: nat): int
    requires n < 3
  {
    CentsToUsd(Counter(s, AccountOf(ctx, n)))
  }

  ghost function Own(s: State, ctx: Context, n: nat): int
    requires n < 3 && ctx.runId in s.caps
  {
    CapFor(s.caps[ctx.runId], AccountOf(ctx, n)) - Usage(s.rows, AccountOf(ctx, n))
  }

  /** Counters offer what the run's caps leave, or too little is left either way. */
  ghost predicate DecidesAlike(s: State, ctx: Context, amount: int)
    requires ctx.runId in s.caps
  {
    || (Offered(s, ctx, 0) == Own(s, ctx, 0) && Offered(s, ctx, 1) == Own(s, ctx, 1)
        && Offered(s, ctx, 2) == Own(s, ctx, 2))
    || ((Offered(s, ctx, 0) < amount || Offered(s, ctx, 1) < amount || Offered(s, ctx, 2) < amount)
        && (Own(s, ctx, 0) < amount || Own(s, ctx, 1) < amount || Own(s, ctx, 2) < amount))
  }

  ghost predicate NotOverspent(s: State, ctx: Context)
    requires ctx.runId in s.caps
  {
    Own(s, ctx, 0) >= 0 && Own(s, ctx, 1) >= 0 && Own(s, ctx, 2) >= 0
  }

  /** Whether a call will be answered alike, read off the ledger over two stores alone. */
  ghost predicate Alike(s: State, c: Command) {
    match c
    case Reserves(ctx, _, amount) => ctx.runId in s.caps ==> DecidesAlike(s, ctx, amount)
    case Balances(ctx) => ctx.runId in s.caps ==> NotOverspent(s, ctx)
    case _ => true
  }

  /** As for equal caps, but the caps of a run are its own. */
  ghost predicate Allowed(teams: Teams, s: State, c: Command) {
    match c
    case Configures(ctx, caps) => Home(teams, ctx) && WholeCaps(caps)
    case Reserves(ctx, id, amount) => Home(teams, ctx) && id !in s.rows && amount >= 0 && WholeCents(amount)
    case Settles(id, actual) => WholeCents(actual) && (IsActive(s, id) ==> actual <= s.rows[id].reserved)
    case Releases(_) => true
    case Balances(ctx) => Home(teams, ctx)
  }

  ghost predicate Ready(teams: Teams, s: State, m: MemState) {
    && s.caps == m.capsByRun
    && forall ctx: Context | ctx.runId in s.caps && Home(teams, ctx) :: TeamOf(ctx) in m.teamCaps && HasCounters(s, ctx)
  }

  ghost predicate RowsHome(teams: Teams, s: State) {
    forall id | id in s.rows :: Home(teams, s.rows[id].ctx) && s.rows[id].ctx.runId in s.caps
  }

  /** The books agree, whatever the counters hold. */
  ghost predicate SameBooks(teams: Teams, s: State, m: MemState) {
    Quiet(s) && Ready(teams, s, m) && SameHolds(s, m) && SameSpend(s, m) && RowsHome(teams, s)
  }

  lemma HomeIsReady(teams: Teams, s: State, m: MemState, ctx: Context)
    requires Ready(teams, s, m) && Home(teams, ctx) && ctx.runId in s.caps
    ensures HasCounters(s, ctx) && KeysPresent(s, ctx) && Configured(m, ctx) && Ensured(s, ctx) == s
  {
  }

  lemma LeftIsOwn(teams: Teams, s: State, m: MemState, ctx: Context, n: nat)
    requires SameBooks(teams, s, m) && Home(teams, ctx) && ctx.runId in s.caps && n < 3
    ensures Configured(m, ctx) && MemLeft(m, ctx, n) == Own(s, ctx, n)
    ensures Remaining(s, ctx, AccountOf(ctx, n)) == Max(0, Own(s, ctx, n))
  {
    HomeIsReady(teams, s, m, ctx);
    UsedIsUsage(s, m, AccountOf(ctx, n));
  }

  // ------------------------------------------------ one call

  /** How either ledger answers when x, y and z are left on the three accounts. */
  function Decision(x: int, y: int, z: int, amount: int): Answer {
    if x >= amount && y >= amount && z >= amount then Ok(Quote(x - amount, y - amount, z - amount))
    else Err(BudgetExceeded)
  }

  lemma DecisionsAgreeIff(x: int, y: int, z: int, u: int, v: int, w: int, amount: int)
    ensures SameAnswer(Decision(x, y, z, amount), Decision(u, v, w, amount))
       <==> (x == u && y == v && z == w)
            || ((x < amount || y < amount || z < amount) && (u < amount || v < amount || w < amount))
  {
  }

  lemma CountersDecide(s: State, ctx: Context, amount: int)
    requires KeysPresent(s, ctx) && WholeCents(amount)
    ensures Affordable(s, ctx, UsdToCents(amount))
       <==> Offered(s, ctx, 0) >= amount && Offered(s, ctx, 1) >= amount && Offered(s, ctx, 2) >= amount
    ensures CounterQuote(Decremented(s.counters, ctx, UsdToCents(amount)), ctx)
         == Quote(Offered(s, ctx, 0) - amount, Offered(s, ctx, 1) - amount, Offered(s, ctx, 2) - amount)
  {
    RoundingKeepsWholeCents(amount);
    assert Touches(ctx, AccountOf(ctx, 0)) && Touches(ctx, AccountOf(ctx, 1)) && Touches(ctx, AccountOf(ctx, 2));
  }

  lemma MemoryDecides(teams: Teams, s: State, m: MemState, ctx: Context, id: ResId, amount: int)
    requires SameBooks(teams, s, m) && Home(teams, ctx) && ctx.runId in s.caps
    ensures var (n, y) := MemReserve(m, ctx, id, amount);
            && y == Decision(Own(s, ctx, 0), Own(s, ctx, 1), Own(s, ctx, 2), amount)
            && n == if y.Ok? then m.(active := m.active[id := Hold(ctx, amount)]) else m
  {
    LeftIsOwn(teams, s, m, ctx, 0);
    LeftIsOwn(teams, s, m, ctx, 1);
    LeftIsOwn(teams, s, m, ctx, 2);
  }

  lemma FastDecides(teams: Teams, s: State, m: MemState, w: WorkerId, ctx: Context, id: ResId, amount: int)
    requires SameBooks(teams, s, m) && Home(teams, ctx) && ctx.runId in s.caps && WholeCents(amount)
    ensures var (t, x) := ReserveCall(s, w, ctx, id, amount, NO_FAULT);
            && x == Decision(Offered(s, ctx, 0), Offered(s, ctx, 1), Offered(s, ctx, 2), amount)
            && t == (if x.Ok? then Reserved(s, w, ctx, id, amount) else s)
            && (x.Ok? ==> Enabled(s, Decrement(w, ctx, amount)))
  {
    HomeIsReady(teams, s, m, ctx);
    CountersDecide(s, ctx, amount);
  }

  /** The two decide alike exactly if the counters offer what the caps of the asking run leave, or
      both have too little. */
  lemma ReserveAnswersAlikeIff(teams: Teams, s: State, m: MemState, w: WorkerId, ctx: Context, id: ResId, amount: int)
    requires SameBooks(teams, s, m) && Home(teams, ctx) && ctx.runId in s.caps && WholeCents(amount)
    ensures SameAnswer(ReserveCall(s, w, ctx, id, amount, NO_FAULT).1, MemReserve(m, ctx, id, amount).1)
       <==> DecidesAlike(s, ctx, amount)
  {
    FastDecides(teams, s, m, w, ctx, id, amount);
    MemoryDecides(teams, s, m, ctx, id, amount);
    DecisionsAgreeIff(Offered(s, ctx, 0), Offered(s, ctx, 1), Offered(s, ctx, 2),
                      Own(s, ctx, 0), Own(s, ctx, 1), Own(s, ctx, 2), amount);
  }

  /** A balance is reported alike exactly if no cap of the run is overspent: only one of the ledgers
      stops at zero. */
  lemma BalanceAnswersAlikeIff(teams: Teams, s: State, m: MemState, ctx: Context)
    requires SameBooks(teams, s, m) && Home(teams, ctx) && ctx.runId in s.caps
    ensures SameAnswer(BalanceCall(s, ctx).1, MemBalance(m, ctx).1) <==> NotOverspent(s, ctx)
    ensures BalanceCall(s, ctx).0 == s
  {
    HomeIsReady(teams, s, m, ctx);
    LeftIsOwn(teams, s, m, ctx, 0);
    LeftIsOwn(teams, s, m, ctx, 1);
    LeftIsOwn(teams, s, m, ctx, 2);
  }

  lemma ClosesAlike(s: State, m: MemState, w: WorkerId, c: Command)
    requires SameHolds(s, m) && s.flights == map[] && (c.Settles? || c.Releases?)
    requires c.Settles? && IsActive(s, c.id) ==> c.actual <= s.rows[c.id].reserved
    ensures SameAnswer(FastCall(s, w, c).1, MemCall(m, c).1)
  {
  }

  lemma CallAnswersAlikeIff(teams: Teams, s: State, m: MemState, w: WorkerId, c: Command)
    requires SameBooks(teams, s, m) && Allowed(teams, s, c)
    ensures SameAnswer(FastCall(s, w, c).1, MemCall(m, c).1) <==> Alike(s, c)
  {
    if c.Settles? || c.Releases? {
      ClosesAlike(s, m, w, c);
    } else if c.Reserves? && c.ctx.runId in s.caps {
      ReserveAnswersAlikeIff(teams, s, m, w, c.ctx, c.id, c.amount);
    } else if c.Balances? && c.ctx.runId in s.caps {
      BalanceAnswersAlikeIff(teams, s, m, c.ctx);
    }
  }

  // ------------------------------------------------ the books stay together

  lemma StaysReady(teams: Teams, s: State, t: State, m: MemState, n: MemState)
    requires Ready(teams, s, m) && t.caps == s.caps && s.counters.Keys <= t.counters.Keys
    requires n.capsByRun == m.capsByRun && n.teamCaps == m.teamCaps
    ensures Ready(teams, t, n)
  {
    forall c: Context | HasCounters(s, c) ensures HasCounters(t, c) {
    }
  }

  lemma ReservedRowsHome(teams: Teams, s: State, w: WorkerId, ctx: Context, id: ResId, amount: int)
    requires RowsHome(teams, s) && Home(teams, ctx) && ctx.runId in s.caps
    ensures var t := Reserved(s, w, ctx, id, amount);
            RowsHome(teams, t) && t.caps == s.caps && s.counters.Keys <= t.counters.Keys
  {
  }

  lemma ReservedBooks(teams: Teams, s: State, m: MemState, w: WorkerId, ctx: Context, id: ResId, amount: int)
    requires SameBooks(teams, s, m) && Allowed(teams, s, Reserves(ctx, id, amount))
    requires Enabled(s, Decrement(w, ctx, amount))
    ensures SameBooks(teams, Reserved(s, w, ctx, id, amount), m.(active := m.active[id := Hold(ctx, amount)]))
  {
    ReservedIsQuiet(s, w, ctx, id, amount);
    ReservedSameBooks(s, m, w, ctx, id, amount);
    ReservedRowsHome(teams, s, w, ctx, id, amount);
    StaysReady(teams, s, Reserved(s, w, ctx, id, amount), m, m.(active := m.active[id := Hold(ctx, amount)]));
  }

  lemma ReserveKeepsBooks(teams: Teams, s: State, m: MemState, w: WorkerId, ctx: Context, id: ResId, amount: int)
    requires SameBooks(teams, s, m) && Allowed(teams, s, Reserves(ctx, id, amount))
    requires SameAnswer(ReserveCall(s, w, ctx, id, amount, NO_FAULT).1, MemReserve(m, ctx, id, amount).1)
    ensures SameBooks(teams, ReserveCall(s, w, ctx, id, amount, NO_FAULT).0, MemReserve(m, ctx, id, amount).0)
  {
    if ctx.runId in s.caps {
      FastDecides(teams, s, m, w, ctx, id, amount);
      MemoryDecides(teams, s, m, ctx, id, amount);
      if MemReserve(m, ctx, id, amount).1.Ok? {
        ReservedBooks(teams, s, m, w, ctx, id, amount);
      }
    }
  }

  lemma ClosedBooks(teams: Teams, s: State, m: MemState, n: MemState, w: WorkerId, id: ResId, r: Reservation)
    requires SameBooks(teams, s, m) && Closing(s, id, r) && RowOk(s, r)
    requires n.capsByRun == m.capsByRun && n.teamCaps == m.teamCaps
    requires SameHolds(Closed(s, w, id, r), n) && SameSpend(Closed(s, w, id, r), n)
    ensures SameBooks(teams, Closed(s, w, id, r), n)
  {
    var t := Closed(s, w, id, r);
    ClosedTables(s, w, id, r);
    ClosedInv(s, w, id, r);
    ClosedIsWhole(s, t, id, r);
    StaysReady(teams, s, t, m, n);
  }

  lemma ClosedTables(s: State, w: WorkerId, id: ResId, r: Reservation)
    requires s.flights == map[]
    ensures var t := Closed(s, w, id, r);
      t.rows == s.rows[id := r] && t.caps == s.caps && t.flights == map[] && s.counters.Keys <= t.counters.Keys
  {
    FullCredit(s.(rows := s.rows[id := r]), w, r.ctx, UsdToCents(r.released));
  }

  lemma SettleKeepsBooks(teams: Teams, s: State, m: MemState, w: WorkerId, id: ResId, actual: int)
    requires SameBooks(teams, s, m) && IsActive(s, id) && actual <= s.rows[id].reserved && WholeCents(actual)
    ensures SameBooks(teams, Closed(s, w, id, SettledRow(s.rows[id], actual)), MemSettle(m, id, actual).0)
  {
    var r := SettledRow(s.rows[id], actual);
    ClosingIsOk(s, id, actual);
    ClosedTables(s, w, id, r);
    SettledSameBooks(s, Closed(s, w, id, r), m, id, actual);
    ClosedBooks(teams, s, m, MemSettle(m, id, actual).0, w, id, r);
  }

  lemma ReleaseKeepsBooks(teams: Teams, s: State, m: MemState, w: WorkerId, id: ResId)
    requires SameBooks(teams, s, m) && IsActive(s, id)
    ensures SameBooks(teams, Closed(s, w, id, ReleasedRow(s.rows[id])), MemRelease(m, id).0)
  {
    var r := ReleasedRow(s.rows[id]);
    ClosingIsOk(s, id, 0);
    ClosedTables(s, w, id, r);
    ReleasedSameBooks(s, Closed(s, w, id, r), m, id);
    ClosedBooks(teams, s, m, MemRelease(m, id).0, w, id, r);
  }

  lemma ConfigureKeepsBooks(teams: Teams, s: State, m: MemState, ctx: Context, caps: Caps)
    requires SameBooks(teams, s, m) && Home(teams, ctx) && WholeCaps(caps)
    ensures SameBooks(teams, ConfigureCall(s, ctx, caps), MemConfigure(m, ctx, caps))
  {
    ConfiguredIsQuiet(s, ctx, caps);
    ConfiguredIsReady(teams, s, ConfigureCall(s, ctx, caps), m, ctx, caps);
  }

  lemma ConfiguredIsReady(teams: Teams, s: State, u: State, m: MemState, ctx: Context, caps: Caps)
    requires Ready(teams, s, m) && Home(teams, ctx) && u.caps == s.caps[ctx.runId := caps]
    requires forall a :: a in s.counters || Touches(ctx, a) ==> a in u.counters
    ensures Ready(teams, u, MemConfigure(m, ctx, caps))
  {
    forall c: Context | c.runId in u.caps && Home(teams, c)
      ensures TeamOf(c) in MemConfigure(m, ctx, caps).teamCaps && HasCounters(u, c)
    {
      if c.runId == ctx.runId {
        assert AccountOf(c, 0) == AccountOf(ctx, 0);
        assert AccountOf(c, 1) == AccountOf(ctx, 1) && AccountOf(c, 2) == AccountOf(ctx, 2);
      } else {
        assert HasCounters(s, c);
      }
    }
  }

  /** A call that is answered alike leaves the books alike. */
  lemma CallKeepsBooks(teams: Teams, s: State, m: MemState, w: WorkerId, c: Command)
    requires SameBooks(teams, s, m) && Allowed(teams, s, c)
    requires SameAnswer(FastCall(s, w, c).1, MemCall(m, c).1)
    ensures SameBooks(teams, FastCall(s, w, c).0, MemCall(m, c).0)
  {
    if c.Configures? {
      ConfigureKeepsBooks(teams, s, m, c.ctx, c.caps);
    } else if c.Reserves? {
      ReserveKeepsBooks(teams, s, m, w, c.ctx, c.id, c.amount);
    } else if c.Balances? {
      if c.ctx.runId in s.caps {
        BalanceAnswersAlikeIff(teams, s, m, c.ctx);
      }
    } else {
      CloseKeepsBooks(teams, s, m, w, c);
    }
  }

  /** What a settlement or release does to the ledger over two stores, if anything. */
  lemma CloseOutcome(s: State, w: WorkerId, c: Command)
    requires s.flights == map[] && (c.Settles? || c.Releases?)
    requires c.Settles? && IsActive(s, c.id) ==> c.actual <= s.rows[c.id].reserved
    ensures FastCall(s, w, c).0 ==
              if !IsActive(s, c.id) then s
              else Closed(s, w, c.id,
                          if c.Settles? then SettledRow(s.rows[c.id], c.actual) else ReleasedRow(s.rows[c.id]))
  {
  }

  lemma CloseKeepsBooks(teams: Teams, s: State, m: MemState, w: WorkerId, c: Command)
    requires SameBooks(teams, s, m) && Allowed(teams, s, c) && (c.Settles? || c.Releases?)
    ensures SameBooks(teams, FastCall(s, w, c).0, MemCall(m, c).0)
  {
    CloseOutcome(s, w, c);
    if IsActive(s, c.id) {
      if c.Settles? {
        SettleKeepsBooks(teams, s, m, w, c.id, c.actual);
      } else {
        ReleaseKeepsBooks(teams, s, m, w, c.id);
      }
    }
  }

  // ------------------------------------------------ whole sequences

  ghost predicate StepOfBoth(teams: Teams, w: WorkerId, s: State, m: MemState, c: Command, t: State, n: MemState) {
    s.flights == map[] && Allowed(teams, s, c) && t == FastCall(s, w, c).0 && n == MemCall(m, c).0
  }

  /** The two ledgers after the same calls, fs and ms. */
  ghost predicate SideBySide(teams: Teams, w: WorkerId, calls: seq<Command>, fs: seq<State>, ms: seq<MemState>) {
    && |fs| == |ms| == |calls| + 1
    && fs[0] == EMPTY && ms[0] == NO_LEDGER
    && forall i | 0 <= i < |calls| :: StepOfBoth(teams, w, fs[i], ms[i], calls[i], fs[i + 1], ms[i + 1])
  }

  ghost predicate AnsweredAlike(w: WorkerId, s: State, m: MemState, c: Command) {
    s.flights == map[] && SameAnswer(FastCall(s, w, c).1, MemCall(m, c).1)
  }

  lemma {:induction false} BooksStaySame(teams: Teams, w: WorkerId, calls: seq<Command>, fs: seq<State>,
                                         ms: seq<MemState>, i: nat)
    requires SideBySide(teams, w, calls, fs, ms) && i <= |calls|
    requires forall j | 0 <= j < i :: AnsweredAlike(w, fs[j], ms[j], calls[j]) || Alike(fs[j], calls[j])
    ensures SameBooks(teams, fs[i], ms[i])
  {
    if i > 0 {
      BooksStaySame(teams, w, calls, fs, ms, i - 1);
      assert StepOfBoth(teams, w, fs[i - 1], ms[i - 1], calls[i - 1], fs[i], ms[i]);
      CallAnswersAlikeIff(teams, fs[i - 1], ms[i - 1], w, calls[i - 1]);
      CallKeepsBooks(teams, fs[i - 1], ms[i - 1], w, calls[i - 1]);
    }
  }

  /** For any caps: all answers of a sequence are the same in both ledgers if and only if each call,
      where it is made, finds counters and caps that decide it alike. */
  lemma SequencesAgreeIff(teams: Teams, w: WorkerId, calls: seq<Command>, fs: seq<State>, ms: seq<MemState>)
    requires SideBySide(teams, w, calls, fs, ms)
    ensures (forall i | 0 <= i < |calls| :: AnsweredAlike(w, fs[i], ms[i], calls[i]))
       <==> (forall i | 0 <= i < |calls| :: Alike(fs[i], calls[i]))
  {
    if (forall i | 0 <= i < |calls| :: AnsweredAlike(w, fs[i], ms[i], calls[i]))
       || (forall i | 0 <= i < |calls| :: Alike(fs[i], calls[i])) {
      forall i | 0 <= i < |calls| ensures AnsweredAlike(w, fs[i], ms[i], calls[i]) <==> Alike(fs[i], calls[i]) {
        BooksStaySame(teams, w, calls, fs, ms, i);
        assert StepOfBoth(teams, w, fs[i], ms[i], calls[i], fs[i + 1], ms[i + 1]);
        CallAnswersAlikeIff(teams, fs[i], ms[i], w, calls[i]);
      }
    }
  }

  // ------------------------------------------------ what the counters offer

  /** The cap a counter stands for. */
  ghost function StandingCap(s: State, a: Account): int {
    CentsToUsd(Counter(s, a)) + Usage(s.rows, a)
  }

  lemma ReconciledStandingCap(s: State, ctx: Context, a: Account)
    requires ctx.runId in s.caps && Touches(ctx, a)
    ensures StandingCap(AfterReconcile(s, ctx), a) == Rounded(Remaining(s, ctx, a)) + Usage(s.rows, a)
  {
    ReconcileTouched(s, ctx, a);
  }

  /** A configuration makes the accounts of its context stand for its caps, or for what is used if
      that is more. */
  lemma ConfigureSetsStandingCap(s: State, ctx: Context, caps: Caps, a: Account)
    requires Quiet(s) && WholeCaps(caps) && Touches(ctx, a)
    ensures StandingCap(ConfigureCall(s, ctx, caps), a) == Max(CapFor(caps, a), Usage(s.rows, a))
  {
    ReconciledStandingCap(AfterConfigure(s, ctx, caps), ctx, a);
    ConfiguredWhole(s, ctx, caps, a);
  }

  lemma ReserveKeepsStandingCap(s: State, w: WorkerId, ctx: Context, id: ResId, amount: int, a: Account)
    requires Quiet(s) && id !in s.rows && WholeCents(amount)
    ensures StandingCap(Reserved(s, w, ctx, id, amount), a) == StandingCap(s, a)
  {
    RoundingKeepsWholeCents(amount);
    SumMapInsert(UsageOn(a), s.rows, id, Reservation(ctx, amount, Active, 0));
  }

  lemma CloseKeepsStandingCap(s: State, w: WorkerId, id: ResId, r: Reservation, a: Account)
    requires s.flights == map[] && Closing(s, id, r)
    ensures StandingCap(Closed(s, w, id, r), a) == StandingCap(s, a)
  {
    var mid := s.(rows := s.rows[id := r]);
    RoundingKeepsWholeCents(r.released);
    FullCredit(mid, w, r.ctx, UsdToCents(r.released));
    assert Counter(mid, a) == Counter(s, a);
    ClosedUsage(s, id, r, a);
  }

  /** No other call moves it, so an account stands for the cap it was last configured with. */
  lemma OnlyConfigureMovesStandingCaps(teams: Teams, s: State, m: MemState, w: WorkerId, c: Command, a: Account)
    requires SameBooks(teams, s, m) && Allowed(teams, s, c) && !(c.Configures? && Touches(c.ctx, a))
    ensures StandingCap(FastCall(s, w, c).0, a) == StandingCap(s, a)
  {
    if c.Configures? {
      ReconcileUntouched(AfterConfigure(s, c.ctx, c.caps), c.ctx, a);
    } else if c.Reserves? {
      if c.ctx.runId in s.caps {
        FastDecides(teams, s, m, w, c.ctx, c.id, c.amount);
        ReserveKeepsStandingCap(s, w, c.ctx, c.id, c.amount, a);
      }
    } else if c.Balances? {
      if c.ctx.runId in s.caps {
        BalanceAnswersAlikeIff(teams, s, m, c.ctx);
      }
    } else {
      CloseOutcome(s, w, c);
      if IsActive(s, c.id) {
        ClosingIsOk(s, c.id, if c.Settles? then c.actual else 0);
        CloseKeepsStandingCap(s, w, c.id, if c.Settles? then SettledRow(s.rows[c.id], c.actual)
                                          else ReleasedRow(s.rows[c.id]), a);
      }
    }
  }

  /** So every amount is decided alike exactly when the three accounts stand for the run's own caps:
      where one does not, a reservation of nothing already is answered differently. */
  lemma EveryAmountAlikeIff(s: State, ctx: Context)
    requires Quiet(s) && ctx.runId in s.caps && HasCounters(s, ctx)
    ensures (forall amount: nat :: DecidesAlike(s, ctx, amount))
       <==> forall n: nat | n < 3 :: StandingCap(s, AccountOf(ctx, n)) == CapFor(s.caps[ctx.runId], AccountOf(ctx, n))
  {
    assert Offered(s, ctx, 0) >= 0 && Offered(s, ctx, 1) >= 0 && Offered(s, ctx, 2) >= 0;
    if forall n: nat | n < 3 :: StandingCap(s, AccountOf(ctx, n)) == CapFor(s.caps[ctx.runId], AccountOf(ctx, n)) {
      forall n: nat | n < 3 ensures Offered(s, ctx, n) == Own(s, ctx, n) {
        assert StandingCap(s, AccountOf(ctx, n)) == CapFor(s.caps[ctx.runId], AccountOf(ctx, n));
      }
    }
    if forall amount: nat :: DecidesAlike(s, ctx, amount) {
      AlikeForNothing(s, ctx);
    }
  }

  lemma AlikeForNothing(s: State, ctx: Context)
    requires ctx.runId in s.caps
    requires Offered(s, ctx, 0) >= 0 && Offered(s, ctx, 1) >= 0 && Offered(s, ctx, 2) >= 0
    requires forall amount: nat :: DecidesAlike(s, ctx, amount)
    ensures forall n: nat | n < 3 :: StandingCap(s, AccountOf(ctx, n)) == CapFor(s.caps[ctx.runId], AccountOf(ctx, n))
  {
    assert DecidesAlike(s, ctx, 0);
    assert forall n: nat | n < 3 :: Offered(s, ctx, n) == Own(s, ctx, n);
  }
}
