/** The counters under the keys they have in Redis, where tenant and team are joined with a colon:
    the caps hold for a set of teams exactly if no two of them join to the same key. */
module BudgetKeys {
  import opened Money
  import opened BudgetProtocol
  import opened BudgetSafety
  import opened BudgetClaims
  import opened BudgetRuns

  type Team = (string, string)

  function Join(team: Team): string {
    team.0 + ":" + team.1
  }

  /** The key of an account, but for the day and month it ends with. */
  function KeyOf(a: Account): string {
    match a
    case Ticket(run) => "budget:ticket:" + run
    case Daily(tenant, team) => "budget:team:daily:" + Join((tenant, team))
    case Monthly(tenant, team) => "budget:team:monthly:" + Join((tenant, team))
  }

  /** No two of the teams share their keys. */
  ghost predicate JoinsDiffer(teams: set<Team>) {
    forall x, y | x in teams && y in teams && Join(x) == Join(y) :: x == y
  }

  predicate TeamIn(teams: set<Team>, ctx: Context) {
    (ctx.tenantId, ctx.teamId) in teams
  }

  predicate AccountIn(teams: set<Team>, a: Account) {
    match a
    case Ticket(_) => true
    case Daily(tenant, team) => (tenant, team) in teams
    case Monthly(tenant, team) => (tenant, team) in teams
  }

  lemma SamePrefix(p: string, x: string, y: string)
    requires p + x == p + y
    ensures x == y
  {
    assert x == (p + x)[|p|..] && y == (p + y)[|p|..];
  }

  lemma KindsHaveTheirKeys(a: Account)
    ensures var k := KeyOf(a);
      |k| > 12 && (a.Ticket? <==> k[8] == 'i') && (a.Daily? <==> k[8] == 'e' && k[12] == 'd')
  {
    match a
    case Ticket(run) => assert KeyOf(a)[8] == "budget:ticket:"[8];
    case Daily(tenant, team) =>
      assert KeyOf(a)[8] == "budget:team:daily:"[8] && KeyOf(a)[12] == "budget:team:daily:"[12];
    case Monthly(tenant, team) =>
      assert KeyOf(a)[8] == "budget:team:monthly:"[8] && KeyOf(a)[12] == "budget:team:monthly:"[12];
  }

  lemma KeysApart(teams: set<Team>, a: Account, b: Account)
    requires JoinsDiffer(teams) && AccountIn(teams, a) && AccountIn(teams, b) && KeyOf(a) == KeyOf(b)
    ensures a == b
  {
    KindsHaveTheirKeys(a);
    KindsHaveTheirKeys(b);
    match a
    case Ticket(run) => SamePrefix("budget:ticket:", run, b.runId);
    case Daily(tenant, team) =>
      SamePrefix("budget:team:daily:", Join((tenant, team)), Join((b.tenantId, b.teamId)));
      assert (tenant, team) == (b.tenantId, b.teamId);
    case Monthly(tenant, team) =>
      SamePrefix("budget:team:monthly:", Join((tenant, team)), Join((b.tenantId, b.teamId)));
      assert (tenant, team) == (b.tenantId, b.teamId);
  }

  // ------------------------------------------------ the protocol over keys

  /** The tables and calls of `store`, whose own counters are not used, and the keys in Redis. */
  datatype Keyed = Keyed(store: State, redis: map<string, int>)

  function At(redis: map<string, int>, a: Account): int {
    if KeyOf(a) in redis then redis[KeyOf(a)] else 0
  }

  /** The three keys of ctx set to f. */
  function PutKeys(redis: map<string, int>, ctx: Context, f: Account -> int): map<string, int> {
    redis[KeyOf(AccountOf(ctx, 0)) := f(AccountOf(ctx, 0))]
         [KeyOf(AccountOf(ctx, 1)) := f(AccountOf(ctx, 1))]
         [KeyOf(AccountOf(ctx, 2)) := f(AccountOf(ctx, 2))]
  }

  ghost predicate KeyedEnabled(k: Keyed, step: Step) {
    match step
    case Decrement(w, ctx, amount) =>
      && w !in k.store.flights && ctx.runId in k.store.caps
      && forall a | Touches(ctx, a) :: KeyOf(a) in k.redis && UsdToCents(amount) <= k.redis[KeyOf(a)]
    case Evict(a) => KeyOf(a) in k.redis
    case _ => Enabled(k.store, step)
  }

  ghost function RedisAfter(k: Keyed, step: Step): map<string, int>
    requires KeyedEnabled(k, step)
  {
    match step
    case Reconcile(ctx) => PutKeys(k.redis, ctx, CentsLeft(k.store, ctx))
    case Decrement(w, ctx, amount) => PutKeys(k.redis, ctx, a => At(k.redis, a) - UsdToCents(amount))
    case Credit(w) =>
      var f := k.store.flights[w];
      var a := AccountOf(f.ctx, f.credited);
      k.redis[KeyOf(a) := At(k.redis, a) + f.cents]
    case Evict(a) => k.redis - {KeyOf(a)}
    case _ => k.redis
  }

  ghost function StoreAfter(k: Keyed, step: Step): State
    requires KeyedEnabled(k, step)
  {
    match step
    case Decrement(w, ctx, amount) => AfterDecrement(k.store, w, ctx, amount)
    case Evict(_) => k.store
    case _ => Next(k.store, step)
  }

  ghost function KeyedNext(k: Keyed, step: Step): Keyed
    requires KeyedEnabled(k, step)
  {
    Keyed(StoreAfter(k, step).(counters := map[]), RedisAfter(k, step))
  }

  /** The teams a step is made for. */
  predicate StepIn(teams: set<Team>, step: Step) {
    match step
    case Configure(ctx, _) => TeamIn(teams, ctx)
    case Reconcile(ctx) => TeamIn(teams, ctx)
    case Decrement(_, ctx, _) => TeamIn(teams, ctx)
    case Evict(a) => AccountIn(teams, a)
    case _ => true
  }

  const NO_KEYS := Keyed(EMPTY, map[])

  /** A run of n tested steps for the teams ends in k. */
  ghost predicate KeyedReachesIn(teams: set<Team>, n: nat, k: Keyed) {
    if n == 0 then k == NO_KEYS
    else exists j, step :: KeyedReachesIn(teams, n - 1, j) && KeyedGoes(teams, j, step, k)
  }

  ghost predicate KeyedGoes(teams: set<Team>, j: Keyed, step: Step, k: Keyed) {
    StepIn(teams, step) && KeyedEnabled(j, step) && Tested(j.store, step) && k == KeyedNext(j, step)
  }

  ghost predicate KeyedReaches(teams: set<Team>, k: Keyed) {
    exists n: nat :: KeyedReachesIn(teams, n, k)
  }

  /** No account is charged and reserved beyond the highest cap it was reconciled with. */
  ghost predicate CapsKept(s: State) {
    forall a | a in s.peak :: Usage(s.rows, a) <= s.peak[a]
  }

  ghost predicate TeamsAreSafe(teams: set<Team>) {
    forall k | KeyedReaches(teams, k) :: CapsKept(k.store)
  }

  // ------------------------------------------------ apart, the keys are the accounts

  /** The same account in the ledger whose counters are accounts. */
  ghost predicate SameCounter(redis: map<string, int>, counters: map<Account, int>, a: Account) {
    && (a in counters <==> KeyOf(a) in redis)
    && (a in counters ==> counters[a] == redis[KeyOf(a)])
  }

  ghost predicate SameTables(s: State, t: State) {
    s.caps == t.caps && s.rows == t.rows && s.flights == t.flights && s.peak == t.peak
  }

  ghost predicate Mirrors(teams: set<Team>, k: Keyed, s: State) {
    && SameTables(k.store, s)
    && (forall a | AccountIn(teams, a) :: SameCounter(k.redis, s.counters, a))
    && (forall w | w in s.flights :: TeamIn(teams, s.flights[w].ctx))
    && (forall id | id in s.rows :: TeamIn(teams, s.rows[id].ctx))
  }

  lemma TouchedIsIn(teams: set<Team>, ctx: Context, a: Account)
    requires TeamIn(teams, ctx) && Touches(ctx, a)
    ensures AccountIn(teams, a)
  {
  }

  /** Setting three keys is setting three counters. */
  lemma PutKeysMirrors(teams: set<Team>, redis: map<string, int>, counters: map<Account, int>, ctx: Context,
                       f: Account -> int, g: Account -> int, a: Account)
    requires JoinsDiffer(teams) && TeamIn(teams, ctx) && AccountIn(teams, a) && SameCounter(redis, counters, a)
    requires forall b | Touches(ctx, b) :: f(b) == g(b)
    ensures SameCounter(PutKeys(redis, ctx, f), Put(counters, ctx, 0, g), a)
  {
    var x, y, z := AccountOf(ctx, 0), AccountOf(ctx, 1), AccountOf(ctx, 2);
    assert Touches(ctx, x) && Touches(ctx, y) && Touches(ctx, z);
    KeyMeets(teams, x, a);
    KeyMeets(teams, y, a);
    KeyMeets(teams, z, a);
  }

  lemma KeyMeets(teams: set<Team>, a: Account, b: Account)
    requires JoinsDiffer(teams) && AccountIn(teams, a) && AccountIn(teams, b)
    ensures KeyOf(a) == KeyOf(b) <==> a == b
  {
    if KeyOf(a) == KeyOf(b) {
      KeysApart(teams, a, b);
    }
  }

  lemma ReconcileMirrors(teams: set<Team>, k: Keyed, s: State, ctx: Context)
    requires JoinsDiffer(teams) && Mirrors(teams, k, s) && TeamIn(teams, ctx) && ctx.runId in s.caps
    ensures Mirrors(teams, KeyedNext(k, Reconcile(ctx)), AfterReconcile(s, ctx))
  {
    SamePeaks(k.store, s, ctx);
    forall a | AccountIn(teams, a)
      ensures SameCounter(KeyedNext(k, Reconcile(ctx)).redis, AfterReconcile(s, ctx).counters, a)
    {
      ReconcileMirrorsAt(teams, k, s, ctx, a);
    }
  }

  lemma ReconcileMirrorsAt(teams: set<Team>, k: Keyed, s: State, ctx: Context, a: Account)
    requires JoinsDiffer(teams) && TeamIn(teams, ctx) && ctx.runId in s.caps && AccountIn(teams, a)
    requires SameTables(k.store, s) && SameCounter(k.redis, s.counters, a)
    ensures SameCounter(PutKeys(k.redis, ctx, CentsLeft(k.store, ctx)), AfterReconcile(s, ctx).counters, a)
  {
    PutKeysMirrors(teams, k.redis, s.counters, ctx, CentsLeft(k.store, ctx), CentsLeft(s, ctx), a);
  }

  lemma SamePeaks(s: State, t: State, ctx: Context)
    requires SameTables(s, t) && ctx.runId in s.caps
    ensures AfterReconcile(s, ctx).peak == AfterReconcile(t, ctx).peak
  {
    forall a
      ensures a in AfterReconcile(s, ctx).peak <==> a in AfterReconcile(t, ctx).peak
      ensures Get(AfterReconcile(s, ctx).peak, a) == Get(AfterReconcile(t, ctx).peak, a)
    {
      SamePeakAt(s, t, ctx, a);
    }
    SameMap(AfterReconcile(s, ctx).peak, AfterReconcile(t, ctx).peak);
  }

  lemma SameMap(p: map<Account, int>, q: map<Account, int>)
    requires forall a :: (a in p <==> a in q) && Get(p, a) == Get(q, a)
    ensures p == q
  {
    forall a | a in p ensures p[a] == q[a] {
      assert Get(p, a) == Get(q, a);
    }
  }

  lemma SamePeakAt(s: State, t: State, ctx: Context, a: Account)
    requires SameTables(s, t) && ctx.runId in s.caps
    ensures a in AfterReconcile(s, ctx).peak <==> a in AfterReconcile(t, ctx).peak
    ensures Get(AfterReconcile(s, ctx).peak, a) == Get(AfterReconcile(t, ctx).peak, a)
  {
    if Touches(ctx, a) {
      ReconcileTouched(s, ctx, a);
      ReconcileTouched(t, ctx, a);
    } else {
      ReconcileUntouched(s, ctx, a);
      ReconcileUntouched(t, ctx, a);
    }
  }

  lemma DecrementEnabled(teams: set<Team>, k: Keyed, s: State, w: WorkerId, ctx: Context, amount: int)
    requires Mirrors(teams, k, s) && TeamIn(teams, ctx) && KeyedEnabled(k, Decrement(w, ctx, amount))
    ensures Enabled(s, Decrement(w, ctx, amount))
  {
    forall a | Touches(ctx, a) ensures a in s.counters && UsdToCents(amount) <= s.counters[a] {
      TouchedIsIn(teams, ctx, a);
      assert SameCounter(k.redis, s.counters, a);
    }
  }

  lemma DecrementMirrors(teams: set<Team>, k: Keyed, s: State, w: WorkerId, ctx: Context, amount: int)
    requires JoinsDiffer(teams) && Mirrors(teams, k, s) && TeamIn(teams, ctx)
    requires KeyedEnabled(k, Decrement(w, ctx, amount))
    ensures Mirrors(teams, KeyedNext(k, Decrement(w, ctx, amount)), AfterDecrement(s, w, ctx, amount))
  {
    var t := AfterDecrement(s, w, ctx, amount);
    var l := KeyedNext(k, Decrement(w, ctx, amount));
    forall a | AccountIn(teams, a) ensures SameCounter(l.redis, t.counters, a) {
      forall b | Touches(ctx, b) ensures At(k.redis, b) == Get(s.counters, b) {
        TouchedIsIn(teams, ctx, b);
        assert SameCounter(k.redis, s.counters, b);
      }
      PutKeysMirrors(teams, k.redis, s.counters, ctx, b => At(k.redis, b) - UsdToCents(amount),
                     b => Get(s.counters, b) - UsdToCents(amount), a);
    }
  }

  lemma CreditMirrors(teams: set<Team>, k: Keyed, s: State, w: WorkerId)
    requires JoinsDiffer(teams) && Mirrors(teams, k, s) && IsCrediting(s, w)
    ensures Mirrors(teams, KeyedNext(k, Credit(w)), AfterCredit(s, w))
  {
    var t := AfterCredit(s, w);
    var l := KeyedNext(k, Credit(w));
    var b := AccountOf(s.flights[w].ctx, s.flights[w].credited);
    TouchedIsIn(teams, s.flights[w].ctx, b);
    assert SameCounter(k.redis, s.counters, b);
    forall a | AccountIn(teams, a) ensures SameCounter(l.redis, t.counters, a) {
      assert SameCounter(k.redis, s.counters, a);
      KeyMeets(teams, a, b);
    }
  }

  lemma EvictMirrors(teams: set<Team>, k: Keyed, s: State, b: Account)
    requires JoinsDiffer(teams) && Mirrors(teams, k, s) && AccountIn(teams, b) && KeyOf(b) in k.redis
    ensures b in s.counters && Mirrors(teams, KeyedNext(k, Evict(b)), AfterEvict(s, b))
  {
    assert SameCounter(k.redis, s.counters, b);
    forall a | AccountIn(teams, a)
      ensures SameCounter(KeyedNext(k, Evict(b)).redis, AfterEvict(s, b).counters, a)
    {
      assert SameCounter(k.redis, s.counters, a);
      KeyMeets(teams, a, b);
    }
  }

  /** The other steps do not look at the counters. */
  lemma OthersMirror(teams: set<Team>, k: Keyed, s: State, step: Step)
    requires Mirrors(teams, k, s) && Enabled(k.store, step)
    requires !step.Reconcile? && !step.Decrement? && !step.Credit? && !step.Evict?
    ensures Enabled(s, step) && Mirrors(teams, KeyedNext(k, step), Next(s, step))
  {
  }

  lemma StepMirrors(teams: set<Team>, k: Keyed, s: State, step: Step)
    requires JoinsDiffer(teams) && Mirrors(teams, k, s) && StepIn(teams, step) && KeyedEnabled(k, step)
    ensures Enabled(s, step) && Mirrors(teams, KeyedNext(k, step), Next(s, step))
  {
    if step.Reconcile? {
      ReconcileMirrors(teams, k, s, step.ctx);
    } else if step.Decrement? {
      DecrementEnabled(teams, k, s, step.worker, step.ctx, step.amount);
      DecrementMirrors(teams, k, s, step.worker, step.ctx, step.amount);
    } else if step.Credit? {
      CreditMirrors(teams, k, s, step.worker);
    } else if step.Evict? {
      EvictMirrors(teams, k, s, step.account);
    } else {
      OthersMirror(teams, k, s, step);
    }
  }

  /** Tests are taken from the tables alone. */
  lemma TestsReadTables(s: State, t: State, step: Step)
    requires SameTables(s, t) && Enabled(t, step) && Tested(s, step)
    ensures Tested(t, step)
  {
    if step.Reconcile? {
      forall a | Touches(step.ctx, a) ensures Pending(t, a) == 0 && RoundsDown(Remaining(t, step.ctx, a)) {
        assert Pending(s, a) == 0 && RoundsDown(Remaining(s, step.ctx, a));
      }
    }
  }

  /** As long as no two teams share a key, the ledger over keys is the ledger over accounts. */
  lemma {:induction false} KeyedRunIsMirrored(teams: set<Team>, n: nat, k: Keyed) returns (s: State)
    requires JoinsDiffer(teams) && KeyedReachesIn(teams, n, k)
    ensures Mirrors(teams, k, s) && ClaimsFit(s)
  {
    if n == 0 {
      s := EMPTY;
    } else {
      var j, step :| KeyedReachesIn(teams, n - 1, j) && KeyedGoes(teams, j, step, k);
      var r := KeyedRunIsMirrored(teams, n - 1, j);
      StepMirrors(teams, j, r, step);
      TestsReadTables(j.store, r, step);
      StepKeepsClaimsFit(r, step);
      s := Next(r, step);
    }
  }

  lemma ApartTeamsAreSafe(teams: set<Team>)
    requires JoinsDiffer(teams)
    ensures TeamsAreSafe(teams)
  {
    forall k | KeyedReaches(teams, k) ensures CapsKept(k.store) {
      var n: nat :| KeyedReachesIn(teams, n, k);
      var s := KeyedRunIsMirrored(teams, n, k);
      forall a | a in k.store.peak ensures Usage(k.store.rows, a) <= k.store.peak[a] {
        NothingOwed(s, a);
        assert WithinCap(s, a);
      }
    }
  }

  // ------------------------------------------------ joined, one team spends what the other has left

  lemma KeyedRunGoesOn(teams: set<Team>, j: Keyed, step: Step) returns (k: Keyed)
    requires KeyedReaches(teams, j) && StepIn(teams, step) && KeyedEnabled(j, step) && Tested(j.store, step)
    ensures k == KeyedNext(j, step) && KeyedReaches(teams, k)
  {
    var n: nat :| KeyedReachesIn(teams, n, j);
    k := KeyedNext(j, step);
    assert KeyedGoes(teams, j, step, k);
    assert KeyedReachesIn(teams, n + 1, k);
  }

  function ContextOf(team: Team, run: string): Context {
    Context(team.0, team.1, run, "ticket", "role")
  }

  /** Two cents for the ticket, one for the team. */
  const TWO_AND_ONE := Caps(20000, 10000, 10000)

  /** Nothing is in flight, both runs have their caps, the keys of the first hold n cents for its
      ticket and m for its team, and the first team's caps were never above these. */
  ghost predicate Stage(k: Keyed, x: Context, y: Context, n: int, m: int) {
    && x.runId in k.store.caps && y.runId in k.store.caps
    && k.store.caps[x.runId] == TWO_AND_ONE && k.store.caps[y.runId] == TWO_AND_ONE
    && KeyOf(AccountOf(x, 0)) in k.redis && k.redis[KeyOf(AccountOf(x, 0))] == n
    && KeyOf(AccountOf(x, 1)) in k.redis && k.redis[KeyOf(AccountOf(x, 1))] == m
    && KeyOf(AccountOf(x, 2)) in k.redis && k.redis[KeyOf(AccountOf(x, 2))] == m
    && AccountOf(x, 1) in k.store.peak && k.store.peak[AccountOf(x, 1)] == 10000
  }

  lemma KeysOfOne(x: Context)
    ensures KeyOf(AccountOf(x, 0)) != KeyOf(AccountOf(x, 1)) && KeyOf(AccountOf(x, 1)) != KeyOf(AccountOf(x, 2))
    ensures KeyOf(AccountOf(x, 0)) != KeyOf(AccountOf(x, 2))
  {
    KindsHaveTheirKeys(AccountOf(x, 0));
    KindsHaveTheirKeys(AccountOf(x, 1));
    KindsHaveTheirKeys(AccountOf(x, 2));
  }

  lemma PutKeysAt(redis: map<string, int>, x: Context, f: Account -> int)
    ensures var r := PutKeys(redis, x, f);
      && (KeyOf(AccountOf(x, 0)) in r && r[KeyOf(AccountOf(x, 0))] == f(AccountOf(x, 0)))
      && (KeyOf(AccountOf(x, 1)) in r && r[KeyOf(AccountOf(x, 1))] == f(AccountOf(x, 1)))
      && (KeyOf(AccountOf(x, 2)) in r && r[KeyOf(AccountOf(x, 2))] == f(AccountOf(x, 2)))
  {
    KeysOfOne(x);
  }

  lemma DecrementsACent(teams: set<Team>, j: Keyed, x: Context, y: Context, n: int, m: int) returns (k: Keyed)
    requires KeyedReaches(teams, j) && Stage(j, x, y, n, m) && n >= 1 && m >= 1 && TeamIn(teams, x)
    requires j.store.flights == map[]
    ensures KeyedReaches(teams, k) && Stage(k, x, y, n - 1, m - 1)
    ensures k.store.flights == map["w" := Inserting(x, 10000)] && k.store.rows == j.store.rows
  {
    k := KeyedRunGoesOn(teams, j, Decrement("w", x, 10000));
    PutKeysAt(j.redis, x, a => At(j.redis, a) - UsdToCents(10000));
  }

  /** Reserves one cent for x, as row id. */
  lemma ReservesACent(teams: set<Team>, j: Keyed, x: Context, y: Context, id: ResId, n: int, m: int) returns (k: Keyed)
    requires KeyedReaches(teams, j) && Stage(j, x, y, n, m) && n >= 1 && m >= 1 && TeamIn(teams, x)
    requires j.store.flights == map[] && id !in j.store.rows
    ensures KeyedReaches(teams, k) && Stage(k, x, y, n - 1, m - 1) && k.store.flights == map[]
    ensures k.store.rows == j.store.rows[id := Reservation(x, 10000, Active, 0)]
  {
    var mid := DecrementsACent(teams, j, x, y, n, m);
    k := KeyedRunGoesOn(teams, mid, Insert("w", id));
  }

  /** Runs of two teams whose keys are the same. */
  ghost predicate Joined(x: Context, y: Context) {
    && x.runId != y.runId
    && (x.tenantId, x.teamId) != (y.tenantId, y.teamId)
    && Join((x.tenantId, x.teamId)) == Join((y.tenantId, y.teamId))
  }

  lemma JoinedKeys(x: Context, y: Context)
    requires Joined(x, y)
    ensures KeyOf(AccountOf(x, 0)) != KeyOf(AccountOf(y, 0))
    ensures KeyOf(AccountOf(x, 1)) == KeyOf(AccountOf(y, 1)) && KeyOf(AccountOf(x, 2)) == KeyOf(AccountOf(y, 2))
    ensures forall a :: Touches(x, a) ==> !Touches(y, a)
  {
    if KeyOf(AccountOf(x, 0)) == KeyOf(AccountOf(y, 0)) {
      SamePrefix("budget:ticket:", x.runId, y.runId);
    }
  }

  /** Only x has rows: a context apart from it has its whole caps left. */
  ghost predicate OnlyRowsOf(rows: Rows, x: Context) {
    forall id | id in rows :: rows[id].ctx == x
  }

  lemma WholeCapsLeft(s: State, x: Context, y: Context, a: Account)
    requires OnlyRowsOf(s.rows, x) && y.runId in s.caps && s.caps[y.runId] == TWO_AND_ONE && Touches(y, a)
    requires s.rows == map[] || !Touches(x, a)
    ensures Usage(s.rows, a) == 0 && Remaining(s, y, a) == CapFor(TWO_AND_ONE, a)
    ensures UsdToCents(Remaining(s, y, a)) == (if a.Ticket? then 2 else 1) && RoundsDown(Remaining(s, y, a))
  {
    SumOfZeros(UsageOn(a), s.rows);
  }

  lemma QuietReconcileIsTested(s: State, x: Context, y: Context)
    requires OnlyRowsOf(s.rows, x) && y.runId in s.caps && s.caps[y.runId] == TWO_AND_ONE && s.flights == map[]
    requires s.rows == map[] || forall a :: Touches(y, a) ==> !Touches(x, a)
    ensures Tested(s, Reconcile(y))
  {
    forall a | Touches(y, a) ensures Pending(s, a) == 0 && RoundsDown(Remaining(s, y, a)) {
      WholeCapsLeft(s, x, y, a);
    }
  }

  lemma ConfiguresBoth(teams: set<Team>, x: Context, y: Context) returns (k: Keyed)
    requires x.runId != y.runId && TeamIn(teams, x) && TeamIn(teams, y)
    ensures KeyedReaches(teams, k)
    ensures k == Keyed(EMPTY.(caps := map[x.runId := TWO_AND_ONE, y.runId := TWO_AND_ONE]), map[])
  {
    assert KeyedReachesIn(teams, 0, NO_KEYS);
    var j := KeyedRunGoesOn(teams, NO_KEYS, Configure(x, TWO_AND_ONE));
    k := KeyedRunGoesOn(teams, j, Configure(y, TWO_AND_ONE));
  }

  lemma OpensStage(teams: set<Team>, x: Context, y: Context) returns (k: Keyed)
    requires x.runId != y.runId && TeamIn(teams, x) && TeamIn(teams, y)
    ensures KeyedReaches(teams, k) && Stage(k, x, y, 2, 1) && k.store.rows == map[] && k.store.flights == map[]
  {
    var j := ConfiguresBoth(teams, x, y);
    QuietReconcileIsTested(j.store, x, x);
    k := KeyedRunGoesOn(teams, j, Reconcile(x));
    CentsOf(j.store, x, x);
    PutKeysAt(j.redis, x, CentsLeft(j.store, x));
    FirstPeak(j.store, x);
  }

  lemma CentsOf(s: State, x: Context, y: Context)
    requires OnlyRowsOf(s.rows, x) && y.runId in s.caps && s.caps[y.runId] == TWO_AND_ONE
    requires s.rows == map[] || forall a :: Touches(y, a) ==> !Touches(x, a)
    ensures CentsLeft(s, y)(AccountOf(y, 0)) == 2
    ensures CentsLeft(s, y)(AccountOf(y, 1)) == 1 && CentsLeft(s, y)(AccountOf(y, 2)) == 1
  {
    assert Touches(y, AccountOf(y, 0)) && Touches(y, AccountOf(y, 1)) && Touches(y, AccountOf(y, 2));
    WholeCapsLeft(s, x, y, AccountOf(y, 0));
    WholeCapsLeft(s, x, y, AccountOf(y, 1));
    WholeCapsLeft(s, x, y, AccountOf(y, 2));
  }

  lemma FirstPeak(s: State, x: Context)
    requires s.peak == map[] && x.runId in s.caps && s.caps[x.runId] == TWO_AND_ONE
    ensures var t := AfterReconcile(s, x); AccountOf(x, 1) in t.peak && t.peak[AccountOf(x, 1)] == 10000
  {
    assert Touches(x, AccountOf(x, 1));
    ReconcileTouched(s, x, AccountOf(x, 1));
  }

  /** Setting the keys of one of two joined contexts sets the other's, but for the ticket's. */
  lemma PutJoinedKeys(redis: map<string, int>, x: Context, y: Context, f: Account -> int)
    requires Joined(x, y) && KeyOf(AccountOf(x, 0)) in redis
    ensures var r := PutKeys(redis, y, f);
      && (KeyOf(AccountOf(x, 0)) in r && r[KeyOf(AccountOf(x, 0))] == redis[KeyOf(AccountOf(x, 0))])
      && (KeyOf(AccountOf(x, 1)) in r && r[KeyOf(AccountOf(x, 1))] == f(AccountOf(y, 1)))
      && (KeyOf(AccountOf(x, 2)) in r && r[KeyOf(AccountOf(x, 2))] == f(AccountOf(y, 2)))
  {
    JoinedKeys(x, y);
    KeysOfOne(x);
    PutKeysAt(redis, y, f);
  }

  /** The other team's reconcile sets the shared keys to what that team has left. */
  lemma ReconcilesTheOther(teams: set<Team>, j: Keyed, x: Context, y: Context) returns (k: Keyed)
    requires Joined(x, y) && TeamIn(teams, y) && KeyedReaches(teams, j) && Stage(j, x, y, 1, 0)
    requires OnlyRowsOf(j.store.rows, x) && j.store.flights == map[]
    ensures KeyedReaches(teams, k) && Stage(k, x, y, 1, 1)
    ensures k.store.rows == j.store.rows && k.store.flights == map[]
  {
    JoinedKeys(x, y);
    QuietReconcileIsTested(j.store, x, y);
    k := KeyedRunGoesOn(teams, j, Reconcile(y));
    CentsOf(j.store, x, y);
    PutJoinedKeys(j.redis, x, y, CentsLeft(j.store, y));
    PeakStays(j.store, x, y);
  }

  lemma PeakStays(s: State, x: Context, y: Context)
    requires Joined(x, y) && y.runId in s.caps && AccountOf(x, 1) in s.peak
    ensures var a, t := AccountOf(x, 1), AfterReconcile(s, y); a in t.peak && t.peak[a] == s.peak[a]
  {
    assert Touches(x, AccountOf(x, 1)) && !Touches(y, AccountOf(x, 1));
    ReconcileUntouched(s, y, AccountOf(x, 1));
  }

  /** One team spends its cent, the other reconciles, and the first spends the cent once more: the
      calls come one after the other and every amount is a whole cent. */
  lemma JoinedTeamsOverspend(teams: set<Team>, x: Context, y: Context) returns (k: Keyed)
    requires Joined(x, y) && TeamIn(teams, x) && TeamIn(teams, y)
    ensures KeyedReaches(teams, k) && !CapsKept(k.store)
  {
    var r := Reservation(x, 10000, Active, 0);
    var a := AccountOf(x, 1);
    var k1 := OpensStage(teams, x, y);
    var k2 := ReservesACent(teams, k1, x, y, "r", 2, 1);
    var k3 := ReconcilesTheOther(teams, k2, x, y);
    k := ReservesACent(teams, k3, x, y, "q", 1, 1);
    assert Touches(x, a) && k.store.rows == map["r" := r]["q" := r];
    UsageOfTwo("r", "q", r, r, a);
  }

  /** The caps of a set of teams hold, whatever their tested calls, if and only if no two of them join
      to the same key. */
  lemma TeamsAreSafeIff(teams: set<Team>)
    ensures TeamsAreSafe(teams) <==> JoinsDiffer(teams)
  {
    if JoinsDiffer(teams) {
      ApartTeamsAreSafe(teams);
    } else {
      var v, w :| v in teams && w in teams && Join(v) == Join(w) && v != w;
      var k := JoinedTeamsOverspend(teams, ContextOf(v, "one"), ContextOf(w, "two"));
    }
  }

  /** Such teams exist, and a colon in an id is what it takes. */
  lemma ColonsCollide()
    ensures !TeamsAreSafe({("a:b", "c"), ("a", "b:c")})
  {
    var x: Team, y: Team := ("a:b", "c"), ("a", "b:c");
    assert x in {("a:b", "c"), ("a", "b:c")} && y in {("a:b", "c"), ("a", "b:c")};
    assert Join(x) == "a:b:c" == Join(y) && x.0 != y.0;
    TeamsAreSafeIff({("a:b", "c"), ("a", "b:c")});
  }

  predicate NoColon(s: string) {
    ':' !in s
  }

  lemma TenantsWithoutColonsAreSafe(teams: set<Team>)
    requires forall t | t in teams :: NoColon(t.0)
    ensures TeamsAreSafe(teams)
  {
    forall x, y | x in teams && y in teams && Join(x) == Join(y) ensures x == y {
      assert NoColon(x.0) && NoColon(y.0);
      ColonSplits(x, y);
    }
    TeamsAreSafeIff(teams);
  }

  lemma ColonSplits(x: Team, y: Team)
    requires NoColon(x.0) && NoColon(y.0) && Join(x) == Join(y)
    ensures x == y
  {
    var j := Join(x);
    assert j[|x.0|] == ':' && j[|y.0|] == ':';
    assert forall i | 0 <= i < |x.0| :: j[i] == x.0[i];
    assert forall i | 0 <= i < |y.0| :: j[i] == y.0[i];
    assert |x.0| == |y.0|;
    assert x.0 == j[..|x.0|] == y.0;
    assert x.1 == j[|x.0| + 1..] == y.1;
  }
}
