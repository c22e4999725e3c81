/** The in-memory ledger, which re-sums its reservations on every call, as functions on values. */
module BudgetMemory {
  import opened Common
  import opened Sums
  import opened BudgetProtocol
  import opened BudgetCalls

  datatype Hold = Hold(ctx: Context, amount: int)

  /** The three spend dictionaries are one map here: their keys are the three kinds of account. */
  datatype MemState = MemState(capsByRun: map<string, Caps>, teamCaps: map<(string, string), Caps>,
                               spend: map<Account, int>, active: map<ResId, Hold>)

  const NO_LEDGER := MemState(map[], map[], map[], map[])

  function TeamOf(ctx: Context): (string, string) {
    (ctx.tenantId, ctx.teamId)
  }

  ghost function HoldOn(a: Account): (ResId, Hold) -> int {
    (id: ResId, h: Hold) => if Touches(h.ctx, a) then h.amount else 0
  }

  /** Spent plus reserved. */
  ghost function MemUsed(m: MemState, a: Account): int {
    Get(m.spend, a) + SumMap(HoldOn(a), m.active)
  }

  predicate Configured(m: MemState, ctx: Context) {
    ctx.runId in m.capsByRun && TeamOf(ctx) in m.teamCaps
  }

  ghost function MemLeft(m: MemState, ctx: Context, n: nat): int
    requires Configured(m, ctx) && n < 3
  {
    CapFor(m.capsByRun[ctx.runId], AccountOf(ctx, n)) - MemUsed(m, AccountOf(ctx, n))
  }

  function MemConfigure(m: MemState, ctx: Context, caps: Caps): MemState {
    m.(capsByRun := m.capsByRun[ctx.runId := caps], teamCaps := m.teamCaps[TeamOf(ctx) := caps])
  }

  ghost function MemReserve(m: MemState, ctx: Context, id: ResId, amount: int): (MemState, Answer) {
    if !Configured(m, ctx) then (m, Err(CapsNotConfigured))
    else if MemLeft(m, ctx, 0) < amount || MemLeft(m, ctx, 1) < amount || MemLeft(m, ctx, 2) < amount then
      (m, Err(BudgetExceeded))
    else
      (m.(active := m.active[id := Hold(ctx, amount)]),
       Ok(Quote(MemLeft(m, ctx, 0) - amount, MemLeft(m, ctx, 1) - amount, MemLeft(m, ctx, 2) - amount)))
  }

  /** The hold is dropped before the actual cost is looked at. */
  function MemSettle(m: MemState, id: ResId, actual: int): (MemState, Answer) {
    if id !in m.active then (m, Err(UnknownReservation))
    else
      var h := m.active[id];
      var rest := m.(active := m.active - {id});
      if actual > h.amount then (rest, Err(ActualAboveReserved))
      else (rest.(spend := Spent(m.spend, h.ctx, actual)), Ok(NOTHING))
  }

  function Spent(spend: map<Account, int>, ctx: Context, actual: int): map<Account, int> {
    Put(spend, ctx, 0, a => Get(spend, a) + actual)
  }

  lemma SpentOn(spend: map<Account, int>, ctx: Context, actual: int)
    ensures Spent(spend, ctx, actual) ==
      Incremented(Incremented(Incremented(spend, AccountOf(ctx, 0), actual), AccountOf(ctx, 1), actual),
                  AccountOf(ctx, 2), actual)
  {
  }

  function MemRelease(m: MemState, id: ResId): (MemState, Answer) {
    if id !in m.active then (m, Err(UnknownReservation))
    else (m.(active := m.active - {id}), Ok(NOTHING))
  }

  ghost function MemBalance(m: MemState, ctx: Context): (MemState, Answer) {
    if !Configured(m, ctx) then (m, Err(CapsNotConfigured))
    else (m, Ok(Quote(MemLeft(m, ctx, 0), MemLeft(m, ctx, 1), MemLeft(m, ctx, 2))))
  }
}
