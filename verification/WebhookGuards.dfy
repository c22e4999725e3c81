/** The two webhook guards as objects. The in-memory one keeps keys instead of a table, and looks
    for a repeated key before it looks at the windows. */
module WebhookGuards {
  import opened Common
  import opened SlidingWindow
  import opened Webhook

  class PostgresRedisWebhookGuard {
    const config: Config
    var requestWindows: map<(string, string), seq<int>>
    var records: seq<Row>
    var rateLimitRejections: seq<string>
    var dedupeCache: set<string>

    function View(): Guard
      reads this
    {
      Guard(requestWindows, records, rateLimitRejections, dedupeCache)
    }

    constructor (config: Config)
      ensures View() == NEW_GUARD && this.config == config
    {
      this.config := config;
      requestWindows, records, rateLimitRejections, dedupeCache := map[], [], [], {};
    }

    method IsRateLimited(endpoint: string, remoteAddr: string, now: int) returns (limited: bool)
      modifies `requestWindows
      ensures var times := TimesOf(old(requestWindows), (endpoint, remoteAddr));
        && limited == Refused(config.perMinuteLimit, times, now)
        && requestWindows
           == old(requestWindows)[(endpoint, remoteAddr) := TimesAfter(config.perMinuteLimit, times, now)]
    {
      var bucket := (endpoint, remoteAddr);
      var times := PruneTimes(TimesOf(requestWindows, bucket), now);
      limited := |times| >= config.perMinuteLimit;
      if !limited {
        times := times + [now];
      }
      requestWindows := requestWindows[bucket := times];
    }

    /** The unique constraint on source and delivery id decides. */
    method InsertDelivery(row: Row) returns (inserted: bool)
      modifies `records
      ensures inserted == !Recorded(old(records), row.source, row.eventId)
      ensures records == if inserted then old(records) + [row] else old(records)
    {
      inserted := true;
      for i := 0 to |records|
        invariant records == old(records)
        invariant inserted <==>
                  forall k | 0 <= k < i :: !(records[k].source == row.source && records[k].eventId == row.eventId)
      {
        if records[i].source == row.source && records[i].eventId == row.eventId {
          inserted := false;
        }
      }
      if inserted {
        records := records + [row];
      }
    }

    method VerifyDelivery(d: Delivery) returns (verdict: Verdict)
      modifies this
      ensures verdict == VerdictOf(config, old(View()), d)
      ensures View() == Step(config, old(View()), Deliver(d))
    {
      ghost var g := View();
      if !d.addressAllowed {
        return Rejected(AddressNotAllowed);
      }
      if !d.signatureValid {
        return Rejected(InvalidSignature);
      }
      if d.now - d.timestamp > config.freshnessWindow {
        return Rejected(StaleTimestamp);
      }
      if d.flooded {
        rateLimitRejections := rateLimitRejections + [d.eventId];
        return Rejected(RateLimited);
      }
      var limited := IsRateLimited(d.endpoint, d.remoteAddr, d.now);
      if limited {
        return Rejected(RateLimited);
      }
      var key := IdempotencyKey(d.source, d.eventId, d.digest);
      if d.cacheReadable && key in dedupeCache {
        return Accepted(true, key);
      }
      var inserted := InsertDelivery(Row(d.source, d.eventId, d.digest));
      if d.cacheWritable {
        dedupeCache := dedupeCache + {key};
      }
      verdict := Accepted(!inserted, key);
    }
  }

  // ------------------------------------------------ the in-memory guard

  datatype MemoryConfig = MemoryConfig(freshnessWindow: int, perMinuteLimit: int, perTicketLimit: int)

  datatype MemoryGuard = MemoryGuard(
    seen: set<string>,
    requestWindows: map<(string, string), seq<int>>,
    ticketWindows: map<string, seq<int>>)

  const NEW_MEMORY := MemoryGuard({}, map[], map[])

  function EarlyMemoryRejection(cfg: MemoryConfig, d: Delivery): Option<Reason> {
    if !d.addressAllowed then Some(AddressNotAllowed)
    else if !d.signatureValid then Some(InvalidSignature)
    else if d.now - d.timestamp > cfg.freshnessWindow then Some(StaleTimestamp)
    else None
  }

  predicate TicketFlooded(cfg: MemoryConfig, g: MemoryGuard, d: Delivery, ticket: string) {
    Refused(cfg.perTicketLimit, TimesOf(g.ticketWindows, ticket), d.now)
  }

  predicate BucketFull(cfg: MemoryConfig, g: MemoryGuard, d: Delivery) {
    Refused(cfg.perMinuteLimit, TimesOf(g.requestWindows, (d.endpoint, d.remoteAddr)), d.now)
  }

  /** A seen key is accepted before either window is looked at. */
  function MemoryVerdict(cfg: MemoryConfig, g: MemoryGuard, d: Delivery, ticket: string): Verdict {
    if EarlyMemoryRejection(cfg, d).Some? then Rejected(EarlyMemoryRejection(cfg, d).value)
    else if KeyOf(d) in g.seen then Accepted(true, KeyOf(d))
    else if TicketFlooded(cfg, g, d, ticket) || BucketFull(cfg, g, d) then Rejected(RateLimited)
    else Accepted(false, KeyOf(d))
  }

  function MemoryStep(cfg: MemoryConfig, g: MemoryGuard, d: Delivery, ticket: string): MemoryGuard {
    if EarlyMemoryRejection(cfg, d).Some? || KeyOf(d) in g.seen then g
    else
      var flooded := TicketFlooded(cfg, g, d, ticket);
      var bucket := (d.endpoint, d.remoteAddr);
      MemoryGuard(
        if MemoryVerdict(cfg, g, d, ticket).Accepted? then g.seen + {KeyOf(d)} else g.seen,
        if flooded then g.requestWindows
        else g.requestWindows[bucket := TimesAfter(cfg.perMinuteLimit, TimesOf(g.requestWindows, bucket), d.now)],
        g.ticketWindows[ticket := TimesAfter(cfg.perTicketLimit, TimesOf(g.ticketWindows, ticket), d.now)])
  }

  class InMemoryWebhookGuard {
    const config: MemoryConfig
    var seenEvents: set<string>
    var requestWindows: map<(string, string), seq<int>>
    var ticketWindows: map<string, seq<int>>

    function View(): MemoryGuard
      reads this
    {
      MemoryGuard(seenEvents, requestWindows, ticketWindows)
    }

    constructor (config: MemoryConfig)
      ensures View() == NEW_MEMORY && this.config == config
    {
      this.config := config;
      seenEvents, requestWindows, ticketWindows := {}, map[], map[];
    }

    method TicketFloodExceeded(ticket: string, now: int) returns (exceeded: bool)
      modifies `ticketWindows
      ensures var times := TimesOf(old(ticketWindows), ticket);
        && exceeded == Refused(config.perTicketLimit, times, now)
        && ticketWindows == old(ticketWindows)[ticket := TimesAfter(config.perTicketLimit, times, now)]
    {
      var times := PruneTimes(TimesOf(ticketWindows, ticket), now);
      exceeded := |times| >= config.perTicketLimit;
      if !exceeded {
        times := times + [now];
      }
      ticketWindows := ticketWindows[ticket := times];
    }

    method VerifyDelivery(d: Delivery, ticket: string) returns (verdict: Verdict)
      modifies this
      ensures verdict == MemoryVerdict(config, old(View()), d, ticket)
      ensures View() == MemoryStep(config, old(View()), d, ticket)
    {
      if !d.addressAllowed {
        return Rejected(AddressNotAllowed);
      }
      if !d.signatureValid {
        return Rejected(InvalidSignature);
      }
      if d.now - d.timestamp > config.freshnessWindow {
        return Rejected(StaleTimestamp);
      }
      var key := IdempotencyKey(d.source, d.eventId, d.digest);
      if key in seenEvents {
        return Accepted(true, key);
      }
      var flooded := TicketFloodExceeded(ticket, d.now);
      if flooded {
        return Rejected(RateLimited);
      }
      var bucket := (d.endpoint, d.remoteAddr);
      var times := PruneTimes(TimesOf(requestWindows, bucket), d.now);
      if |times| >= config.perMinuteLimit {
        requestWindows := requestWindows[bucket := times];
        return Rejected(RateLimited);
      }
      requestWindows := requestWindows[bucket := times + [d.now]];
      seenEvents := seenEvents + {key};
      verdict := Accepted(false, key);
    }
  }

  // ------------------------------------------------ runs of the in-memory guard

  datatype MemoryCall = MemoryCall(delivery: Delivery, ticket: string)

  function MemoryRun(cfg: MemoryConfig, calls: seq<MemoryCall>): MemoryGuard {
    if calls == [] then NEW_MEMORY
    else
      var k := |calls| - 1;
      MemoryStep(cfg, MemoryRun(cfg, calls[..k]), calls[k].delivery, calls[k].ticket)
  }

  /** A delivery that is neither rejected early nor a repetition asks the ticket window. */
  predicate ReachesTickets(cfg: MemoryConfig, g: MemoryGuard, d: Delivery) {
    EarlyMemoryRejection(cfg, d) == None && KeyOf(d) !in g.seen
  }

  function TicketAttempts(cfg: MemoryConfig, calls: seq<MemoryCall>): seq<Attempt<string>> {
    if calls == [] then []
    else
      var k := |calls| - 1;
      var c := calls[k];
      TicketAttempts(cfg, calls[..k]) +
      if ReachesTickets(cfg, MemoryRun(cfg, calls[..k]), c.delivery) then [Attempt(c.ticket, c.delivery.now)] else []
  }

  /** And one that its ticket window lets pass asks the window of its address and endpoint. */
  function BucketAttempts(cfg: MemoryConfig, calls: seq<MemoryCall>): seq<Attempt<(string, string)>> {
    if calls == [] then []
    else
      var k := |calls| - 1;
      var c, g := calls[k], MemoryRun(cfg, calls[..k]);
      BucketAttempts(cfg, calls[..k]) +
      if ReachesTickets(cfg, g, c.delivery) && !TicketFlooded(cfg, g, c.delivery, c.ticket)
      then [Attempt((c.delivery.endpoint, c.delivery.remoteAddr), c.delivery.now)] else []
  }

  lemma {:induction false} MemoryWindowsAreLimiters(cfg: MemoryConfig, calls: seq<MemoryCall>)
    ensures MemoryRun(cfg, calls).ticketWindows == RunOf(cfg.perTicketLimit, TicketAttempts(cfg, calls)).windows
    ensures MemoryRun(cfg, calls).requestWindows == RunOf(cfg.perMinuteLimit, BucketAttempts(cfg, calls)).windows
  {
    if calls != [] {
      var k := |calls| - 1;
      var front, d, ticket := calls[..k], calls[k].delivery, calls[k].ticket;
      MemoryWindowsAreLimiters(cfg, front);
      RunOfSnoc(cfg.perTicketLimit, TicketAttempts(cfg, front), Attempt(ticket, d.now));
      RunOfSnoc(cfg.perMinuteLimit, BucketAttempts(cfg, front), Attempt((d.endpoint, d.remoteAddr), d.now));
      assert TicketAttempts(cfg, front) + [] == TicketAttempts(cfg, front);
      assert BucketAttempts(cfg, front) + [] == BucketAttempts(cfg, front);
    }
  }

  ghost predicate CallsInOrder(calls: seq<MemoryCall>) {
    forall i, j | 0 <= i < j < |calls| :: calls[i].delivery.now <= calls[j].delivery.now
  }

  ghost predicate NoLaterThan<K>(attempts: seq<Attempt<K>>, now: int) {
    forall i | 0 <= i < |attempts| :: attempts[i].now <= now
  }

  lemma InOrderSnoc<K>(attempts: seq<Attempt<K>>, a: Attempt<K>)
    requires ClockMonotone(attempts) && NoLaterThan(attempts, a.now)
    ensures ClockMonotone(attempts + [a]) && NoLaterThan(attempts + [a], a.now)
  {
  }

  lemma {:induction false} AttemptsAreInOrder(cfg: MemoryConfig, calls: seq<MemoryCall>, now: int)
    requires CallsInOrder(calls) && (calls != [] ==> calls[|calls| - 1].delivery.now <= now)
    ensures ClockMonotone(TicketAttempts(cfg, calls)) && NoLaterThan(TicketAttempts(cfg, calls), now)
    ensures ClockMonotone(BucketAttempts(cfg, calls)) && NoLaterThan(BucketAttempts(cfg, calls), now)
  {
    if calls != [] {
      var k := |calls| - 1;
      var front, d, ticket := calls[..k], calls[k].delivery, calls[k].ticket;
      AttemptsAreInOrder(cfg, front, d.now);
      InOrderSnoc(TicketAttempts(cfg, front), Attempt(ticket, d.now));
      InOrderSnoc(BucketAttempts(cfg, front), Attempt((d.endpoint, d.remoteAddr), d.now));
      assert TicketAttempts(cfg, front) + [] == TicketAttempts(cfg, front);
      assert BucketAttempts(cfg, front) + [] == BucketAttempts(cfg, front);
    }
  }

  /** Over any run, no 60 seconds see more than the limit of new deliveries pass, for a ticket or for
      an address at an endpoint. */
  lemma MemoryGuardKeepsItsLimits(cfg: MemoryConfig, calls: seq<MemoryCall>, ticket: string, bucket: (string, string),
                                  lo: int)
    requires CallsInOrder(calls) && cfg.perTicketLimit >= 0 && cfg.perMinuteLimit >= 0
    ensures CountIn(TimesOf(RunOf(cfg.perTicketLimit, TicketAttempts(cfg, calls)).passes, ticket), lo)
            <= cfg.perTicketLimit
    ensures CountIn(TimesOf(RunOf(cfg.perMinuteLimit, BucketAttempts(cfg, calls)).passes, bucket), lo)
            <= cfg.perMinuteLimit
  {
    AttemptsAreInOrder(cfg, calls, if calls == [] then 0 else calls[|calls| - 1].delivery.now);
    NoWindowExceedsTheLimit(cfg.perTicketLimit, TicketAttempts(cfg, calls), ticket, lo);
    NoWindowExceedsTheLimit(cfg.perMinuteLimit, BucketAttempts(cfg, calls), bucket, lo);
  }

  /** A new delivery is refused exactly when its ticket, or its address at the endpoint, has used up
      the limit in the last 60 seconds. */
  lemma MemoryRateLimitedIff(cfg: MemoryConfig, calls: seq<MemoryCall>, d: Delivery, ticket: string)
    requires CallsInOrder(calls + [MemoryCall(d, ticket)]) && ReachesTickets(cfg, MemoryRun(cfg, calls), d)
    ensures MemoryVerdict(cfg, MemoryRun(cfg, calls), d, ticket) == Rejected(RateLimited) <==>
            var tickets := TimesOf(RunOf(cfg.perTicketLimit, TicketAttempts(cfg, calls)).passes, ticket);
            var requests := TimesOf(RunOf(cfg.perMinuteLimit, BucketAttempts(cfg, calls)).passes,
                                    (d.endpoint, d.remoteAddr));
            |Recent(tickets, d.now)| >= cfg.perTicketLimit || |Recent(requests, d.now)| >= cfg.perMinuteLimit
  {
    var all := calls + [MemoryCall(d, ticket)];
    assert forall i | 0 <= i < |calls| :: all[i] == calls[i];
    assert all[|calls|] == MemoryCall(d, ticket);
    AttemptsAreInOrder(cfg, calls, d.now);
    MemoryWindowsAreLimiters(cfg, calls);
    var t, b := Attempt(ticket, d.now), Attempt((d.endpoint, d.remoteAddr), d.now);
    InOrderSnoc(TicketAttempts(cfg, calls), t);
    InOrderSnoc(BucketAttempts(cfg, calls), b);
    RefusedIff(cfg.perTicketLimit, TicketAttempts(cfg, calls), t);
    RefusedIff(cfg.perMinuteLimit, BucketAttempts(cfg, calls), b);
  }
}
