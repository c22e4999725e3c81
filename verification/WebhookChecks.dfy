/** What both webhook guards check of a delivery, field by field, and that a delivery which fails a
    check leaves no trace. */
module WebhookChecks {
  import opened SlidingWindow
  import opened Webhook
  import opened WebhookGuards

  /** From an allowed address, correctly signed, and no older than the freshness window. */
  predicate IsSound(freshnessWindow: int, d: Delivery) {
    d.addressAllowed && d.signatureValid && d.now - d.timestamp <= freshnessWindow
  }

  /** How many of the times are less than 60 seconds ago. */
  function InTheLastMinute(times: seq<int>, now: int): nat {
    if times == [] then 0
    else InTheLastMinute(times[..|times| - 1], now) + if now - times[|times| - 1] < 60 then 1 else 0
  }

  lemma {:induction false} RecentAreCounted(times: seq<int>, now: int)
    ensures |Recent(times, now)| == InTheLastMinute(times, now)
    ensures forall t :: t in Recent(times, now) <==> t in times && now - t < 60
  {
    if times != [] {
      RecentAreCounted(times[..|times| - 1], now);
      assert times == times[..|times| - 1] + [times[|times| - 1]];
    }
  }

  /** The address has used up its requests to the endpoint. */
  predicate AddressFull(limit: int, windows: map<(string, string), seq<int>>, d: Delivery) {
    var key := (d.endpoint, d.remoteAddr);
    InTheLastMinute(if key in windows then windows[key] else [], d.now) >= limit
  }

  lemma AddressFullIsRefused(limit: int, windows: map<(string, string), seq<int>>, d: Delivery)
    ensures Refused(limit, TimesOf(windows, (d.endpoint, d.remoteAddr)), d.now) <==> AddressFull(limit, windows, d)
  {
    RecentAreCounted(TimesOf(windows, (d.endpoint, d.remoteAddr)), d.now);
  }

  // ------------------------------------------------ the guard over the table

  /** The reason of every rejection, in the order of the checks, and what acceptance takes, in any state
      of the guard. */
  lemma VerdictByFields(cfg: Config, g: Guard, d: Delivery)
    ensures var v := VerdictOf(cfg, g, d);
            var timely := d.now - d.timestamp <= cfg.freshnessWindow;
            var full := AddressFull(cfg.perMinuteLimit, g.windows, d);
            var key := d.source + ":" + d.eventId + ":" + d.digest;
      && (v == Rejected(AddressNotAllowed) <==> !d.addressAllowed)
      && (v == Rejected(InvalidSignature) <==> d.addressAllowed && !d.signatureValid)
      && (v == Rejected(StaleTimestamp) <==> d.addressAllowed && d.signatureValid && !timely)
      && (v == Rejected(RateLimited) <==> d.addressAllowed && d.signatureValid && timely && (d.flooded || full))
      && (v.Accepted? <==> d.addressAllowed && d.signatureValid && timely && !d.flooded && !full)
      && (v.Accepted? ==>
            && v.key == key
            && (v.deduplicated <==>
                  || (d.cacheReadable && key in g.cache)
                  || exists row :: row in g.rows && row.source == d.source && row.eventId == d.eventId))
  {
    AddressFullIsRefused(cfg.perMinuteLimit, g.windows, d);
  }

  /** What a delivery leaves behind: a row if it is accepted as new; its time in the window of its address
      and endpoint if it gets that far and passes; its event id among the rejections if it is flooded. */
  lemma EffectsByFields(cfg: Config, g: Guard, d: Delivery)
    ensures var v := VerdictOf(cfg, g, d);
            var t := Step(cfg, g, Deliver(d));
            var bucket := (d.endpoint, d.remoteAddr);
            var asked := IsSound(cfg.freshnessWindow, d) && !d.flooded;
      && t.rows == (if v.Accepted? && !v.deduplicated then g.rows + [Row(d.source, d.eventId, d.digest)] else g.rows)
      && (forall b | b != bucket || !asked ::
            (b in t.windows <==> b in g.windows) && (b in g.windows ==> t.windows[b] == g.windows[b]))
      && (asked ==>
            bucket in t.windows
            && t.windows[bucket] == Recent(if bucket in g.windows then g.windows[bucket] else [], d.now)
                                    + if v.Accepted? then [d.now] else [])
      && t.rejections == (if IsSound(cfg.freshnessWindow, d) && d.flooded then g.rejections + [d.eventId]
                          else g.rejections)
      && (forall key :: key in t.cache <==>
            key in g.cache || (v.Accepted? && d.cacheWritable && key == v.key
                               && !(d.cacheReadable && v.key in g.cache)))
  {
    AddressFullIsRefused(cfg.perMinuteLimit, g.windows, d);
  }

  /** Over any run, whatever was accepted came from an allowed address, was signed, fresh and not
      flooded, and its address had passes left. */
  lemma AcceptedWasChecked(cfg: Config, events: seq<Event>, i: nat)
    requires i < |events| && events[i].Deliver? && VerdictAt(cfg, events, i).Accepted?
    ensures var d := events[i].delivery;
      && d.addressAllowed && d.signatureValid && d.now - d.timestamp <= cfg.freshnessWindow && !d.flooded
      && !AddressFull(cfg.perMinuteLimit, Run(cfg, events[..i]).windows, d)
  {
    VerdictByFields(cfg, Run(cfg, events[..i]), events[i].delivery);
  }

  /** The events without the deliveries that fail a check. */
  function SoundOnly(cfg: Config, events: seq<Event>): seq<Event> {
    if events == [] then []
    else
      var e := events[|events| - 1];
      SoundOnly(cfg, events[..|events| - 1])
      + if e.Deliver? && !IsSound(cfg.freshnessWindow, e.delivery) then [] else [e]
  }

  /** Deliveries from a forbidden address, with a wrong signature or a stale timestamp leave no trace:
      rows, windows, rejections and cache are what they are without them. */
  lemma {:induction false} UnsoundLeavesNoTrace(cfg: Config, events: seq<Event>)
    ensures Run(cfg, events) == Run(cfg, SoundOnly(cfg, events))
  {
    if events != [] {
      var front, e := events[..|events| - 1], events[|events| - 1];
      UnsoundLeavesNoTrace(cfg, front);
      if e.Deliver? && !IsSound(cfg.freshnessWindow, e.delivery) {
        assert Step(cfg, Run(cfg, front), e) == Run(cfg, front);
        assert SoundOnly(cfg, events) == SoundOnly(cfg, front);
      } else {
        var sound := SoundOnly(cfg, front);
        assert (sound + [e])[..|sound|] == sound;
      }
    }
  }

  // ------------------------------------------------ the in-memory guard

  predicate TicketFull(limit: int, windows: map<string, seq<int>>, ticket: string, now: int) {
    InTheLastMinute(if ticket in windows then windows[ticket] else [], now) >= limit
  }

  lemma TicketFullIsRefused(limit: int, windows: map<string, seq<int>>, ticket: string, now: int)
    ensures Refused(limit, TimesOf(windows, ticket), now) <==> TicketFull(limit, windows, ticket, now)
  {
    RecentAreCounted(TimesOf(windows, ticket), now);
  }

  /** In memory a repeated key is accepted after the three checks; only a new one is held against the
      windows of its ticket and of its address. */
  lemma MemoryVerdictByFields(cfg: MemoryConfig, g: MemoryGuard, d: Delivery, ticket: string)
    ensures var v := MemoryVerdict(cfg, g, d, ticket);
            var timely := d.now - d.timestamp <= cfg.freshnessWindow;
            var full := TicketFull(cfg.perTicketLimit, g.ticketWindows, ticket, d.now)
                        || AddressFull(cfg.perMinuteLimit, g.requestWindows, d);
            var key := d.source + ":" + d.eventId + ":" + d.digest;
      && (v == Rejected(AddressNotAllowed) <==> !d.addressAllowed)
      && (v == Rejected(InvalidSignature) <==> d.addressAllowed && !d.signatureValid)
      && (v == Rejected(StaleTimestamp) <==> d.addressAllowed && d.signatureValid && !timely)
      && (v == Rejected(RateLimited) <==> IsSound(cfg.freshnessWindow, d) && key !in g.seen && full)
      && (v == Accepted(true, key) <==> IsSound(cfg.freshnessWindow, d) && key in g.seen)
      && (v == Accepted(false, key) <==> IsSound(cfg.freshnessWindow, d) && key !in g.seen && !full)
  {
    AddressFullIsRefused(cfg.perMinuteLimit, g.requestWindows, d);
    TicketFullIsRefused(cfg.perTicketLimit, g.ticketWindows, ticket, d.now);
  }

  /** A sound, new delivery leaves its time with its ticket unless that is full, then with its address
      unless that is full, and then its key; any other delivery leaves nothing. */
  lemma MemoryEffectsByFields(cfg: MemoryConfig, g: MemoryGuard, d: Delivery, ticket: string)
    ensures var t := MemoryStep(cfg, g, d, ticket);
            var key := d.source + ":" + d.eventId + ":" + d.digest;
            var bucket := (d.endpoint, d.remoteAddr);
            var ticketTimes := Recent(if ticket in g.ticketWindows then g.ticketWindows[ticket] else [], d.now);
            var times := Recent(if bucket in g.requestWindows then g.requestWindows[bucket] else [], d.now);
            var flooded := TicketFull(cfg.perTicketLimit, g.ticketWindows, ticket, d.now);
            var full := AddressFull(cfg.perMinuteLimit, g.requestWindows, d);
      if !IsSound(cfg.freshnessWindow, d) || key in g.seen then t == g
      else if flooded then t == g.(ticketWindows := g.ticketWindows[ticket := ticketTimes])
      else
        && t.ticketWindows == g.ticketWindows[ticket := ticketTimes + [d.now]]
        && t.requestWindows == g.requestWindows[bucket := if full then times else times + [d.now]]
        && t.seen == if full then g.seen else g.seen + {key}
  {
    AddressFullIsRefused(cfg.perMinuteLimit, g.requestWindows, d);
    TicketFullIsRefused(cfg.perTicketLimit, g.ticketWindows, ticket, d.now);
  }

  function SoundCalls(cfg: MemoryConfig, calls: seq<MemoryCall>): seq<MemoryCall> {
    if calls == [] then []
    else
      var c := calls[|calls| - 1];
      SoundCalls(cfg, calls[..|calls| - 1]) + if IsSound(cfg.freshnessWindow, c.delivery) then [c] else []
  }

  lemma {:induction false} UnsoundLeavesNoTraceInMemory(cfg: MemoryConfig, calls: seq<MemoryCall>)
    ensures MemoryRun(cfg, calls) == MemoryRun(cfg, SoundCalls(cfg, calls))
  {
    if calls != [] {
      var front, c := calls[..|calls| - 1], calls[|calls| - 1];
      UnsoundLeavesNoTraceInMemory(cfg, front);
      var sound := SoundCalls(cfg, front);
      if IsSound(cfg.freshnessWindow, c.delivery) {
        assert (sound + [c])[..|sound|] == sound;
      } else {
        assert SoundCalls(cfg, calls) == sound;
      }
    }
  }
}
