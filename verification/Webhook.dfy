/** The webhook guard: which deliveries are let in, and the cache of seen deliveries in front of
    the table that has the last word on duplicates. */
module Webhook {
  import opened Common
  import opened SlidingWindow

  datatype Config = Config(freshnessWindow: int, perMinuteLimit: int)

  /** A delivery with the answers of the address list, the signature check and the flood script,
      and whether the cache can be read and written at that moment. */
  datatype Delivery = Delivery(
    source: string,
    eventId: string,
    digest: string,
    timestamp: int,
    endpoint: string,
    remoteAddr: string,
    addressAllowed: bool,
    signatureValid: bool,
    flooded: bool,
    now: int,
    cacheReadable: bool,
    cacheWritable: bool)

  datatype Reason = AddressNotAllowed | InvalidSignature | StaleTimestamp | RateLimited

  datatype Verdict = Rejected(reason: Reason) | Accepted(deduplicated: bool, key: string)

  datatype Row = Row(source: string, eventId: string, digest: string)

  /** The request windows, the table of deliveries, the logged flood rejections and the cache. */
  datatype Guard = Guard(
    windows: map<(string, string), seq<int>>,
    rows: seq<Row>,
    rejections: seq<string>,
    cache: set<string>)

  const NEW_GUARD := Guard(map[], [], [], {})

  /** What happens to a guard: a delivery, or the cache dropping a key of its own accord. */
  datatype Event = Deliver(delivery: Delivery) | Evict(key: string)

  // ------------------------------------------------ one delivery

  /** SHA-256 in hexadecimal. */
  predicate IsDigest(s: string) {
    |s| == 64
  }

  function IdempotencyKey(source: string, eventId: string, digest: string): string {
    source + ":" + eventId + ":" + digest
  }

  function KeyOf(d: Delivery): string {
    IdempotencyKey(d.source, d.eventId, d.digest)
  }

  predicate Recorded(rows: seq<Row>, source: string, eventId: string) {
    exists r | r in rows :: r.source == source && r.eventId == eventId
  }

  /** The checks before the windows are touched. */
  function EarlyRejection(cfg: Config, d: Delivery): Option<Reason> {
    if !d.addressAllowed then Some(AddressNotAllowed)
    else if !d.signatureValid then Some(InvalidSignature)
    else if d.now - d.timestamp > cfg.freshnessWindow then Some(StaleTimestamp)
    else if d.flooded then Some(RateLimited)
    else None
  }

  function BucketTimes(g: Guard, d: Delivery): seq<int> {
    TimesOf(g.windows, (d.endpoint, d.remoteAddr))
  }

  function Front(cfg: Config, g: Guard, d: Delivery): Option<Reason> {
    if EarlyRejection(cfg, d).Some? then EarlyRejection(cfg, d)
    else if Refused(cfg.perMinuteLimit, BucketTimes(g, d), d.now) then Some(RateLimited)
    else None
  }

  predicate CacheHit(g: Guard, d: Delivery) {
    d.cacheReadable && KeyOf(d) in g.cache
  }

  function VerdictOf(cfg: Config, g: Guard, d: Delivery): Verdict {
    if Front(cfg, g, d).Some? then Rejected(Front(cfg, g, d).value)
    else Accepted(CacheHit(g, d) || Recorded(g.rows, d.source, d.eventId), KeyOf(d))
  }

  function WindowsAfter(cfg: Config, g: Guard, d: Delivery): map<(string, string), seq<int>> {
    if EarlyRejection(cfg, d).Some? then g.windows
    else g.windows[(d.endpoint, d.remoteAddr) := TimesAfter(cfg.perMinuteLimit, BucketTimes(g, d), d.now)]
  }

  function RowsAfter(cfg: Config, g: Guard, d: Delivery): seq<Row> {
    if VerdictOf(cfg, g, d) == Accepted(false, KeyOf(d)) then g.rows + [Row(d.source, d.eventId, d.digest)] else g.rows
  }

  function RejectionsAfter(cfg: Config, g: Guard, d: Delivery): seq<string> {
    if d.flooded && EarlyRejection(cfg, d) == Some(RateLimited) then g.rejections + [d.eventId] else g.rejections
  }

  function CacheAfter(cfg: Config, g: Guard, d: Delivery): set<string> {
    if Front(cfg, g, d) == None && !CacheHit(g, d) && d.cacheWritable then g.cache + {KeyOf(d)} else g.cache
  }

  function Step(cfg: Config, g: Guard, e: Event): Guard {
    match e
    case Deliver(d) =>
      Guard(WindowsAfter(cfg, g, d), RowsAfter(cfg, g, d), RejectionsAfter(cfg, g, d), CacheAfter(cfg, g, d))
    case Evict(key) => g.(cache := g.cache - {key})
  }

  function Run(cfg: Config, events: seq<Event>): Guard {
    if events == [] then NEW_GUARD else Step(cfg, Run(cfg, events[..|events| - 1]), events[|events| - 1])
  }

  /** The verdict on the i-th event. */
  function VerdictAt(cfg: Config, events: seq<Event>, i: nat): Verdict
    requires i < |events| && events[i].Deliver?
  {
    VerdictOf(cfg, Run(cfg, events[..i]), events[i].delivery)
  }

  // ------------------------------------------------ the same guard without a cache

  function Blind(e: Event): Event {
    if e.Deliver? then Deliver(e.delivery.(cacheReadable := false, cacheWritable := false)) else e
  }

  function Uncached(events: seq<Event>): seq<Event> {
    seq(|events|, i requires 0 <= i < |events| => Blind(events[i]))
  }

  // ------------------------------------------------ when keys tell deliveries apart

  /** No source followed by a colon is the beginning of another source. */
  ghost predicate PrefixFree(sources: set<string>) {
    forall s, t | s in sources && t in sources && s != t :: !(s + ":" <= t)
  }

  lemma KeysTellApart(sources: set<string>, s: string, e: string, h: string, t: string, f: string, k: string)
    requires PrefixFree(sources) && s in sources && t in sources && IsDigest(h) && IsDigest(k)
    requires IdempotencyKey(s, e, h) == IdempotencyKey(t, f, k)
    ensures s == t && e == f && h == k
  {
    if |s| <= |t| {
      KeysSplit(s, e, h, t, f, k);
    } else {
      KeysSplit(t, f, k, s, e, h);
    }
  }

  lemma KeyParts(s: string, e: string, h: string)
    ensures var x := IdempotencyKey(s, e, h);
      |x| == |s| + |e| + |h| + 2 && x[..|s|] == s && x[|s| + 1..|x| - |h| - 1] == e && x[|x| - |h|..] == h
  {
    var x := IdempotencyKey(s, e, h);
    assert x == (s + ":") + (e + (":" + h));
    assert x == (s + ":" + e + ":") + h;
  }

  lemma KeysSplit(s: string, e: string, h: string, t: string, f: string, k: string)
    requires |h| == |k| && |s| <= |t|
    requires IdempotencyKey(s, e, h) == IdempotencyKey(t, f, k)
    ensures (s == t && e == f && h == k) || s + ":" <= t
  {
    var x := IdempotencyKey(s, e, h);
    if |s| == |t| {
      KeyParts(s, e, h);
      KeyParts(t, f, k);
    } else {
      assert x == (s + ":") + (e + ":" + h);
      assert x == t + (":" + f + ":" + k);
      assert s + ":" == x[..|s| + 1];
      assert t == x[..|t|];
    }
  }

  // ------------------------------------------------ the cache never changes an answer

  predicate From(sources: set<string>, e: Event) {
    e.Deliver? ==> e.delivery.source in sources && IsDigest(e.delivery.digest)
  }

  ghost predicate AllFrom(sources: set<string>, events: seq<Event>) {
    forall e | e in events :: From(sources, e)
  }

  /** A delivery of the same source and event has been recorded, whatever its body was. */
  ghost predicate BackedBy(sources: set<string>, rows: seq<Row>, key: string) {
    exists s, e, h ::
      s in sources && IsDigest(h) && Recorded(rows, s, e) && key == IdempotencyKey(s, e, h)
  }

  ghost predicate CacheIsBacked(sources: set<string>, g: Guard) {
    forall key | key in g.cache :: BackedBy(sources, g.rows, key)
  }

  ghost predicate SameButCache(g: Guard, u: Guard) {
    g.windows == u.windows && g.rows == u.rows && g.rejections == u.rejections
  }

  lemma RecordedStays(rows: seq<Row>, r: Row, source: string, eventId: string)
    ensures Recorded(rows + [r], source, eventId) <==>
            Recorded(rows, source, eventId) || (r.source == source && r.eventId == eventId)
  {
    if Recorded(rows, source, eventId) {
      var w :| w in rows && w.source == source && w.eventId == eventId;
      assert w in rows + [r];
    }
    assert r in rows + [r];
  }

  lemma BackedStays(sources: set<string>, rows: seq<Row>, r: Row, key: string)
    requires BackedBy(sources, rows, key)
    ensures BackedBy(sources, rows + [r], key)
  {
    var s, e, h :| s in sources && IsDigest(h) && Recorded(rows, s, e) && key == IdempotencyKey(s, e, h);
    RecordedStays(rows, r, s, e);
  }

  /** A hit in the cache says what the table would say. */
  lemma HitMeansRecorded(sources: set<string>, g: Guard, d: Delivery)
    requires PrefixFree(sources) && CacheIsBacked(sources, g) && From(sources, Deliver(d)) && CacheHit(g, d)
    ensures Recorded(g.rows, d.source, d.eventId)
  {
    var s, e, h :| s in sources && IsDigest(h) && Recorded(g.rows, s, e) && KeyOf(d) == IdempotencyKey(s, e, h);
    KeysTellApart(sources, d.source, d.eventId, d.digest, s, e, h);
  }

  lemma DeliveryStaysBacked(cfg: Config, sources: set<string>, g: Guard, d: Delivery)
    requires CacheIsBacked(sources, g) && From(sources, Deliver(d))
    ensures CacheIsBacked(sources, Step(cfg, g, Deliver(d)))
  {
    var rows := RowsAfter(cfg, g, d);
    forall key | key in CacheAfter(cfg, g, d) ensures BackedBy(sources, rows, key) {
      if key in g.cache {
        if rows != g.rows {
          BackedStays(sources, g.rows, Row(d.source, d.eventId, d.digest), key);
        }
      } else {
        if !Recorded(g.rows, d.source, d.eventId) {
          RecordedStays(g.rows, Row(d.source, d.eventId, d.digest), d.source, d.eventId);
        }
        assert Recorded(rows, d.source, d.eventId) && key == IdempotencyKey(d.source, d.eventId, d.digest);
      }
    }
  }

  lemma DeliveryIsTransparent(cfg: Config, sources: set<string>, g: Guard, u: Guard, d: Delivery)
    requires PrefixFree(sources) && CacheIsBacked(sources, g) && From(sources, Deliver(d)) && SameButCache(g, u)
    ensures var b := Blind(Deliver(d));
      && VerdictOf(cfg, g, d) == VerdictOf(cfg, u, b.delivery)
      && SameButCache(Step(cfg, g, Deliver(d)), Step(cfg, u, b))
  {
    if CacheHit(g, d) {
      HitMeansRecorded(sources, g, d);
    }
  }

  /** The run with the cache is as good as the run without: same verdicts, same stored rows. */
  ghost predicate Transparent(cfg: Config, events: seq<Event>) {
    && SameButCache(Run(cfg, events), Run(cfg, Uncached(events)))
    && forall i | 0 <= i < |events| && events[i].Deliver? ::
         VerdictAt(cfg, events, i) == VerdictAt(cfg, Uncached(events), i)
  }

  lemma UncachedFront(events: seq<Event>, i: nat)
    requires i <= |events|
    ensures Uncached(events[..i]) == Uncached(events)[..i]
  {
  }

  /** Whatever keys the cache drops and whenever it cannot be read or written, it changes nothing. */
  lemma {:induction false} CacheIsTransparent(cfg: Config, sources: set<string>, events: seq<Event>)
    requires PrefixFree(sources) && AllFrom(sources, events)
    ensures Transparent(cfg, events) && CacheIsBacked(sources, Run(cfg, events))
  {
    if events != [] {
      var k := |events| - 1;
      CacheIsTransparent(cfg, sources, events[..k]);
      UncachedFront(events, k);
      var e, g, u := events[k], Run(cfg, events[..k]), Run(cfg, Uncached(events[..k]));
      assert e in events;
      if e.Deliver? {
        DeliveryStaysBacked(cfg, sources, g, e.delivery);
        DeliveryIsTransparent(cfg, sources, g, u, e.delivery);
      }
      forall i | 0 <= i < |events| && events[i].Deliver?
        ensures VerdictAt(cfg, events, i) == VerdictAt(cfg, Uncached(events), i)
      {
        if i < k {
          EarlierVerdict(cfg, events, i);
        }
      }
    }
  }

  lemma EarlierVerdict(cfg: Config, events: seq<Event>, i: nat)
    requires i < |events| - 1 && events[i].Deliver?
    requires Transparent(cfg, events[..|events| - 1])
    ensures VerdictAt(cfg, events, i) == VerdictAt(cfg, Uncached(events), i)
  {
    var k := |events| - 1;
    assert events[..k][..i] == events[..i] && events[..k][i] == events[i];
    UncachedFront(events, k);
    assert Uncached(events)[..k][..i] == Uncached(events)[..i];
    assert VerdictAt(cfg, events[..k], i) == VerdictAt(cfg, Uncached(events[..k]), i);
  }

  // ------------------------------------------------ sources whose keys run into each other

  /** The second of these deliveries is new and is taken for a duplicate of the first. */
  function Collision(cfg: Config, s: string, t: string): seq<Event>
    requires s + ":" <= t
  {
    var digest := seq(64, _ => '0');
    [Deliver(Delivery(t, "1", digest, 0, "e", "a", true, true, false, cfg.freshnessWindow, true, true)),
     Deliver(Delivery(s, t[|s| + 1..] + ":1", digest, 0, "e", "b", true, true, false, cfg.freshnessWindow, true, true))]
  }

  lemma RunOfOne(cfg: Config, events: seq<Event>)
    requires |events| >= 1
    ensures Run(cfg, events[..1]) == Step(cfg, NEW_GUARD, events[0])
  {
    assert events[..1][..0] == [] && events[..1][0] == events[0];
  }

  lemma FirstDeliveryIsFresh(cfg: Config, d: Delivery)
    requires cfg.perMinuteLimit >= 1 && EarlyRejection(cfg, d) == None
    ensures Step(cfg, NEW_GUARD, Deliver(d)).rows == [Row(d.source, d.eventId, d.digest)]
    ensures d.cacheWritable ==> KeyOf(d) in Step(cfg, NEW_GUARD, Deliver(d)).cache
    ensures Step(cfg, NEW_GUARD, Deliver(d)).windows.Keys == {(d.endpoint, d.remoteAddr)}
  {
    assert Recent([], d.now) == [];
  }

  lemma CollidingKeys(cfg: Config, s: string, t: string)
    requires s + ":" <= t
    ensures KeyOf(Collision(cfg, s, t)[0].delivery) == KeyOf(Collision(cfg, s, t)[1].delivery)
  {
    assert t == s + ":" + t[|s| + 1..];
    assert t + ":" + "1" == s + ":" + (t[|s| + 1..] + ":1");
  }

  lemma CollisionIsNotTransparent(cfg: Config, s: string, t: string)
    requires cfg.perMinuteLimit >= 1 && s + ":" <= t
    ensures !Transparent(cfg, Collision(cfg, s, t))
  {
    var events := Collision(cfg, s, t);
    var first, second := events[0].delivery, events[1].delivery;
    var g, u := Run(cfg, events[..1]), Run(cfg, Uncached(events)[..1]);
    RunOfOne(cfg, events);
    RunOfOne(cfg, Uncached(events));
    FirstDeliveryIsFresh(cfg, first);
    FirstDeliveryIsFresh(cfg, Blind(events[0]).delivery);
    CollidingKeys(cfg, s, t);
    assert Recent([], second.now) == [];
    assert VerdictAt(cfg, events, 1) == Accepted(true, KeyOf(second));
    assert |s| < |t|;
    assert VerdictAt(cfg, Uncached(events), 1) == Accepted(false, KeyOf(second));
  }

  /** The cache is transparent for all runs over the sources exactly when none of the sources,
      followed by a colon, begins another. */
  lemma TransparentIff(cfg: Config, sources: set<string>)
    requires cfg.perMinuteLimit >= 1
    ensures (forall events :: AllFrom(sources, events) ==> Transparent(cfg, events)) <==> PrefixFree(sources)
  {
    if PrefixFree(sources) {
      forall events | AllFrom(sources, events) ensures Transparent(cfg, events) {
        CacheIsTransparent(cfg, sources, events);
      }
    } else {
      var s, t :| s in sources && t in sources && s != t && s + ":" <= t;
      var events := Collision(cfg, s, t);
      CollisionIsNotTransparent(cfg, s, t);
      assert AllFrom(sources, events);
    }
  }

  /** A single source cannot run into itself. */
  lemma OneSourceIsTransparent(cfg: Config, source: string, events: seq<Event>)
    requires AllFrom({source}, events)
    ensures Transparent(cfg, events)
  {
    CacheIsTransparent(cfg, {source}, events);
  }

  // ------------------------------------------------ duplicates

  /** Some earlier event delivered the same source and event id and was accepted. */
  ghost predicate AcceptedBefore(cfg: Config, events: seq<Event>, i: nat, source: string, eventId: string)
    requires i <= |events|
  {
    exists j | 0 <= j < i :: AcceptedAs(cfg, events, j, source, eventId)
  }

  ghost predicate AcceptedAs(cfg: Config, events: seq<Event>, j: nat, source: string, eventId: string)
    requires j < |events|
  {
    && events[j].Deliver? && VerdictAt(cfg, events, j).Accepted?
    && events[j].delivery.source == source && events[j].delivery.eventId == eventId
  }

  ghost predicate FreshAs(cfg: Config, events: seq<Event>, j: nat, source: string, eventId: string)
    requires j < |events|
  {
    AcceptedAs(cfg, events, j, source, eventId) && !VerdictAt(cfg, events, j).deduplicated
  }

  /** A row is there exactly when a delivery was accepted as new. */
  lemma {:induction false} RecordedIff(cfg: Config, events: seq<Event>, i: nat, source: string, eventId: string)
    requires i <= |events|
    ensures Recorded(Run(cfg, events[..i]).rows, source, eventId) <==>
            exists j | 0 <= j < i :: FreshAs(cfg, events, j, source, eventId)
  {
    if i == 0 {
      assert events[..0] == [];
    } else {
      var k := i - 1;
      RecordedIff(cfg, events, k, source, eventId);
      assert events[..i][..k] == events[..k];
      var g, e := Run(cfg, events[..k]), events[k];
      if e.Deliver? {
        RecordedStays(g.rows, Row(e.delivery.source, e.delivery.eventId, e.delivery.digest), source, eventId);
        assert FreshAs(cfg, events, k, source, eventId) <==>
               e.delivery.source == source && e.delivery.eventId == eventId
               && VerdictOf(cfg, g, e.delivery) == Accepted(false, KeyOf(e.delivery));
      } else {
        assert !FreshAs(cfg, events, k, source, eventId);
      }
    }
  }

  /** Each source and event id gets at most one verdict that is accepted and not a duplicate,
      whatever the sources look like and whatever the cache does. */
  lemma AtMostOneFreshVerdict(cfg: Config, events: seq<Event>, i: nat, j: nat, source: string, eventId: string)
    requires i < |events| && j < |events|
    requires FreshAs(cfg, events, i, source, eventId) && FreshAs(cfg, events, j, source, eventId)
    ensures i == j
  {
    if i < j {
      RecordedIff(cfg, events, j, source, eventId);
    } else if j < i {
      RecordedIff(cfg, events, i, source, eventId);
    }
  }

  /** And over prefix-free sources the duplicates are exactly the repetitions of an accepted one. */
  lemma DuplicateIffAcceptedBefore(cfg: Config, sources: set<string>, events: seq<Event>, i: nat)
    requires PrefixFree(sources) && AllFrom(sources, events)
    requires i < |events| && events[i].Deliver? && VerdictAt(cfg, events, i).Accepted?
    ensures VerdictAt(cfg, events, i).deduplicated <==>
            AcceptedBefore(cfg, events, i, events[i].delivery.source, events[i].delivery.eventId)
  {
    var d := events[i].delivery;
    assert AllFrom(sources, events[..i]);
    assert events[i] in events;
    CacheIsTransparent(cfg, sources, events[..i]);
    if CacheHit(Run(cfg, events[..i]), d) {
      HitMeansRecorded(sources, Run(cfg, events[..i]), d);
    }
    RecordedIff(cfg, events, i, d.source, d.eventId);
    if AcceptedBefore(cfg, events, i, d.source, d.eventId) {
      FirstAcceptedIsFresh(cfg, sources, events, i, d.source, d.eventId);
    }
  }

  lemma {:induction false} FirstAcceptedIsFresh(cfg: Config, sources: set<string>, events: seq<Event>, i: nat,
                                                source: string, eventId: string)
    requires PrefixFree(sources) && AllFrom(sources, events)
    requires i <= |events| && AcceptedBefore(cfg, events, i, source, eventId)
    ensures exists j | 0 <= j < i :: FreshAs(cfg, events, j, source, eventId)
    decreases i
  {
    var j :| 0 <= j < i && AcceptedAs(cfg, events, j, source, eventId);
    if VerdictAt(cfg, events, j).deduplicated {
      var d := events[j].delivery;
      assert events[j] in events && AllFrom(sources, events[..j]);
      CacheIsTransparent(cfg, sources, events[..j]);
      if CacheHit(Run(cfg, events[..j]), d) {
        HitMeansRecorded(sources, Run(cfg, events[..j]), d);
      }
      RecordedIff(cfg, events, j, source, eventId);
    } else {
      assert FreshAs(cfg, events, j, source, eventId);
    }
  }

  // ------------------------------------------------ the per-minute limit in the guard

  /** The requests that reach the windows. */
  function AttemptsOf(cfg: Config, events: seq<Event>): seq<Attempt<(string, string)>> {
    if events == [] then []
    else
      var e := events[|events| - 1];
      AttemptsOf(cfg, events[..|events| - 1]) +
      if e.Deliver? && EarlyRejection(cfg, e.delivery) == None
      then [Attempt((e.delivery.endpoint, e.delivery.remoteAddr), e.delivery.now)] else []
  }

  lemma {:induction false} WindowsAreTheLimiter(cfg: Config, events: seq<Event>)
    ensures Run(cfg, events).windows == RunOf(cfg.perMinuteLimit, AttemptsOf(cfg, events)).windows
  {
    if events != [] {
      var k := |events| - 1;
      WindowsAreTheLimiter(cfg, events[..k]);
      if events[k].Deliver? && EarlyRejection(cfg, events[k].delivery) == None {
        var d := events[k].delivery;
        RunOfSnoc(cfg.perMinuteLimit, AttemptsOf(cfg, events[..k]), Attempt((d.endpoint, d.remoteAddr), d.now));
      } else {
        assert AttemptsOf(cfg, events) == AttemptsOf(cfg, events[..k]);
      }
    }
  }

  /** The verdict `rate_limited` of this check is given exactly when the limit of requests from the
      same address to the same endpoint have passed in the last 60 seconds. */
  lemma RateLimitedIff(cfg: Config, events: seq<Event>, d: Delivery)
    requires EarlyRejection(cfg, d) == None
    requires ClockMonotone(AttemptsOf(cfg, events) + [Attempt((d.endpoint, d.remoteAddr), d.now)])
    ensures VerdictOf(cfg, Run(cfg, events), d) == Rejected(RateLimited) <==>
            var passes := RunOf(cfg.perMinuteLimit, AttemptsOf(cfg, events)).passes;
            |Recent(TimesOf(passes, (d.endpoint, d.remoteAddr)), d.now)| >= cfg.perMinuteLimit
  {
    WindowsAreTheLimiter(cfg, events);
    RefusedIff(cfg.perMinuteLimit, AttemptsOf(cfg, events), Attempt((d.endpoint, d.remoteAddr), d.now));
  }
}
