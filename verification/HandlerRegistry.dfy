/** The handler registry: a cache of the active snapshot's handlers that ages out after a time to
    live and is invalidated by broadcasts, which may be late, lost, or overtake a load. */
module HandlerRegistry {
  import opened Common

  // ------------------------------------------------ the registry as an object

  type Handlers = map<string, string>

  /** The row a load finds: the active snapshot and the handlers of its graph version. */
  datatype Active = Active(snapshotId: string, handlers: Handlers)

  /** A known name yields its handler, any other none. */
  function Lookup(handlers: Handlers, name: string): (kind: Option<string>)
    ensures name in handlers ==> kind == Some(handlers[name])
    ensures name !in handlers ==> kind == None
  {
    if name in handlers then Some(handlers[name]) else None
  }

  class SnapshotDrivenHandlerRegistry {
    const cacheTtl: int
    var cachedSnapshotId: Option<string>
    var cachedHandlers: Handlers
    var cacheLoadedAt: int

    constructor (ttl: int)
      ensures cacheTtl == ttl && cachedSnapshotId == None && cachedHandlers == map[]
    {
      cacheTtl, cachedSnapshotId, cachedHandlers, cacheLoadedAt := ttl, None, map[], 0;
    }

    predicate CacheStale(now: int)
      reads this
    {
      cachedSnapshotId == None || now - cacheLoadedAt >= cacheTtl
    }

    /** The cached handlers are those of the cached snapshot; snapshots never change. */
    ghost predicate Faithful(handlersOf: string -> Handlers)
      reads this
    {
      cachedSnapshotId.Some? ==> cachedHandlers == handlersOf(cachedSnapshotId.value)
    }

    /** Nothing but the given snapshot is cached. */
    ghost predicate HoldsAtMost(id: string)
      reads this
    {
      cachedSnapshotId.Some? ==> cachedSnapshotId.value == id
    }

    /** The fields are the cache of the world w. */
    ghost predicate Mirrors(w: World, handlersOf: string -> Handlers)
      reads this
    {
      if w.cache.Some? then
        && IdOf(w, w.cache.value.load.epoch).Some?
        && cachedSnapshotId == IdOf(w, w.cache.value.load.epoch)
        && cacheLoadedAt == w.cache.value.storedAt
        && cachedHandlers == handlersOf(cachedSnapshotId.value)
      else cachedSnapshotId == None
    }

    /** After the broadcast of an activation, no other snapshot is cached, whatever was before. */
    method Invalidate(snapshotId: Option<string>, ghost handlersOf: string -> Handlers)
      requires Faithful(handlersOf)
      modifies this
      ensures Faithful(handlersOf)
      ensures snapshotId.Some? ==> HoldsAtMost(snapshotId.value)
      ensures snapshotId == None ==> cachedSnapshotId == None
      ensures cachedSnapshotId.Some? ==>
                && cachedSnapshotId == old(cachedSnapshotId) && cacheLoadedAt == old(cacheLoadedAt)
                && cachedHandlers == old(cachedHandlers)
      ensures cachedSnapshotId.Some? <==> snapshotId.Some? && snapshotId == old(cachedSnapshotId)
    {
      if snapshotId.Some? && snapshotId == cachedSnapshotId {
        return;
      }
      cachedSnapshotId := None;
      cachedHandlers := map[];
      cacheLoadedAt := 0;
    }

    /** The first locked section of a call: the answer from the cache, unless it has aged out. */
    method FromCache(name: string, now: int) returns (hit: bool, answer: Option<string>)
      ensures hit <==> !CacheStale(now)
      ensures hit ==> answer == Lookup(cachedHandlers, name)
    {
      hit := !CacheStale(now);
      answer := if hit then Lookup(cachedHandlers, name) else None;
    }

    /** The second one: what was loaded is stored, whatever has happened since, and answers. */
    method StoreLoaded(name: string, active: Active, loadedAt: int) returns (answer: Option<string>)
      modifies this
      ensures cachedSnapshotId == Some(active.snapshotId) && cachedHandlers == active.handlers
      ensures cacheLoadedAt == loadedAt && answer == Lookup(active.handlers, name)
    {
      cachedSnapshotId := Some(active.snapshotId);
      cachedHandlers := active.handlers;
      cacheLoadedAt := loadedAt;
      answer := Lookup(cachedHandlers, name);
    }

    /** With every broadcast delivered, the answer is that of the active snapshot. `active` is what
        a load finds, and `loadedAt` when it is stored. */
    method Resolve(name: string, now: int, active: Option<Active>, loadedAt: int, ghost handlersOf: string -> Handlers)
      returns (r: Result<Option<string>, ()>)
      requires Faithful(handlersOf)
      requires active.Some? ==> active.value.handlers == handlersOf(active.value.snapshotId)
      modifies this
      ensures Faithful(handlersOf)
      ensures r.Err? <==> old(CacheStale(now)) && active == None
      ensures r.Err? ==> cachedSnapshotId == old(cachedSnapshotId)
      ensures r.Ok? ==> cachedSnapshotId.Some? && r.value == Lookup(handlersOf(cachedSnapshotId.value), name)
      ensures r.Ok? ==> if old(CacheStale(now)) then active.Some? && cachedSnapshotId.value == active.value.snapshotId
                                                     && cacheLoadedAt == loadedAt
                        else cachedSnapshotId == old(cachedSnapshotId) && cacheLoadedAt == old(cacheLoadedAt)
      ensures r.Ok? && active.Some? && old(HoldsAtMost(active.value.snapshotId)) ==>
                r.value == Lookup(active.value.handlers, name)
    {
      var hit, answer := FromCache(name, now);
      if hit {
        return Ok(answer);
      }
      if active == None {
        return Err(());
      }
      answer := StoreLoaded(name, active.value, loadedAt);
      r := Ok(answer);
    }
  }

  /** What the answer of a call is, by the snapshot it is answered from. */
  ghost function AnswerOf(w: World, from: Option<Cached>, name: string, handlersOf: string -> Handlers)
    : Option<string>
  {
    if from.Some? && IdOf(w, from.value.load.epoch).Some?
    then Lookup(handlersOf(IdOf(w, from.value.load.epoch).value), name) else None
  }

  /** The registry within a world in which any number of calls are under way: the first section of
      a call hits exactly when the world has a hit, and answers as it does. */
  method HitInWorld(registry: SnapshotDrivenHandlerRegistry, name: string, ghost w: World,
                    ghost handlersOf: string -> Handlers, now: int)
    returns (hit: bool, answer: Option<string>)
    requires registry.Mirrors(w, handlersOf) && now == w.now
    ensures hit <==> Enabled(registry.cacheTtl, w, Hit)
    ensures hit ==> answer == AnswerOf(w, AnsweredFrom(registry.cacheTtl, w, Hit), name, handlersOf)
  {
    hit, answer := registry.FromCache(name, now);
  }

  /** The second section finishes a load of the world. */
  method FinishInWorld(registry: SnapshotDrivenHandlerRegistry, name: string, active: Active, now: int, ghost w: World,
                       ghost thread: nat, ghost handlersOf: string -> Handlers)
    returns (answer: Option<string>)
    requires thread in w.loads && now == w.now
    requires IdOf(w, w.loads[thread].epoch) == Some(active.snapshotId)
    requires active.handlers == handlersOf(active.snapshotId)
    modifies registry
    ensures registry.Mirrors(Step(registry.cacheTtl, w, FinishLoad(thread)), handlersOf)
    ensures answer == AnswerOf(w, AnsweredFrom(registry.cacheTtl, w, FinishLoad(thread)), name, handlersOf)
  {
    answer := registry.StoreLoaded(name, active, now);
  }

  /** A broadcast invalidates as the world's delivery does, and a call without a snapshot clears. */
  method InvalidateInWorld(registry: SnapshotDrivenHandlerRegistry, snapshotId: Option<string>, ghost w: World,
                           ghost epoch: nat, ghost handlersOf: string -> Handlers)
    requires registry.Mirrors(w, handlersOf) && (snapshotId.Some? ==> IsEpoch(w, epoch) && snapshotId == IdOf(w, epoch))
    modifies registry
    ensures registry.Mirrors(Step(registry.cacheTtl, w, if snapshotId.Some? then Deliver(epoch) else Clear), handlersOf)
  {
    registry.Invalidate(snapshotId, handlersOf);
  }

  /** All else that happens in a world leaves the fields of the registry alone. */
  lemma OthersLeaveTheCache(registry: SnapshotDrivenHandlerRegistry, w: World, e: Event,
                                     handlersOf: string -> Handlers)
    requires registry.Mirrors(w, handlersOf) && Inv(w) && (e.Tick? || e.SwitchTo? || e.BeginLoad?)
    ensures registry.Mirrors(Step(registry.cacheTtl, w, e), handlersOf)
  {
  }

  // ------------------------------------------------ calls, switches and broadcasts interleaved

  /** An activation or rollback that has committed. */
  datatype Switch = Switch(at: int, id: string)

  /** A load that has read the active snapshot of some epoch and not yet stored it; overtaken once
      the broadcast of a later epoch has been delivered meanwhile. */
  datatype Loading = Loading(epoch: nat, readAt: int, overtaken: bool)

  datatype Cached = Cached(load: Loading, storedAt: int)

  /** Epoch e is the time the e-th switch is in force; `floor` is the latest epoch whose broadcast
      has arrived. */
  datatype World = World(now: int, switches: seq<Switch>, cache: Option<Cached>, loads: map<nat, Loading>, floor: nat)

  datatype Event =
    | Tick(to: int)
    | SwitchTo(id: string)
    | Deliver(epoch: nat)
    | Clear
    | BeginLoad(thread: nat)
    | FinishLoad(thread: nat)
    | Hit

  const FRESH := World(0, [], None, map[], 0)

  function Overtake(l: Loading, epoch: nat): Loading {
    l.(overtaken := l.overtaken || l.epoch < epoch)
  }

  predicate IsEpoch(w: World, epoch: nat) {
    1 <= epoch <= |w.switches|
  }

  function IdOf(w: World, epoch: nat): Option<string> {
    if IsEpoch(w, epoch) then Some(w.switches[epoch - 1].id) else None
  }

  predicate Enabled(ttl: int, w: World, e: Event) {
    match e
    case Tick(to) => to >= w.now
    case SwitchTo(_) => true
    case Deliver(epoch) => IsEpoch(w, epoch)
    case Clear => true
    case BeginLoad(t) => t !in w.loads && |w.switches| > 0
    case FinishLoad(t) => t in w.loads
    case Hit => w.cache.Some? && w.now - w.cache.value.storedAt < ttl
  }

  /** An event that is not possible does nothing. */
  function Step(ttl: int, w: World, e: Event): World {
    if !Enabled(ttl, w, e) then w
    else
      match e
      case Tick(to) => w.(now := to)
      case SwitchTo(id) => w.(switches := w.switches + [Switch(w.now, id)])
      case Deliver(epoch) =>
        w.(cache := if w.cache.Some? && IdOf(w, w.cache.value.load.epoch) == IdOf(w, epoch) then w.cache else None,
           loads := map t | t in w.loads :: Overtake(w.loads[t], epoch),
           floor := if epoch > w.floor then epoch else w.floor)
      case Clear => w.(cache := None)
      case BeginLoad(t) => w.(loads := w.loads[t := Loading(|w.switches|, w.now, false)])
      case FinishLoad(t) => w.(cache := Some(Cached(w.loads[t], w.now)), loads := w.loads - {t})
      case Hit => w
  }

  function Run(ttl: int, events: seq<Event>): World {
    if events == [] then FRESH else Step(ttl, Run(ttl, events[..|events| - 1]), events[|events| - 1])
  }

  /** What a resolving call answers from, if the event completes one. */
  function AnsweredFrom(ttl: int, w: World, e: Event): Option<Cached> {
    if !Enabled(ttl, w, e) then None
    else
      match e
      case FinishLoad(t) => Some(Cached(w.loads[t], w.now))
      case Hit => w.cache
      case _ => None
  }

  ghost predicate ActiveAt(w: World, epoch: nat, t: int) {
    && IsEpoch(w, epoch)
    && w.switches[epoch - 1].at <= t
    && (epoch < |w.switches| ==> t <= w.switches[epoch].at)
  }

  ghost predicate ReadHonestly(w: World, l: Loading) {
    ActiveAt(w, l.epoch, l.readAt) && l.readAt <= w.now
  }

  /** The snapshot of the epoch is in force again, or still, in some epoch from the floor on. */
  ghost predicate NotOutdated(w: World, epoch: nat) {
    exists e: nat :: w.floor <= e && IsEpoch(w, e) && IdOf(w, e) == IdOf(w, epoch)
  }

  ghost predicate Inv(w: World) {
    && (forall i | 0 <= i < |w.switches| :: w.switches[i].at <= w.now)
    && w.floor <= |w.switches|
    && (forall t | t in w.loads ::
          && ReadHonestly(w, w.loads[t])
          && if w.loads[t].overtaken then w.loads[t].epoch < |w.switches| else w.floor <= w.loads[t].epoch)
    && (w.cache.Some? ==>
          var c := w.cache.value;
          && ReadHonestly(w, c.load) && c.load.readAt <= c.storedAt <= w.now
          && if c.load.overtaken then c.load.epoch < |w.switches| else NotOutdated(w, c.load.epoch))
  }

  lemma StaysNotOutdated(w: World, v: World, epoch: nat)
    requires NotOutdated(w, epoch) && IsEpoch(w, epoch) && w.switches <= v.switches && v.floor <= w.floor
    ensures NotOutdated(v, epoch)
  {
    var x: nat :| w.floor <= x && IsEpoch(w, x) && IdOf(w, x) == IdOf(w, epoch);
    assert IsEpoch(v, x) && IdOf(v, x) == IdOf(v, epoch);
  }

  lemma DeliverKeepsInv(ttl: int, w: World, epoch: nat)
    requires Inv(w) && IsEpoch(w, epoch)
    ensures Inv(Step(ttl, w, Deliver(epoch)))
  {
    var v := Step(ttl, w, Deliver(epoch));
    if v.cache.Some? && !v.cache.value.load.overtaken {
      if epoch >= w.floor {
        assert v.floor <= epoch && IsEpoch(v, epoch) && IdOf(v, epoch) == IdOf(v, v.cache.value.load.epoch);
      } else {
        StaysNotOutdated(w, v, v.cache.value.load.epoch);
      }
    }
  }

  lemma FinishKeepsInv(ttl: int, w: World, thread: nat)
    requires Inv(w) && thread in w.loads
    ensures Inv(Step(ttl, w, FinishLoad(thread)))
  {
    var v := Step(ttl, w, FinishLoad(thread));
    var l := w.loads[thread];
    if !l.overtaken {
      assert v.floor <= l.epoch && IsEpoch(v, l.epoch) && IdOf(v, l.epoch) == IdOf(v, l.epoch);
    }
  }

  lemma StepKeepsInv(ttl: int, w: World, e: Event)
    requires Inv(w)
    ensures Inv(Step(ttl, w, e))
  {
    if !Enabled(ttl, w, e) {
    } else if e.Deliver? {
      DeliverKeepsInv(ttl, w, e.epoch);
    } else if e.FinishLoad? {
      FinishKeepsInv(ttl, w, e.thread);
    } else if w.cache.Some? && !w.cache.value.load.overtaken {
      StaysNotOutdated(w, Step(ttl, w, e), w.cache.value.load.epoch);
    }
  }

  lemma {:induction false} EveryRunKeepsInv(ttl: int, events: seq<Event>)
    ensures Inv(Run(ttl, events))
  {
    if events != [] {
      EveryRunKeepsInv(ttl, events[..|events| - 1]);
      StepKeepsInv(ttl, Run(ttl, events[..|events| - 1]), events[|events| - 1]);
    }
  }

  /** However calls, switches and broadcasts interleave, and whichever broadcasts are lost, every
      answer is that of a snapshot that was active at an instant no further back than the time to
      live and the duration of the load that fetched it. */
  lemma AnswersAreRecent(ttl: int, events: seq<Event>, e: Event)
    requires AnsweredFrom(ttl, Run(ttl, events), e).Some?
    ensures var w := Run(ttl, events);
            var c := AnsweredFrom(ttl, w, e).value;
            && ActiveAt(w, c.load.epoch, c.load.readAt)
            && c.load.readAt <= c.storedAt <= w.now
            && (e.FinishLoad? ==> w.now == c.storedAt)
            && (e.Hit? ==> w.now - c.load.readAt < ttl + (c.storedAt - c.load.readAt))
  {
    EveryRunKeepsInv(ttl, events);
  }

  /** Once the last broadcast has arrived, an answer that is not from the active snapshot can only
      come from a load that a broadcast overtook. */
  lemma StaleAnswersWereOvertaken(ttl: int, events: seq<Event>, e: Event)
    requires var w := Run(ttl, events);
      && w.floor == |w.switches|
      && AnsweredFrom(ttl, w, e).Some?
      && IdOf(w, AnsweredFrom(ttl, w, e).value.load.epoch) != IdOf(w, |w.switches|)
    ensures AnsweredFrom(ttl, Run(ttl, events), e).value.load.overtaken
  {
    EveryRunKeepsInv(ttl, events);
  }

  /** When no snapshot is switched to twice, that is exactly when an answer is stale. */
  lemma StaleIffOvertaken(ttl: int, events: seq<Event>, e: Event)
    requires var w := Run(ttl, events);
      && w.floor == |w.switches|
      && (forall i, j | 0 <= i < j < |w.switches| :: w.switches[i].id != w.switches[j].id)
      && AnsweredFrom(ttl, w, e).Some?
    ensures var w := Run(ttl, events);
            var load := AnsweredFrom(ttl, w, e).value.load;
            IdOf(w, load.epoch) != IdOf(w, |w.switches|) <==> load.overtaken
  {
    EveryRunKeepsInv(ttl, events);
    var w := Run(ttl, events);
    var load := AnsweredFrom(ttl, w, e).value.load;
    if load.overtaken {
      assert w.switches[load.epoch - 1].id != w.switches[|w.switches| - 1].id;
    } else if IdOf(w, load.epoch) != IdOf(w, |w.switches|) {
      StaleAnswersWereOvertaken(ttl, events, e);
    }
  }

  /** And that does happen: the broadcast finds nothing to clear, the load then stores what it read
      before the switch, and until the time to live is over everyone is answered from it. */
  lemma OvertakenLoadIsServed(ttl: int, first: string, second: string, later: int)
    requires 0 <= later < ttl && first != second
    ensures var events := [SwitchTo(first), BeginLoad(0), SwitchTo(second), Deliver(2), FinishLoad(0), Tick(later)];
            var w := Run(ttl, events);
            && w.floor == |w.switches| == 2 && IdOf(w, 2) == Some(second)
            && AnsweredFrom(ttl, w, Hit).Some?
            && IdOf(w, AnsweredFrom(ttl, w, Hit).value.load.epoch) == Some(first)
  {
    var events := [SwitchTo(first), BeginLoad(0), SwitchTo(second), Deliver(2), FinishLoad(0), Tick(later)];
    var w1 := Step(ttl, FRESH, events[0]);
    var w2 := Step(ttl, w1, events[1]);
    var w3 := Step(ttl, w2, events[2]);
    var w4 := Step(ttl, w3, events[3]);
    var w5 := Step(ttl, w4, events[4]);
    assert events[..6] == events && events[..5][..4] == events[..4] && events[..4][..3] == events[..3];
    assert events[..3][..2] == events[..2] && events[..2][..1] == events[..1] && events[..1][..0] == [];
    assert Run(ttl, events[..1]) == w1;
    assert Run(ttl, events[..2]) == w2;
    assert Run(ttl, events[..3]) == w3;
    assert Run(ttl, events[..4]) == w4;
    assert Run(ttl, events[..5]) == w5;
    assert Run(ttl, events) == Step(ttl, w5, Tick(later));
  }

  // ------------------------------------------------ one thing at a time

  /** What one caller at a time sees: a switch whose broadcast is delivered at once, a load that is
      not interrupted, an answer from the cache, time passing. */
  datatype Turn = SwitchAndTell(id: string) | Load | Answer | Wait(to: int)

  function EventsOf(w: World, turn: Turn): seq<Event> {
    match turn
    case SwitchAndTell(id) => [SwitchTo(id), Deliver(|w.switches| + 1)]
    case Load => [BeginLoad(0), FinishLoad(0)]
    case Answer => [Hit]
    case Wait(to) => [Tick(to)]
  }

  function Play(ttl: int, w: World, events: seq<Event>): World
    decreases |events|
  {
    if events == [] then w else Play(ttl, Step(ttl, w, events[0]), events[1..])
  }

  function PlayTurns(ttl: int, turns: seq<Turn>): World {
    if turns == [] then FRESH
    else
      var w := PlayTurns(ttl, turns[..|turns| - 1]);
      Play(ttl, w, EventsOf(w, turns[|turns| - 1]))
  }

  /** No load is under way, every broadcast has arrived, and only the active snapshot is cached. */
  predicate Calm(w: World) {
    && w.loads == map[] && w.floor == |w.switches|
    && (w.cache.Some? ==> IdOf(w, w.cache.value.load.epoch) == IdOf(w, |w.switches|))
  }

  lemma TurnKeepsCalm(ttl: int, w: World, turn: Turn)
    requires Calm(w)
    ensures Calm(Play(ttl, w, EventsOf(w, turn)))
  {
    var events := EventsOf(w, turn);
    var v := Step(ttl, w, events[0]);
    if |events| == 2 {
      assert events[1..] == [events[1]] && events[1..][1..] == [];
      assert Play(ttl, v, events[1..]) == Play(ttl, Step(ttl, v, events[1]), []);
    } else {
      assert events[1..] == [];
    }
  }

  /** With one turn after the other, every answer is what a direct look at the active snapshot
      would give. */
  lemma {:induction false} TurnsAnswerFromTheActive(ttl: int, turns: seq<Turn>, e: Event)
    ensures var w := PlayTurns(ttl, turns);
      && Calm(w)
      && (AnsweredFrom(ttl, w, e).Some? ==> IdOf(w, AnsweredFrom(ttl, w, e).value.load.epoch) == IdOf(w, |w.switches|))
  {
    if turns != [] {
      TurnsAnswerFromTheActive(ttl, turns[..|turns| - 1], e);
      TurnKeepsCalm(ttl, PlayTurns(ttl, turns[..|turns| - 1]), turns[|turns| - 1]);
    }
  }
}
