/** The provider circuit breaker: four scripts on a Redis hash, the same breaker on snapshots in
    memory, and the router that asks it. */
module Breaker {
  import opened Common

  datatype State = Closed | Open | HalfOpen

  datatype Settings = Settings(failureThreshold: int, recoveryProbeLimit: int)

  // ------------------------------------------------ the scripts

  /** A Redis hash: any field may be missing. */
  datatype Hash = Hash(state: Option<State>, consecutiveFailures: Option<int>, remainingProbes: Option<int>)

  const NO_HASH := Hash(None, None, None)

  function HGet<T>(field: Option<T>, default: T): T {
    if field.Some? then field.value else default
  }

  function HashOf(hashes: map<string, Hash>, provider: string): Hash {
    if provider in hashes then hashes[provider] else NO_HASH
  }

  function FailureScript(threshold: int, h: Hash): Hash {
    var failures := HGet(h.consecutiveFailures, 0) + 1;
    var probes := HGet(h.remainingProbes, 0);
    if failures >= threshold then Hash(Some(Open), Some(failures), Some(0))
    else Hash(Some(HGet(h.state, Closed)), Some(failures), Some(probes))
  }

  function SuccessScript(h: Hash): Hash {
    Hash(Some(Closed), Some(0), Some(0))
  }

  function HalfOpenScript(limit: int, h: Hash): Hash {
    h.(state := Some(HalfOpen), remainingProbes := Some(limit))
  }

  predicate ScriptAllows(h: Hash) {
    match HGet(h.state, Closed)
    case Open => false
    case HalfOpen => HGet(h.remainingProbes, 0) > 0
    case Closed => true
  }

  /** HINCRBY counts a missing field as 0. */
  function AllowScript(h: Hash): Hash {
    if h.state == Some(HalfOpen) && HGet(h.remainingProbes, 0) > 0
    then h.(remainingProbes := Some(HGet(h.remainingProbes, 0) - 1)) else h
  }

  datatype Op =
    | Failure(provider: string)
    | Success(provider: string)
    | MoveToHalfOpen(provider: string)
    | Allow(provider: string)

  function RunScript(cfg: Settings, hashes: map<string, Hash>, op: Op): map<string, Hash> {
    var h := HashOf(hashes, op.provider);
    hashes[op.provider :=
      match op
      case Failure(_) => FailureScript(cfg.failureThreshold, h)
      case Success(_) => SuccessScript(h)
      case MoveToHalfOpen(_) => HalfOpenScript(cfg.recoveryProbeLimit, h)
      case Allow(_) => AllowScript(h)]
  }

  function RunScripts(cfg: Settings, ops: seq<Op>): map<string, Hash> {
    if ops == [] then map[] else RunScript(cfg, RunScripts(cfg, ops[..|ops| - 1]), ops[|ops| - 1])
  }

  // ------------------------------------------------ the snapshots in memory

  datatype Snapshot = Snapshot(state: State, consecutiveFailures: int, remainingProbes: int)

  const NEW_SNAPSHOT := Snapshot(Closed, 0, 0)

  type Snapshots = map<string, Snapshot>

  function SnapshotOf(s: Snapshots, provider: string): Snapshot {
    if provider in s then s[provider] else NEW_SNAPSHOT
  }

  predicate Allows(x: Snapshot) {
    x.state == Closed || (x.state == HalfOpen && x.remainingProbes > 0)
  }

  function After(cfg: Settings, x: Snapshot, op: Op): Snapshot {
    match op
    case Failure(_) =>
      if x.consecutiveFailures + 1 >= cfg.failureThreshold then Snapshot(Open, x.consecutiveFailures + 1, 0)
      else x.(consecutiveFailures := x.consecutiveFailures + 1)
    case Success(_) => NEW_SNAPSHOT
    case MoveToHalfOpen(_) => x.(state := HalfOpen, remainingProbes := cfg.recoveryProbeLimit)
    case Allow(_) =>
      if x.state == HalfOpen && x.remainingProbes > 0 then x.(remainingProbes := x.remainingProbes - 1) else x
  }

  function Step(cfg: Settings, s: Snapshots, op: Op): Snapshots {
    s[op.provider := After(cfg, SnapshotOf(s, op.provider), op)]
  }

  function Run(cfg: Settings, s: Snapshots, ops: seq<Op>): Snapshots {
    if ops == [] then s else Step(cfg, Run(cfg, s, ops[..|ops| - 1]), ops[|ops| - 1])
  }

  // ------------------------------------------------ one breaker, two stores

  /** What a reader of the hash is told, the defaults filled in. */
  function ReadState(h: Hash): Snapshot {
    Snapshot(HGet(h.state, Closed), HGet(h.consecutiveFailures, 0), HGet(h.remainingProbes, 0))
  }

  ghost predicate Bisimilar(hashes: map<string, Hash>, s: Snapshots) {
    forall provider :: ReadState(HashOf(hashes, provider)) == SnapshotOf(s, provider)
  }

  lemma ScriptFollowsSnapshot(cfg: Settings, h: Hash, x: Snapshot, op: Op)
    requires ReadState(h) == x
    ensures ReadState(RunScript(cfg, map[op.provider := h], op)[op.provider]) == After(cfg, x, op)
    ensures ScriptAllows(h) == Allows(x)
  {
  }

  lemma StepStaysBisimilar(cfg: Settings, hashes: map<string, Hash>, s: Snapshots, op: Op)
    requires Bisimilar(hashes, s)
    ensures Bisimilar(RunScript(cfg, hashes, op), Step(cfg, s, op))
  {
    ScriptFollowsSnapshot(cfg, HashOf(hashes, op.provider), SnapshotOf(s, op.provider), op);
    forall provider
      ensures ReadState(HashOf(RunScript(cfg, hashes, op), provider)) == SnapshotOf(Step(cfg, s, op), provider)
    {
      assert ReadState(HashOf(hashes, provider)) == SnapshotOf(s, provider);
    }
  }

  /** After any calls, both stores report the same snapshots and allow the same requests. */
  lemma {:induction false} StoresAreBisimilar(cfg: Settings, ops: seq<Op>, provider: string)
    ensures Bisimilar(RunScripts(cfg, ops), Run(cfg, map[], ops))
    ensures ScriptAllows(HashOf(RunScripts(cfg, ops), provider)) == Allows(SnapshotOf(Run(cfg, map[], ops), provider))
  {
    if ops != [] {
      var k := |ops| - 1;
      StoresAreBisimilar(cfg, ops[..k], provider);
      StepStaysBisimilar(cfg, RunScripts(cfg, ops[..k]), Run(cfg, map[], ops[..k]), ops[k]);
    }
    assert ReadState(HashOf(RunScripts(cfg, ops), provider)) == SnapshotOf(Run(cfg, map[], ops), provider);
  }

  // ------------------------------------------------ what the states mean

  predicate Sound(cfg: Settings, x: Snapshot) {
    && x.consecutiveFailures >= 0
    && (x.state == Closed ==> x.consecutiveFailures < cfg.failureThreshold && x.remainingProbes == 0)
    && (x.state == Open ==> x.consecutiveFailures >= cfg.failureThreshold && x.remainingProbes == 0)
    && (x.state == HalfOpen ==> x.remainingProbes <= cfg.recoveryProbeLimit)
  }

  /** A closed breaker has seen fewer failures in a row than the threshold, an open one at least as
      many; probes are only held half-open. */
  lemma {:induction false} EveryRunIsSound(cfg: Settings, ops: seq<Op>, provider: string)
    requires cfg.failureThreshold >= 1
    ensures Sound(cfg, SnapshotOf(Run(cfg, map[], ops), provider))
  {
    if ops != [] {
      EveryRunIsSound(cfg, ops[..|ops| - 1], provider);
    }
  }

  /** The failures since the last success. */
  function FailuresInARow(ops: seq<Op>, provider: string): nat {
    if ops == [] then 0
    else
      var op := ops[|ops| - 1];
      if op == Success(provider) then 0
      else FailuresInARow(ops[..|ops| - 1], provider) + if op == Failure(provider) then 1 else 0
  }

  /** Some call of this kind has been made since the last success. */
  predicate SinceSuccess(ops: seq<Op>, wanted: Op) {
    ops != [] && ops[|ops| - 1] != Success(wanted.provider)
    && (ops[|ops| - 1] == wanted || SinceSuccess(ops[..|ops| - 1], wanted))
  }

  /** Unless somebody moved it half-open, a breaker is open exactly when the failures since the last
      success have reached the threshold. */
  lemma {:induction false} OpenIff(cfg: Settings, ops: seq<Op>, provider: string)
    requires cfg.failureThreshold >= 1
    ensures var x := SnapshotOf(Run(cfg, map[], ops), provider);
      && x.consecutiveFailures == FailuresInARow(ops, provider)
      && (!SinceSuccess(ops, MoveToHalfOpen(provider)) ==>
            x.state == if FailuresInARow(ops, provider) >= cfg.failureThreshold then Open else Closed)
  {
    if ops != [] {
      OpenIff(cfg, ops[..|ops| - 1], provider);
    }
  }

  // ------------------------------------------------ the steps by what they leave

  /** A failure counts, and at the threshold opens the breaker from whatever state, its probes gone; a
      success clears everything; half-open grants the probes and keeps the failures; a request takes a
      probe only half-open. An open breaker lets nothing through, a half-open one while it has probes. */
  lemma StepsByFields(cfg: Settings, x: Snapshot, provider: string)
    ensures var y := After(cfg, x, Failure(provider));
      && y.consecutiveFailures == x.consecutiveFailures + 1
      && (y.consecutiveFailures >= cfg.failureThreshold ==> y.state == Open && y.remainingProbes == 0)
      && (y.consecutiveFailures < cfg.failureThreshold ==>
            y.state == x.state && y.remainingProbes == x.remainingProbes)
    ensures After(cfg, x, Success(provider)) == Snapshot(Closed, 0, 0)
    ensures After(cfg, x, MoveToHalfOpen(provider))
            == Snapshot(HalfOpen, x.consecutiveFailures, cfg.recoveryProbeLimit)
    ensures After(cfg, x, Allow(provider))
            == x.(remainingProbes := x.remainingProbes - if x.state == HalfOpen && x.remainingProbes > 0 then 1 else 0)
    ensures Allows(x) <==> x.state != Open && (x.state == HalfOpen ==> x.remainingProbes > 0)
  {
  }

  /** A provider nothing is known of is closed, without failures, and let through. */
  lemma UnknownProviderIsAllowed(provider: string)
    ensures SnapshotOf(map[], provider) == Snapshot(Closed, 0, 0) && Allows(SnapshotOf(map[], provider))
    ensures ReadState(HashOf(map[], provider)) == Snapshot(Closed, 0, 0) && ScriptAllows(HashOf(map[], provider))
  {
  }

  /** Over any run, a failure that brings the failures in a row to the threshold, such as a failed probe of
      a half-open breaker, opens it, and nothing is let through until a success or another recovery. */
  lemma FailureAtTheThresholdOpens(cfg: Settings, before: seq<Op>, ops: seq<Op>, provider: string)
    requires cfg.failureThreshold >= 1 && FailuresInARow(before, provider) + 1 >= cfg.failureThreshold
    requires SameEpisode(ops, provider)
    ensures var s := Run(cfg, map[], before + [Failure(provider)]);
      && SnapshotOf(s, provider).state == Open
      && LetThrough(cfg, s, ops, provider) == 0
      && ScriptAllows(HashOf(RunScripts(cfg, before + [Failure(provider)]), provider)) == false
  {
    var failed := before + [Failure(provider)];
    assert failed[..|before|] == before;
    OpenIff(cfg, before, provider);
    StepsByFields(cfg, SnapshotOf(Run(cfg, map[], before), provider), provider);
    ProbesAreSpent(cfg, Run(cfg, map[], failed), ops, provider);
    StoresAreBisimilar(cfg, failed, provider);
  }

  // ------------------------------------------------ the probes of a half-open episode

  /** How many requests to the provider are let through. */
  function LetThrough(cfg: Settings, s: Snapshots, ops: seq<Op>, provider: string): nat {
    if ops == [] then 0
    else
      var k := |ops| - 1;
      LetThrough(cfg, s, ops[..k], provider)
      + if ops[k] == Allow(provider) && Allows(SnapshotOf(Run(cfg, s, ops[..k]), provider)) then 1 else 0
  }

  function Requests(ops: seq<Op>, provider: string): nat {
    if ops == [] then 0 else Requests(ops[..|ops| - 1], provider) + if ops[|ops| - 1] == Allow(provider) then 1 else 0
  }

  function Min(x: nat, y: nat): nat {
    if x <= y then x else y
  }

  ghost predicate SameEpisode(ops: seq<Op>, provider: string) {
    forall i | 0 <= i < |ops| :: ops[i] != Success(provider) && ops[i] != MoveToHalfOpen(provider)
  }

  /** From half-open or open, until the next success or half-open step: a probe is gone for every
      request let through, or all are, and the breaker does not close. */
  lemma {:induction false} ProbesAreSpent(cfg: Settings, s: Snapshots, ops: seq<Op>, provider: string)
    requires SnapshotOf(s, provider).state != Closed && SameEpisode(ops, provider)
    requires SnapshotOf(s, provider).state == Open ==> SnapshotOf(s, provider).remainingProbes == 0
    ensures var x := SnapshotOf(Run(cfg, s, ops), provider);
      && x.state != Closed
      && (x.state == Open ==> x.remainingProbes == 0)
      && LetThrough(cfg, s, ops, provider) + Pos(x.remainingProbes) <= Pos(SnapshotOf(s, provider).remainingProbes)
  {
    if ops != [] {
      ProbesAreSpent(cfg, s, ops[..|ops| - 1], provider);
    }
  }

  /** Between entering half-open and the next success or half-open step, at most the configured
      number of requests are let through, whatever else happens. */
  lemma HalfOpenLetsFewThrough(cfg: Settings, before: seq<Op>, ops: seq<Op>, provider: string)
    requires SameEpisode(ops, provider)
    ensures var entered := Run(cfg, map[], before + [MoveToHalfOpen(provider)]);
      LetThrough(cfg, entered, ops, provider) <= Pos(cfg.recoveryProbeLimit)
  {
    var entered := before + [MoveToHalfOpen(provider)];
    assert entered[..|before|] == before;
    ProbesAreSpent(cfg, Run(cfg, map[], entered), ops, provider);
  }

  /** And without a failure in between it is exactly that many, or all that were made. */
  lemma {:induction false} HalfOpenSpendsItsProbes(cfg: Settings, s: Snapshots, ops: seq<Op>, provider: string)
    requires SnapshotOf(s, provider).state == HalfOpen
    requires SameEpisode(ops, provider) && forall i | 0 <= i < |ops| :: ops[i] != Failure(provider)
    ensures var x := SnapshotOf(Run(cfg, s, ops), provider);
      && x.state == HalfOpen
      && LetThrough(cfg, s, ops, provider) == Min(Requests(ops, provider), Pos(SnapshotOf(s, provider).remainingProbes))
      && Pos(x.remainingProbes) == Pos(SnapshotOf(s, provider).remainingProbes) - LetThrough(cfg, s, ops, provider)
  {
    if ops != [] {
      HalfOpenSpendsItsProbes(cfg, s, ops[..|ops| - 1], provider);
    }
  }

  // ------------------------------------------------ the stores as objects

  class RedisSharedProviderHealthStore {
    const settings: Settings
    var hashes: map<string, Hash>

    constructor (settings: Settings)
      ensures hashes == map[] && this.settings == settings
    {
      this.settings := settings;
      hashes := map[];
    }

    method RecordFailure(provider: string)
      modifies this
      ensures hashes == RunScript(settings, old(hashes), Failure(provider))
    {
      var h := HashOf(hashes, provider);
      var state := HGet(h.state, Closed);
      var failures := HGet(h.consecutiveFailures, 0) + 1;
      var probes := HGet(h.remainingProbes, 0);
      if failures >= settings.failureThreshold {
        state, probes := Open, 0;
      }
      hashes := hashes[provider := Hash(Some(state), Some(failures), Some(probes))];
    }

    method RecordSuccess(provider: string)
      modifies this
      ensures hashes == RunScript(settings, old(hashes), Success(provider))
    {
      hashes := hashes[provider := Hash(Some(Closed), Some(0), Some(0))];
    }

    method Recover(provider: string)
      modifies this
      ensures hashes == RunScript(settings, old(hashes), MoveToHalfOpen(provider))
    {
      hashes := hashes[provider := HashOf(hashes, provider).(state := Some(HalfOpen),
                                                             remainingProbes := Some(settings.recoveryProbeLimit))];
    }

    method AllowRequest(provider: string) returns (allowed: bool)
      modifies this
      ensures allowed == ScriptAllows(HashOf(old(hashes), provider))
      ensures forall p :: HashOf(hashes, p) == HashOf(RunScript(settings, old(hashes), Allow(provider)), p)
    {
      var h := HashOf(hashes, provider);
      var state := HGet(h.state, Closed);
      if state == Open {
        return false;
      }
      if state == HalfOpen {
        var probes := HGet(h.remainingProbes, 0);
        if probes <= 0 {
          return false;
        }
        hashes := hashes[provider := h.(remainingProbes := Some(probes - 1))];
      }
      allowed := true;
    }
  }

  class InMemoryProviderHealthStore {
    const settings: Settings
    var snapshots: Snapshots

    constructor (settings: Settings)
      ensures snapshots == map[] && this.settings == settings
    {
      this.settings := settings;
      snapshots := map[];
    }

    method Ensure(provider: string) returns (x: Snapshot)
      modifies this
      ensures x == SnapshotOf(old(snapshots), provider)
      ensures snapshots == old(snapshots)[provider := x]
    {
      if provider !in snapshots {
        snapshots := snapshots[provider := NEW_SNAPSHOT];
      }
      x := snapshots[provider];
    }

    method RecordFailure(provider: string)
      modifies this
      ensures snapshots == Step(settings, old(snapshots), Failure(provider))
    {
      var x := Ensure(provider);
      x := x.(consecutiveFailures := x.consecutiveFailures + 1);
      if x.consecutiveFailures >= settings.failureThreshold {
        x := x.(state := Open, remainingProbes := 0);
      }
      snapshots := snapshots[provider := x];
    }

    method RecordSuccess(provider: string)
      modifies this
      ensures snapshots == Step(settings, old(snapshots), Success(provider))
    {
      var x := Ensure(provider);
      snapshots := snapshots[provider := x.(state := Closed, consecutiveFailures := 0, remainingProbes := 0)];
    }

    method Recover(provider: string)
      modifies this
      ensures snapshots == Step(settings, old(snapshots), MoveToHalfOpen(provider))
    {
      var x := Ensure(provider);
      snapshots := snapshots[provider := x.(state := HalfOpen, remainingProbes := settings.recoveryProbeLimit)];
    }

    method AllowRequest(provider: string) returns (allowed: bool)
      modifies this
      ensures allowed == Allows(SnapshotOf(old(snapshots), provider))
      ensures snapshots == Step(settings, old(snapshots), Allow(provider))
    {
      var x := Ensure(provider);
      if x.state == Open {
        return false;
      }
      if x.state == HalfOpen {
        if x.remainingProbes <= 0 {
          return false;
        }
        snapshots := snapshots[provider := x.(remainingProbes := x.remainingProbes - 1)];
      }
      allowed := true;
    }
  }

  // ------------------------------------------------ the router

  /** What the model catalog makes of a model id, or of a fallback. */
  datatype Resolution = Unresolvable | Model(providerId: string, modelId: string)

  datatype Assignment = Assignment(primary: Resolution, fallback: Option<Resolution>)

  datatype Selection = Selection(providerId: string, modelId: string, fallbackUsed: bool)

  datatype RoutingError = CatalogError | FailoverExhausted | AllProvidersUnavailable

  /** The models of an assignment that can be asked for, in the order they are. */
  function Choices(a: Assignment): seq<Resolution> {
    [a.primary] + if a.fallback.Some? then [a.fallback.value] else []
  }

  predicate Resolvable(a: Assignment) {
    a.primary.Model? && (a.fallback.Some? ==> a.fallback.value.Model?)
  }

  /** The snapshots differ in at most one probe of one provider. */
  ghost predicate SpentAtMostOne(s: Snapshots, t: Snapshots, provider: string) {
    && (forall p | p != provider :: SnapshotOf(t, p) == SnapshotOf(s, p))
    && SnapshotOf(t, provider).state == SnapshotOf(s, provider).state
    && SnapshotOf(t, provider).consecutiveFailures == SnapshotOf(s, provider).consecutiveFailures
    && SnapshotOf(s, provider).remainingProbes - 1 <= SnapshotOf(t, provider).remainingProbes
         <= SnapshotOf(s, provider).remainingProbes
  }

  /** The first model of the assignment whose provider lets a request through, at the price of at
      most one of that provider's probes; a refusal costs nothing. An unresolvable fallback fails
      the call before the primary is asked. */
  ghost predicate Routed(a: Assignment, s: Snapshots, t: Snapshots, r: Result<Selection, RoutingError>) {
    && (r == Err(CatalogError) <==> !Resolvable(a))
    && (r.Ok? ==>
          var chosen := Model(r.value.providerId, r.value.modelId);
          && SpentAtMostOne(s, t, r.value.providerId)
          && Allows(SnapshotOf(s, r.value.providerId))
          && (if r.value.fallbackUsed then a.fallback == Some(chosen) else a.primary == chosen)
          && (r.value.fallbackUsed <==> a.primary.Model? && !Allows(SnapshotOf(s, a.primary.providerId))))
    && (r.Err? ==> forall p :: SnapshotOf(t, p) == SnapshotOf(s, p))
    && (Resolvable(a) ==> (r.Err? <==> forall m | m in Choices(a) :: !Allows(SnapshotOf(s, m.providerId))))
    && (r == Err(FailoverExhausted) ==> a.fallback == None)
    && (r == Err(AllProvidersUnavailable) ==> a.fallback.Some?)
  }

  /** t reads like s after a request to the provider. */
  ghost predicate Asked(cfg: Settings, s: Snapshots, t: Snapshots, provider: string) {
    forall p :: SnapshotOf(t, p) == SnapshotOf(Step(cfg, s, Allow(provider)), p)
  }

  lemma PrimaryIsRouted(cfg: Settings, a: Assignment, s: Snapshots, t: Snapshots)
    requires Resolvable(a) && Asked(cfg, s, t, a.primary.providerId) && Allows(SnapshotOf(s, a.primary.providerId))
    ensures Routed(a, s, t, Ok(Selection(a.primary.providerId, a.primary.modelId, false)))
  {
    assert a.primary in Choices(a);
  }

  lemma RefusalCostsNothing(cfg: Settings, s: Snapshots, t: Snapshots, provider: string)
    requires Asked(cfg, s, t, provider) && !Allows(SnapshotOf(s, provider))
    ensures forall p :: SnapshotOf(t, p) == SnapshotOf(s, p)
  {
  }

  lemma FallbackIsRouted(cfg: Settings, a: Assignment, s: Snapshots, t: Snapshots, u: Snapshots)
    requires Resolvable(a) && a.fallback.Some? && !Allows(SnapshotOf(s, a.primary.providerId))
    requires forall p :: SnapshotOf(t, p) == SnapshotOf(s, p)
    requires Asked(cfg, t, u, a.fallback.value.providerId)
    ensures var m := a.fallback.value;
            Routed(a, s, u, if Allows(SnapshotOf(s, m.providerId)) then Ok(Selection(m.providerId, m.modelId, true))
                            else Err(AllProvidersUnavailable))
  {
    assert Choices(a)[1] == a.fallback.value;
  }

  method SelectModel(store: InMemoryProviderHealthStore, a: Assignment) returns (r: Result<Selection, RoutingError>)
    modifies store
    ensures Routed(a, old(store.snapshots), store.snapshots, r)
  {
    if a.primary.Unresolvable? || (a.fallback.Some? && a.fallback.value.Unresolvable?) {
      return Err(CatalogError);
    }
    ghost var before := store.snapshots;
    var allowed := store.AllowRequest(a.primary.providerId);
    if allowed {
      PrimaryIsRouted(store.settings, a, before, store.snapshots);
      return Ok(Selection(a.primary.providerId, a.primary.modelId, false));
    }
    RefusalCostsNothing(store.settings, before, store.snapshots, a.primary.providerId);
    if a.fallback == None {
      return Err(FailoverExhausted);
    }
    ghost var between := store.snapshots;
    allowed := store.AllowRequest(a.fallback.value.providerId);
    FallbackIsRouted(store.settings, a, before, between, store.snapshots);
    if allowed {
      return Ok(Selection(a.fallback.value.providerId, a.fallback.value.modelId, true));
    }
    r := Err(AllProvidersUnavailable);
  }

  /** The snapshots the hashes amount to. */
  function ReadAll(hashes: map<string, Hash>): Snapshots {
    map provider | provider in hashes :: ReadState(hashes[provider])
  }

  lemma AllowReadsAsAllow(cfg: Settings, hashes: map<string, Hash>, after: map<string, Hash>, provider: string)
    requires forall p :: HashOf(after, p) == HashOf(RunScript(cfg, hashes, Allow(provider)), p)
    ensures ScriptAllows(HashOf(hashes, provider)) == Allows(SnapshotOf(ReadAll(hashes), provider))
    ensures Asked(cfg, ReadAll(hashes), ReadAll(after), provider)
  {
    ReadAllIsBisimilar(hashes);
    ReadAllIsBisimilar(after);
    StepStaysBisimilar(cfg, hashes, ReadAll(hashes), Allow(provider));
    ScriptFollowsSnapshot(cfg, HashOf(hashes, provider), SnapshotOf(ReadAll(hashes), provider), Allow(provider));
    forall p ensures SnapshotOf(ReadAll(after), p) == SnapshotOf(Step(cfg, ReadAll(hashes), Allow(provider)), p) {
      assert ReadState(HashOf(after, p)) == SnapshotOf(ReadAll(after), p);
    }
  }

  lemma ReadAllIsBisimilar(hashes: map<string, Hash>)
    ensures Bisimilar(hashes, ReadAll(hashes))
  {
  }

  /** The router keeps the same promise over the shared store. */
  method SelectModelShared(store: RedisSharedProviderHealthStore, a: Assignment)
    returns (r: Result<Selection, RoutingError>)
    modifies store
    ensures Routed(a, ReadAll(old(store.hashes)), ReadAll(store.hashes), r)
  {
    if a.primary.Unresolvable? || (a.fallback.Some? && a.fallback.value.Unresolvable?) {
      return Err(CatalogError);
    }
    ghost var before := store.hashes;
    var allowed := store.AllowRequest(a.primary.providerId);
    AllowReadsAsAllow(store.settings, before, store.hashes, a.primary.providerId);
    if allowed {
      PrimaryIsRouted(store.settings, a, ReadAll(before), ReadAll(store.hashes));
      return Ok(Selection(a.primary.providerId, a.primary.modelId, false));
    }
    RefusalCostsNothing(store.settings, ReadAll(before), ReadAll(store.hashes), a.primary.providerId);
    if a.fallback == None {
      return Err(FailoverExhausted);
    }
    ghost var between := store.hashes;
    allowed := store.AllowRequest(a.fallback.value.providerId);
    AllowReadsAsAllow(store.settings, between, store.hashes, a.fallback.value.providerId);
    FallbackIsRouted(store.settings, a, ReadAll(before), ReadAll(between), ReadAll(store.hashes));
    if allowed {
      return Ok(Selection(a.fallback.value.providerId, a.fallback.value.modelId, true));
    }
    r := Err(AllProvidersUnavailable);
  }
}
