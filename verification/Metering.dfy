/** Hourly rollups of metering facts: a group-by that conserves every total. */
module Metering {
  import opened Common
  import opened Sums

  /** Costs in micro-dollars, times in microseconds. */
  datatype Fact = Fact(
    usageId: string,
    tenantId: string,
    teamId: string,
    role: string,
    providerId: string,
    modelId: string,
    rateCardId: string,
    requestCount: int,
    inputTokens: int,
    outputTokens: int,
    actualCost: int,
    completedAt: int)

  const HOUR := 3_600_000_000

  datatype Key = Key(bucketStart: int, tenantId: string, teamId: string, role: string, providerId: string,
                     modelId: string, rateCardId: string)

  datatype Rollup = Rollup(key: Key, requestCount: int, inputTokens: int, outputTokens: int, actualCost: int,
                           usageIds: seq<string>)

  /** The whole hour of a time in UTC. */
  function HourOf(t: int): int {
    t - t % HOUR
  }

  function KeyOf(f: Fact): Key {
    Key(HourOf(f.completedAt), f.tenantId, f.teamId, f.role, f.providerId, f.modelId, f.rateCardId)
  }

  // ------------------------------------------------ what the rollups should be

  predicate InPeriod(f: Fact, tenant: string, start: int, end: int) {
    f.tenantId == tenant && start <= f.completedAt <= end
  }

  function FactsForPeriod(records: seq<Fact>, tenant: string, start: int, end: int): seq<Fact> {
    if records == [] then []
    else
      var k := |records| - 1;
      FactsForPeriod(records[..k], tenant, start, end)
      + if InPeriod(records[k], tenant, start, end) then [records[k]] else []
  }

  function FactsWith(facts: seq<Fact>, key: Key): seq<Fact> {
    if facts == [] then []
    else
      var k := |facts| - 1;
      FactsWith(facts[..k], key) + if KeyOf(facts[k]) == key then [facts[k]] else []
  }

  function UsageIds(facts: seq<Fact>): seq<string> {
    seq(|facts|, i requires 0 <= i < |facts| => facts[i].usageId)
  }

  /** The four quantities that are added up. */
  datatype Measure = Requests | InputTokens | OutputTokens | Cost

  function Amount(m: Measure, f: Fact): int {
    match m
    case Requests => f.requestCount
    case InputTokens => f.inputTokens
    case OutputTokens => f.outputTokens
    case Cost => f.actualCost
  }

  function RolledUp(m: Measure, r: Rollup): int {
    match m
    case Requests => r.requestCount
    case InputTokens => r.inputTokens
    case OutputTokens => r.outputTokens
    case Cost => r.actualCost
  }

  ghost function Total(m: Measure, facts: seq<Fact>): int {
    SumSeq(f => Amount(m, f), facts)
  }

  ghost function TotalRolledUp(m: Measure, rollups: seq<Rollup>): int {
    SumSeq(r => RolledUp(m, r), rollups)
  }

  /** The rollup says of its key exactly what the facts with that key add up to. */
  ghost predicate Summarizes(r: Rollup, key: Key, facts: seq<Fact>) {
    && r.key == key
    && (forall m: Measure :: RolledUp(m, r) == Total(m, FactsWith(facts, key)))
    && r.usageIds == UsageIds(FactsWith(facts, key))
  }

  ghost predicate HasKey(facts: seq<Fact>, key: Key) {
    exists i | 0 <= i < |facts| :: KeyOf(facts[i]) == key
  }

  /** The rollups of some facts: one for every key that occurs, in the order of first occurrence. */
  ghost predicate AreRollupsOf(rollups: seq<Rollup>, facts: seq<Fact>) {
    && (forall i, j | 0 <= i < j < |rollups| :: rollups[i].key != rollups[j].key)
    && (forall i | 0 <= i < |rollups| :: Summarizes(rollups[i], rollups[i].key, facts))
    && (forall key :: HasKey(facts, key) <==> exists i | 0 <= i < |rollups| :: rollups[i].key == key)
  }

  // ------------------------------------------------ the loop that builds them

  /** Accumulating one fact into its rollup. */
  function Add(r: Rollup, f: Fact): Rollup {
    Rollup(r.key, r.requestCount + f.requestCount, r.inputTokens + f.inputTokens, r.outputTokens + f.outputTokens,
           r.actualCost + f.actualCost, r.usageIds + [f.usageId])
  }

  lemma FactsWithSnoc(facts: seq<Fact>, f: Fact, key: Key)
    ensures FactsWith(facts + [f], key)
            == if KeyOf(f) == key then FactsWith(facts, key) + [f] else FactsWith(facts, key)
  {
    assert (facts + [f])[..|facts|] == facts;
  }

  lemma HasKeySnoc(facts: seq<Fact>, f: Fact, key: Key)
    ensures HasKey(facts + [f], key) <==> HasKey(facts, key) || KeyOf(f) == key
  {
    var longer := facts + [f];
    if HasKey(facts, key) {
      var i :| 0 <= i < |facts| && KeyOf(facts[i]) == key;
      assert longer[i] == facts[i];
    }
    if KeyOf(f) == key {
      assert longer[|facts|] == f;
    }
  }

  lemma TotalSnoc(m: Measure, facts: seq<Fact>, f: Fact)
    ensures Total(m, facts + [f]) == Total(m, facts) + Amount(m, f)
  {
    SumSeqAppend((f: Fact) => Amount(m, f), facts, f);
  }

  lemma AddSummarizes(r: Rollup, key: Key, facts: seq<Fact>, f: Fact)
    requires Summarizes(r, key, facts) && KeyOf(f) == key
    ensures Summarizes(Add(r, f), key, facts + [f])
  {
    FactsWithSnoc(facts, f, key);
    forall m: Measure ensures RolledUp(m, Add(r, f)) == Total(m, FactsWith(facts + [f], key)) {
      TotalSnoc(m, FactsWith(facts, key), f);
      assert RolledUp(m, r) == Total(m, FactsWith(facts, key));
    }
  }

  lemma {:induction false} NoFactsWithNewKey(facts: seq<Fact>, key: Key)
    requires !HasKey(facts, key)
    ensures FactsWith(facts, key) == []
  {
    if facts != [] {
      var k := |facts| - 1;
      assert KeyOf(facts[k]) != key;
      forall i | 0 <= i < k ensures KeyOf(facts[..k][i]) != key {
        assert facts[..k][i] == facts[i];
      }
      NoFactsWithNewKey(facts[..k], key);
    }
  }

  method FilterFacts(records: seq<Fact>, tenant: string, start: int, end: int) returns (facts: seq<Fact>)
    ensures facts == FactsForPeriod(records, tenant, start, end)
  {
    facts := [];
    for i := 0 to |records|
      invariant facts == FactsForPeriod(records[..i], tenant, start, end)
    {
      assert records[..i + 1][..i] == records[..i];
      if InPeriod(records[i], tenant, start, end) {
        facts := facts + [records[i]];
      }
    }
    assert records[..|records|] == records;
  }

  /** The groups dictionary: `order` lists its keys as they were inserted. */
  ghost predicate Grouped(groups: map<Key, Rollup>, order: seq<Key>, facts: seq<Fact>) {
    && Distinct(order)
    && (forall key :: key in groups <==> key in order)
    && (forall key :: key in groups <==> HasKey(facts, key))
    && (forall key | key in groups :: Summarizes(groups[key], key, facts))
  }

  lemma SummarizesStays(r: Rollup, key: Key, facts: seq<Fact>, f: Fact)
    requires Summarizes(r, key, facts) && KeyOf(f) != key
    ensures Summarizes(r, key, facts + [f])
  {
    FactsWithSnoc(facts, f, key);
  }

  lemma GroupingOneMore(groups: map<Key, Rollup>, order: seq<Key>, facts: seq<Fact>, f: Fact)
    requires Grouped(groups, order, facts)
    ensures var key := KeyOf(f);
            var current := if key in groups then groups[key] else Rollup(key, 0, 0, 0, 0, []);
      Grouped(groups[key := Add(current, f)], if key in groups then order else order + [key], facts + [f])
  {
    var key := KeyOf(f);
    var current := if key in groups then groups[key] else Rollup(key, 0, 0, 0, 0, []);
    if key !in groups {
      NoFactsWithNewKey(facts, key);
    }
    AddSummarizes(current, key, facts, f);
    var after := groups[key := Add(current, f)];
    forall k ensures k in after <==> HasKey(facts + [f], k) {
      HasKeySnoc(facts, f, k);
    }
    forall k | k in after ensures Summarizes(after[k], k, facts + [f]) {
      if k != key {
        SummarizesStays(groups[k], k, facts, f);
      }
    }
  }

  /** The loop over the facts. */
  method GroupFacts(facts: seq<Fact>) returns (groups: map<Key, Rollup>, order: seq<Key>)
    ensures Grouped(groups, order, facts)
  {
    groups, order := map[], [];
    assert facts[..0] == [];
    for i := 0 to |facts|
      invariant Grouped(groups, order, facts[..i])
    {
      groups, order := AddFact(groups, order, facts[..i], facts[i]);
      assert facts[..i] + [facts[i]] == facts[..i + 1];
    }
    assert facts[..|facts|] == facts;
  }

  /** One round of the loop: a new key opens its group, and the fact is added to the group of its key. */
  method AddFact(groups: map<Key, Rollup>, order: seq<Key>, ghost facts: seq<Fact>, f: Fact)
    returns (after: map<Key, Rollup>, orderAfter: seq<Key>)
    requires Grouped(groups, order, facts)
    ensures Grouped(after, orderAfter, facts + [f])
  {
    GroupingOneMore(groups, order, facts, f);
    after, orderAfter := groups, order;
    var key := KeyOf(f);
    if key !in after {
      after := after[key := Rollup(key, 0, 0, 0, 0, [])];
      orderAfter := orderAfter + [key];
    }
    after := after[key := Add(after[key], f)];
    var current := if key in groups then groups[key] else Rollup(key, 0, 0, 0, 0, []);
    assert after == groups[key := Add(current, f)];
  }

  method BuildHourlyRollups(records: seq<Fact>, tenant: string, start: int, end: int) returns (rollups: seq<Rollup>)
    ensures AreRollupsOf(rollups, FactsForPeriod(records, tenant, start, end))
  {
    var facts := FilterFacts(records, tenant, start, end);
    var groups, order := GroupFacts(facts);
    rollups := [];
    for i := 0 to |order|
      invariant |rollups| == i
      invariant forall k | 0 <= k < i :: order[k] in groups && rollups[k] == groups[order[k]]
    {
      assert order[i] in order;
      rollups := rollups + [groups[order[i]]];
    }
    ValuesAreRollups(groups, order, facts, rollups);
  }

  lemma ValuesAreRollups(groups: map<Key, Rollup>, order: seq<Key>, facts: seq<Fact>, rollups: seq<Rollup>)
    requires Grouped(groups, order, facts) && |rollups| == |order|
    requires forall k | 0 <= k < |order| :: order[k] in groups && rollups[k] == groups[order[k]]
    ensures AreRollupsOf(rollups, facts)
  {
    forall k | 0 <= k < |order| ensures rollups[k].key == order[k] && Summarizes(rollups[k], order[k], facts) {
      assert Summarizes(groups[order[k]], order[k], facts);
    }
    forall key ensures HasKey(facts, key) <==> exists i | 0 <= i < |rollups| :: rollups[i].key == key {
      if key in order {
        var i :| 0 <= i < |order| && order[i] == key;
        assert rollups[i].key == key;
      }
    }
  }

  // ------------------------------------------------ what the rollups conserve

  lemma RollupIsOfItsHour(f: Fact)
    ensures KeyOf(f).bucketStart <= f.completedAt < KeyOf(f).bucketStart + HOUR
    ensures KeyOf(f).bucketStart % HOUR == 0
  {
    HourIsWhole(f.completedAt);
  }

  lemma HourIsWhole(t: int)
    ensures HourOf(t) % HOUR == 0
  {
    assert t == t / HOUR * HOUR + t % HOUR;
    assert HourOf(t) == t / HOUR * HOUR;
  }

  /** A usage id names one fact. */
  ghost predicate UsageIdsDiffer(facts: seq<Fact>) {
    forall i, j | 0 <= i < j < |facts| :: facts[i].usageId != facts[j].usageId
  }

  lemma {:induction false} FactsWithAre(facts: seq<Fact>, key: Key)
    ensures forall f | f in FactsWith(facts, key) :: f in facts && KeyOf(f) == key
  {
    if facts != [] {
      FactsWithAre(facts[..|facts| - 1], key);
    }
  }

  lemma ListedIdIsOfItsKey(facts: seq<Fact>, key: Key, id: string)
    requires id in UsageIds(FactsWith(facts, key))
    ensures exists k | 0 <= k < |facts| :: facts[k].usageId == id && KeyOf(facts[k]) == key
  {
    FactsWithAre(facts, key);
    var x :| 0 <= x < |FactsWith(facts, key)| && UsageIds(FactsWith(facts, key))[x] == id;
    var f := FactsWith(facts, key)[x];
    assert f in FactsWith(facts, key);
    var k :| 0 <= k < |facts| && facts[k] == f;
  }

  /** Every fact is in exactly one rollup: the one of its own hour and key, which lists it. */
  lemma EveryFactIsInExactlyOneRollup(rollups: seq<Rollup>, facts: seq<Fact>, i: nat)
    requires AreRollupsOf(rollups, facts) && i < |facts|
    ensures exists j | 0 <= j < |rollups| ::
              rollups[j].key == KeyOf(facts[i]) && facts[i].usageId in rollups[j].usageIds
    ensures forall j, k | 0 <= j < |rollups| && 0 <= k < |rollups|
              && rollups[j].key == KeyOf(facts[i]) && rollups[k].key == KeyOf(facts[i]) :: j == k
    ensures UsageIdsDiffer(facts) ==>
              forall j | 0 <= j < |rollups| && facts[i].usageId in rollups[j].usageIds ::
                rollups[j].key == KeyOf(facts[i])
  {
    if UsageIdsDiffer(facts) {
      forall j | 0 <= j < |rollups| && facts[i].usageId in rollups[j].usageIds
        ensures rollups[j].key == KeyOf(facts[i])
      {
        assert Summarizes(rollups[j], rollups[j].key, facts);
        ListedIdIsOfItsKey(facts, rollups[j].key, facts[i].usageId);
      }
    }
    assert HasKey(facts, KeyOf(facts[i]));
    var j :| 0 <= j < |rollups| && rollups[j].key == KeyOf(facts[i]);
    assert Summarizes(rollups[j], rollups[j].key, facts);
    FactIsListed(facts, i);
    var x :| 0 <= x < |FactsWith(facts, KeyOf(facts[i]))| && FactsWith(facts, KeyOf(facts[i]))[x] == facts[i];
    assert UsageIds(FactsWith(facts, KeyOf(facts[i])))[x] == facts[i].usageId;
  }

  lemma {:induction false} FactIsListed(facts: seq<Fact>, i: nat)
    requires i < |facts|
    ensures facts[i] in FactsWith(facts, KeyOf(facts[i]))
  {
    var k := |facts| - 1;
    if i < k {
      FactIsListed(facts[..k], i);
    }
  }

  /** What the rollups of the keys would hold of the facts. */
  ghost function TotalOverKeys(m: Measure, keys: seq<Key>, facts: seq<Fact>): int {
    SumSeq(key => Total(m, FactsWith(facts, key)), keys)
  }

  lemma {:induction false} TotalOverKeysSnoc(m: Measure, keys: seq<Key>, facts: seq<Fact>, f: Fact)
    requires Distinct(keys)
    ensures TotalOverKeys(m, keys, facts + [f]) ==
            TotalOverKeys(m, keys, facts) + if KeyOf(f) in keys then Amount(m, f) else 0
  {
    if keys != [] {
      var k := |keys| - 1;
      TotalOverKeysSnoc(m, keys[..k], facts, f);
      FactsWithSnoc(facts, f, keys[k]);
      TotalSnoc(m, FactsWith(facts, keys[k]), f);
      assert KeyOf(f) in keys <==> KeyOf(f) in keys[..k] || KeyOf(f) == keys[k];
    }
  }

  lemma {:induction false} TotalOverNoFacts(m: Measure, keys: seq<Key>)
    ensures TotalOverKeys(m, keys, []) == 0
  {
    if keys != [] {
      TotalOverNoFacts(m, keys[..|keys| - 1]);
      assert FactsWith([], keys[|keys| - 1]) == [];
    }
  }

  /** Distinct keys that cover all facts share every total out among themselves. */
  lemma {:induction false} KeysShareTheTotal(m: Measure, keys: seq<Key>, facts: seq<Fact>)
    requires Distinct(keys) && forall i | 0 <= i < |facts| :: KeyOf(facts[i]) in keys
    ensures TotalOverKeys(m, keys, facts) == Total(m, facts)
  {
    if facts == [] {
      TotalOverNoFacts(m, keys);
    } else {
      var k := |facts| - 1;
      var front, f := facts[..k], facts[k];
      assert facts == front + [f];
      forall i | 0 <= i < |front| ensures KeyOf(front[i]) in keys {
        assert front[i] == facts[i];
      }
      KeysShareTheTotal(m, keys, front);
      TotalOverKeysSnoc(m, keys, front, f);
      TotalSnoc(m, front, f);
    }
  }

  function KeysOf(rollups: seq<Rollup>): (keys: seq<Key>)
    ensures |keys| == |rollups|
  {
    seq(|rollups|, i requires 0 <= i < |rollups| => rollups[i].key)
  }

  lemma {:induction false} RollupsAddUpByKey(m: Measure, rollups: seq<Rollup>, facts: seq<Fact>)
    requires forall i | 0 <= i < |rollups| :: Summarizes(rollups[i], rollups[i].key, facts)
    ensures TotalRolledUp(m, rollups) == TotalOverKeys(m, KeysOf(rollups), facts)
  {
    if rollups != [] {
      var k := |rollups| - 1;
      RollupsAddUpByKey(m, rollups[..k], facts);
      assert KeysOf(rollups)[..k] == KeysOf(rollups[..k]);
      assert Summarizes(rollups[k], rollups[k].key, facts);
      assert RolledUp(m, rollups[k]) == Total(m, FactsWith(facts, rollups[k].key));
    }
  }

  /** Requests, tokens and cost: the rollups add up to what the facts add up to. */
  lemma RollupsConserveTotals(m: Measure, rollups: seq<Rollup>, facts: seq<Fact>)
    requires AreRollupsOf(rollups, facts)
    ensures TotalRolledUp(m, rollups) == Total(m, facts)
  {
    var keys := KeysOf(rollups);
    assert Distinct(keys);
    forall i | 0 <= i < |facts| ensures KeyOf(facts[i]) in keys {
      assert HasKey(facts, KeyOf(facts[i]));
      var j :| 0 <= j < |rollups| && rollups[j].key == KeyOf(facts[i]);
      assert keys[j] == KeyOf(facts[i]);
    }
    RollupsAddUpByKey(m, rollups, facts);
    KeysShareTheTotal(m, keys, facts);
  }

  // ------------------------------------------------ the rollups by their fields

  /** The facts of the tenant that were completed in the period, both ends included, each as often as it
      was recorded. */
  lemma {:induction false} PeriodByFields(records: seq<Fact>, tenant: string, start: int, end: int, f: Fact)
    ensures multiset(FactsForPeriod(records, tenant, start, end))[f]
         == if f.tenantId == tenant && start <= f.completedAt && f.completedAt <= end then multiset(records)[f] else 0
  {
    if records != [] {
      PeriodByFields(records[..|records| - 1], tenant, start, end, f);
      assert records == records[..|records| - 1] + [records[|records| - 1]];
    }
  }

  /** Two facts share a rollup exactly if they were completed in the same hour for the same tenant, team,
      role, provider, model and rate card. */
  lemma SameRollupIff(f: Fact, g: Fact)
    ensures KeyOf(f) == KeyOf(g)
       <==> f.completedAt / 3_600_000_000 == g.completedAt / 3_600_000_000
            && f.tenantId == g.tenantId && f.teamId == g.teamId && f.role == g.role
            && f.providerId == g.providerId && f.modelId == g.modelId && f.rateCardId == g.rateCardId
  {
    HourOfIsItsNumber(f.completedAt);
    HourOfIsItsNumber(g.completedAt);
  }

  lemma HourOfIsItsNumber(t: int)
    ensures HourOf(t) == t / 3_600_000_000 * 3_600_000_000
  {
  }

  /** A rollup carries the fields of its facts and the sum of each of their quantities. */
  lemma RollupByFields(rollups: seq<Rollup>, facts: seq<Fact>, i: nat, f: Fact)
    requires AreRollupsOf(rollups, facts) && i < |rollups|
    ensures var r := rollups[i];
            var own := FactsWith(facts, r.key);
      && r.requestCount == SumSeq((g: Fact) => g.requestCount, own)
      && r.inputTokens == SumSeq((g: Fact) => g.inputTokens, own)
      && r.outputTokens == SumSeq((g: Fact) => g.outputTokens, own)
      && r.actualCost == SumSeq((g: Fact) => g.actualCost, own)
      && (f in own ==>
            && r.key.bucketStart == f.completedAt / 3_600_000_000 * 3_600_000_000
            && r.key.tenantId == f.tenantId && r.key.teamId == f.teamId && r.key.role == f.role
            && r.key.providerId == f.providerId && r.key.modelId == f.modelId && r.key.rateCardId == f.rateCardId)
  {
    var r := rollups[i];
    assert Summarizes(r, r.key, facts);
    TotalByField(FactsWith(facts, r.key));
    assert RolledUp(Requests, r) == Total(Requests, FactsWith(facts, r.key));
    assert RolledUp(InputTokens, r) == Total(InputTokens, FactsWith(facts, r.key));
    assert RolledUp(OutputTokens, r) == Total(OutputTokens, FactsWith(facts, r.key));
    assert RolledUp(Cost, r) == Total(Cost, FactsWith(facts, r.key));
    FactsWithAre(facts, r.key);
    HourOfIsItsNumber(f.completedAt);
  }

  lemma TotalByField(facts: seq<Fact>)
    ensures Total(Requests, facts) == SumSeq((f: Fact) => f.requestCount, facts)
    ensures Total(InputTokens, facts) == SumSeq((f: Fact) => f.inputTokens, facts)
    ensures Total(OutputTokens, facts) == SumSeq((f: Fact) => f.outputTokens, facts)
    ensures Total(Cost, facts) == SumSeq((f: Fact) => f.actualCost, facts)
  {
    SumSeqEqual((f: Fact) => Amount(Requests, f), (f: Fact) => f.requestCount, facts);
    SumSeqEqual((f: Fact) => Amount(InputTokens, f), (f: Fact) => f.inputTokens, facts);
    SumSeqEqual((f: Fact) => Amount(OutputTokens, f), (f: Fact) => f.outputTokens, facts);
    SumSeqEqual((f: Fact) => Amount(Cost, f), (f: Fact) => f.actualCost, facts);
  }

  /** Reconciliation: the drift is taken against the facts, and would be the same against the rollups. */
  method Reconcile(records: seq<Fact>, tenant: string, start: int, end: int, reported: int)
    returns (metered: int, drift: int, rollups: seq<Rollup>)
    ensures metered == Total(Cost, FactsForPeriod(records, tenant, start, end))
    ensures AreRollupsOf(rollups, FactsForPeriod(records, tenant, start, end))
    ensures drift == reported - TotalRolledUp(Cost, rollups)
    ensures drift == reported - metered
  {
    var facts := FilterFacts(records, tenant, start, end);
    rollups := BuildHourlyRollups(records, tenant, start, end);
    metered := 0;
    for i := 0 to |facts|
      invariant metered == Total(Cost, facts[..i])
    {
      TotalSnoc(Cost, facts[..i], facts[i]);
      assert facts[..i] + [facts[i]] == facts[..i + 1];
      metered := metered + facts[i].actualCost;
    }
    assert facts[..|facts|] == facts;
    RollupsConserveTotals(Cost, rollups, facts);
    drift := reported - metered;
  }
}
