/** The weighted fair dispatcher: which queued job runs next, and how long a job can be overtaken. */
module Dispatcher {
  import opened Common

  datatype Job = Job(jobId: string, tenantId: string, runId: string, weight: int, enqueuedAt: int,
                     checkpointRef: Option<string>)

  datatype Limits = Limits(perTenant: int, starvationThreshold: int)

  /** get(tenant, 0). */
  function InFlight(inFlight: map<string, int>, tenant: string): (n: int)
    ensures tenant in inFlight ==> n == inFlight[tenant]
    ensures tenant !in inFlight ==> n == 0
  {
    if tenant in inFlight then inFlight[tenant] else 0
  }

  predicate Eligible(limits: Limits, inFlight: map<string, int>, job: Job) {
    InFlight(inFlight, job.tenantId) < limits.perTenant
  }

  predicate Starved(limits: Limits, now: int, job: Job) {
    now - job.enqueuedAt >= limits.starvationThreshold
  }

  // ------------------------------------------------ the order of the jobs

  /** The fraction load/weight, and the time of enqueueing; weights are positive. */
  datatype Key = Key(load: int, weight: int, at: int)

  predicate Proper(k: Key) {
    k.weight >= 1
  }

  /** Comparing the fractions by cross-multiplication, then the times. */
  predicate Less(a: Key, b: Key) {
    a.load * b.weight < b.load * a.weight || (a.load * b.weight == b.load * a.weight && a.at < b.at)
  }

  lemma FractionsTransitive(a: Key, b: Key, c: Key)
    requires Proper(a) && Proper(b) && Proper(c)
    requires a.load * b.weight <= b.load * a.weight && b.load * c.weight <= c.load * b.weight
    ensures a.load * c.weight <= c.load * a.weight
    ensures a.load * c.weight == c.load * a.weight ==>
              a.load * b.weight == b.load * a.weight && b.load * c.weight == c.load * b.weight
  {
    calc {
      a.load * c.weight * b.weight;
      a.load * b.weight * c.weight;
    <= { Scale(a.load * b.weight, b.load * a.weight, c.weight); }
      b.load * a.weight * c.weight;
      b.load * c.weight * a.weight;
    <= { Scale(b.load * c.weight, c.load * b.weight, a.weight); }
      c.load * b.weight * a.weight;
      c.load * a.weight * b.weight;
    }
    Unscale(a.load * c.weight, c.load * a.weight, b.weight);
    if a.load * c.weight == c.load * a.weight {
      if a.load * b.weight < b.load * a.weight {
        ScaleStrictly(a.load * b.weight, b.load * a.weight, c.weight);
      } else if b.load * c.weight < c.load * b.weight {
        ScaleStrictly(b.load * c.weight, c.load * b.weight, a.weight);
      }
    }
  }

  lemma Scale(x: int, y: int, w: int)
    requires x <= y && w >= 0
    ensures x * w <= y * w
  {
  }

  lemma ScaleStrictly(x: int, y: int, w: int)
    requires x < y && w >= 1
    ensures x * w < y * w
  {
  }

  lemma Unscale(x: int, y: int, w: int)
    requires x * w <= y * w && w >= 1
    ensures x <= y
  {
    if y < x {
      ScaleStrictly(y, x, w);
    }
  }

  /** Not being less is transitive, and of two jobs one is not less than the other. */
  lemma NotLessTransitive(a: Key, b: Key, c: Key)
    requires Proper(a) && Proper(b) && Proper(c) && !Less(b, a) && !Less(c, b)
    ensures !Less(c, a)
    ensures !Less(a, c) || !Less(c, a)
  {
    FractionsTransitive(a, b, c);
  }

  lemma LessTransitive(a: Key, b: Key, c: Key)
    requires Proper(a) && Proper(b) && Proper(c) && Less(a, b) && !Less(c, b)
    ensures Less(a, c)
  {
    FractionsTransitive(a, b, c);
  }

  // ------------------------------------------------ the choice

  /** Under starvation only the starved compete, by their time alone. */
  predicate Candidate(limits: Limits, inFlight: map<string, int>, now: int, starving: bool, job: Job) {
    Eligible(limits, inFlight, job) && (starving ==> Starved(limits, now, job))
  }

  function KeyOf(inFlight: map<string, int>, starving: bool, job: Job): (k: Key)
    ensures Proper(k)
  {
    if starving then Key(0, 1, job.enqueuedAt)
    else Key(InFlight(inFlight, job.tenantId), if job.weight > 1 then job.weight else 1, job.enqueuedAt)
  }

  /** min over the candidates: the first one with a least key. */
  function FirstMin(limits: Limits, inFlight: map<string, int>, now: int, starving: bool, jobs: seq<Job>)
    : (r: Option<nat>)
    ensures r.Some? ==> r.value < |jobs| && Candidate(limits, inFlight, now, starving, jobs[r.value])
  {
    if jobs == [] then None
    else
      var k := |jobs| - 1;
      var best := FirstMin(limits, inFlight, now, starving, jobs[..k]);
      if Candidate(limits, inFlight, now, starving, jobs[k])
         && (best == None || Less(KeyOf(inFlight, starving, jobs[k]), KeyOf(inFlight, starving, jobs[best.value])))
      then Some(k) else best
  }

  predicate AnyStarved(limits: Limits, inFlight: map<string, int>, now: int, jobs: seq<Job>) {
    exists job | job in jobs :: Eligible(limits, inFlight, job) && Starved(limits, now, job)
  }

  /** The index of the chosen job. */
  function SelectNextJob(limits: Limits, inFlight: map<string, int>, now: int, jobs: seq<Job>): (r: Option<nat>)
    ensures r.Some? ==> r.value < |jobs| && Eligible(limits, inFlight, jobs[r.value])
  {
    FirstMin(limits, inFlight, now, AnyStarved(limits, inFlight, now, jobs), jobs)
  }

  /** What a fair choice is: no candidate has a smaller key, and none before it an equal one. */
  ghost predicate IsFirstMin(limits: Limits, inFlight: map<string, int>, now: int, starving: bool, jobs: seq<Job>,
                             i: nat)
  {
    && i < |jobs| && Candidate(limits, inFlight, now, starving, jobs[i])
    && (forall k | 0 <= k < |jobs| && Candidate(limits, inFlight, now, starving, jobs[k]) ::
          !Less(KeyOf(inFlight, starving, jobs[k]), KeyOf(inFlight, starving, jobs[i])))
    && (forall k | 0 <= k < i && Candidate(limits, inFlight, now, starving, jobs[k]) ::
          Less(KeyOf(inFlight, starving, jobs[i]), KeyOf(inFlight, starving, jobs[k])))
  }

  /** What is less than the first minimum of the jobs before it is their first minimum with them. */
  lemma LessThanTheFirstMin(limits: Limits, inFlight: map<string, int>, now: int, starving: bool, jobs: seq<Job>,
                            i: nat)
    requires jobs != [] && IsFirstMin(limits, inFlight, now, starving, jobs[..|jobs| - 1], i)
    requires Candidate(limits, inFlight, now, starving, jobs[|jobs| - 1])
    requires Less(KeyOf(inFlight, starving, jobs[|jobs| - 1]), KeyOf(inFlight, starving, jobs[i]))
    ensures IsFirstMin(limits, inFlight, now, starving, jobs, |jobs| - 1)
  {
    var n := |jobs| - 1;
    var b, l := KeyOf(inFlight, starving, jobs[i]), KeyOf(inFlight, starving, jobs[n]);
    forall k | 0 <= k < n && Candidate(limits, inFlight, now, starving, jobs[k])
      ensures Less(l, KeyOf(inFlight, starving, jobs[k]))
      ensures !Less(KeyOf(inFlight, starving, jobs[k]), l)
    {
      assert jobs[..n][k] == jobs[k];
      LessTransitive(l, b, KeyOf(inFlight, starving, jobs[k]));
    }
  }

  lemma {:induction false} FirstMinIsFirstMin(limits: Limits, inFlight: map<string, int>, now: int, starving: bool,
                                              jobs: seq<Job>)
    ensures var r := FirstMin(limits, inFlight, now, starving, jobs);
      && (r.Some? ==> IsFirstMin(limits, inFlight, now, starving, jobs, r.value))
      && (r == None ==> forall k | 0 <= k < |jobs| :: !Candidate(limits, inFlight, now, starving, jobs[k]))
  {
    if jobs != [] {
      var n := |jobs| - 1;
      FirstMinIsFirstMin(limits, inFlight, now, starving, jobs[..n]);
      var best := FirstMin(limits, inFlight, now, starving, jobs[..n]);
      if best.Some? && Candidate(limits, inFlight, now, starving, jobs[n]) {
        if Less(KeyOf(inFlight, starving, jobs[n]), KeyOf(inFlight, starving, jobs[best.value])) {
          LessThanTheFirstMin(limits, inFlight, now, starving, jobs, best.value);
        }
      }
    }
  }

  /** The choice is the fair one: nothing exactly when no tenant with a queued job is under its
      limit; otherwise the one first minimum. */
  lemma ChoiceIsFair(limits: Limits, inFlight: map<string, int>, now: int, jobs: seq<Job>, i: nat)
    ensures SelectNextJob(limits, inFlight, now, jobs) == Some(i) <==>
            IsFirstMin(limits, inFlight, now, AnyStarved(limits, inFlight, now, jobs), jobs, i)
    ensures SelectNextJob(limits, inFlight, now, jobs) == None <==>
            forall k | 0 <= k < |jobs| :: !Eligible(limits, inFlight, jobs[k])
  {
    var starving := AnyStarved(limits, inFlight, now, jobs);
    FirstMinIsFirstMin(limits, inFlight, now, starving, jobs);
    var r := FirstMin(limits, inFlight, now, starving, jobs);
    if r == None {
      forall k | 0 <= k < |jobs| ensures !Eligible(limits, inFlight, jobs[k]) {
        assert !Candidate(limits, inFlight, now, starving, jobs[k]);
      }
    }
  }

  // ------------------------------------------------ the choice, job by job

  /** The tenant of job k has room for another job. */
  predicate HasRoom(limits: Limits, inFlight: map<string, int>, jobs: seq<Job>, k: nat)
    requires k < |jobs|
  {
    InFlight(inFlight, jobs[k].tenantId) < limits.perTenant
  }

  /** Some job whose tenant has room has waited for the threshold or longer. */
  ghost predicate SomeoneStarves(limits: Limits, inFlight: map<string, int>, now: int, jobs: seq<Job>) {
    exists k | 0 <= k < |jobs| :: HasRoom(limits, inFlight, jobs, k)
                                  && now - jobs[k].enqueuedAt >= limits.starvationThreshold
  }

  /** Job i is not after job k by the time they were enqueued, nor, enqueued together, in the list. */
  predicate NotAfter(jobs: seq<Job>, i: nat, k: nat)
    requires i < |jobs| && k < |jobs|
  {
    jobs[i].enqueuedAt < jobs[k].enqueuedAt || (jobs[i].enqueuedAt == jobs[k].enqueuedAt && i <= k)
  }

  /** The tenant of job i runs no more for the weight of the job than that of job k does; if it runs as
      much, i is not after k. */
  predicate NoHeavier(inFlight: map<string, int>, jobs: seq<Job>, i: nat, k: nat)
    requires i < |jobs| && k < |jobs|
  {
    var x := InFlight(inFlight, jobs[i].tenantId) * Max(jobs[k].weight, 1);
    var y := InFlight(inFlight, jobs[k].tenantId) * Max(jobs[i].weight, 1);
    x < y || (x == y && NotAfter(jobs, i, k))
  }

  lemma NoHeavierIsFirst(inFlight: map<string, int>, jobs: seq<Job>, i: nat, k: nat)
    requires i < |jobs| && k < |jobs|
    ensures var a, b := KeyOf(inFlight, false, jobs[i]), KeyOf(inFlight, false, jobs[k]);
            NoHeavier(inFlight, jobs, i, k) <==> !Less(b, a) && (k < i ==> Less(a, b))
  {
  }

  lemma NotAfterIsFirst(inFlight: map<string, int>, jobs: seq<Job>, i: nat, k: nat)
    requires i < |jobs| && k < |jobs|
    ensures var a, b := KeyOf(inFlight, true, jobs[i]), KeyOf(inFlight, true, jobs[k]);
            NotAfter(jobs, i, k) <==> !Less(b, a) && (k < i ==> Less(a, b))
  {
  }

  /** What the choice of i comes to in the fields of the jobs. */
  ghost predicate IsRightChoice(limits: Limits, inFlight: map<string, int>, now: int, jobs: seq<Job>, i: nat) {
    && i < |jobs| && HasRoom(limits, inFlight, jobs, i)
    && forall k | 0 <= k < |jobs| && HasRoom(limits, inFlight, jobs, k) ::
         if SomeoneStarves(limits, inFlight, now, jobs) then NotAfter(jobs, i, k) else NoHeavier(inFlight, jobs, i, k)
  }

  lemma StarvingByFields(limits: Limits, inFlight: map<string, int>, now: int, jobs: seq<Job>)
    ensures AnyStarved(limits, inFlight, now, jobs) <==> SomeoneStarves(limits, inFlight, now, jobs)
  {
    if AnyStarved(limits, inFlight, now, jobs) {
      var job :| job in jobs && Eligible(limits, inFlight, job) && Starved(limits, now, job);
      var k :| 0 <= k < |jobs| && jobs[k] == job;
      assert HasRoom(limits, inFlight, jobs, k);
    }
    if SomeoneStarves(limits, inFlight, now, jobs) {
      var k :| 0 <= k < |jobs| && HasRoom(limits, inFlight, jobs, k)
               && now - jobs[k].enqueuedAt >= limits.starvationThreshold;
      assert jobs[k] in jobs && Eligible(limits, inFlight, jobs[k]);
    }
  }

  lemma WithoutStarvation(limits: Limits, inFlight: map<string, int>, now: int, jobs: seq<Job>, i: nat)
    requires !SomeoneStarves(limits, inFlight, now, jobs)
    ensures IsFirstMin(limits, inFlight, now, false, jobs, i) <==> IsRightChoice(limits, inFlight, now, jobs, i)
  {
    if i < |jobs| {
      forall k | 0 <= k < |jobs|
        ensures Candidate(limits, inFlight, now, false, jobs[k]) <==> HasRoom(limits, inFlight, jobs, k)
        ensures NoHeavier(inFlight, jobs, i, k) <==>
          !Less(KeyOf(inFlight, false, jobs[k]), KeyOf(inFlight, false, jobs[i]))
          && (k < i ==> Less(KeyOf(inFlight, false, jobs[i]), KeyOf(inFlight, false, jobs[k])))
      {
        NoHeavierIsFirst(inFlight, jobs, i, k);
      }
    }
  }

  /** The longest waiting job with room is starved if any is. */
  lemma UnderStarvation(limits: Limits, inFlight: map<string, int>, now: int, jobs: seq<Job>, i: nat)
    requires SomeoneStarves(limits, inFlight, now, jobs)
    ensures IsFirstMin(limits, inFlight, now, true, jobs, i) <==> IsRightChoice(limits, inFlight, now, jobs, i)
  {
    var s :| 0 <= s < |jobs| && HasRoom(limits, inFlight, jobs, s)
             && now - jobs[s].enqueuedAt >= limits.starvationThreshold;
    assert Candidate(limits, inFlight, now, true, jobs[s]);
    if i < |jobs| {
      forall k | 0 <= k < |jobs|
        ensures Candidate(limits, inFlight, now, true, jobs[k]) <==>
          HasRoom(limits, inFlight, jobs, k) && now - jobs[k].enqueuedAt >= limits.starvationThreshold
        ensures NotAfter(jobs, i, k) <==>
          !Less(KeyOf(inFlight, true, jobs[k]), KeyOf(inFlight, true, jobs[i]))
          && (k < i ==> Less(KeyOf(inFlight, true, jobs[i]), KeyOf(inFlight, true, jobs[k])))
      {
        NotAfterIsFirst(inFlight, jobs, i, k);
      }
    }
  }

  /** The dispatcher picks job i exactly if its tenant has room and, of the jobs whose tenants have
      room, it has waited longest when one of them starves, and otherwise has the least load for its
      weight, ties going to the longer wait and then to the front of the list. */
  lemma ChoiceByFields(limits: Limits, inFlight: map<string, int>, now: int, jobs: seq<Job>, i: nat)
    ensures SelectNextJob(limits, inFlight, now, jobs) == Some(i)
       <==> IsRightChoice(limits, inFlight, now, jobs, i)
    ensures SelectNextJob(limits, inFlight, now, jobs) == None
       <==> forall k | 0 <= k < |jobs| :: !HasRoom(limits, inFlight, jobs, k)
  {
    ChoiceIsFair(limits, inFlight, now, jobs, i);
    StarvingByFields(limits, inFlight, now, jobs);
    if SomeoneStarves(limits, inFlight, now, jobs) {
      UnderStarvation(limits, inFlight, now, jobs, i);
    } else {
      WithoutStarvation(limits, inFlight, now, jobs, i);
    }
  }

  // ------------------------------------------------ bounded overtaking

  /** What happens up to and including one pick: jobs arrive, then the dispatcher chooses. */
  datatype Round = Round(arrivals: seq<Job>, inFlight: map<string, int>, now: int)

  function Without(jobs: seq<Job>, i: nat): seq<Job>
    requires i < |jobs|
  {
    jobs[..i] + jobs[i + 1..]
  }

  /** How many other jobs are picked before the one at position p; None if the rounds run out. */
  function Overtakings(limits: Limits, pending: seq<Job>, p: nat, rounds: seq<Round>): Option<nat>
    requires p < |pending|
    decreases |rounds|
  {
    if rounds == [] then None
    else
      var r := rounds[0];
      var jobs := pending + r.arrivals;
      match SelectNextJob(limits, r.inFlight, r.now, jobs)
      case None => None
      case Some(i) =>
        if i == p then Some(0)
        else
          match Overtakings(limits, Without(jobs, i), if i < p then p - 1 else p, rounds[1..])
          case None => None
          case Some(n) => Some(n + 1)
  }

  function QueuedBy(jobs: seq<Job>, t: int): nat {
    if jobs == [] then 0 else QueuedBy(jobs[..|jobs| - 1], t) + if jobs[|jobs| - 1].enqueuedAt <= t then 1 else 0
  }

  /** The pending jobs that were enqueued before the one at p, or at the same time but stand before it. */
  function AheadOf(jobs: seq<Job>, p: nat): nat
    requires p < |jobs|
  {
    QueuedBy(jobs[..p], jobs[p].enqueuedAt) + QueuedBy(jobs[p + 1..], jobs[p].enqueuedAt - 1)
  }

  lemma {:induction false} QueuedByAppend(a: seq<Job>, b: seq<Job>, t: int)
    ensures QueuedBy(a + b, t) == QueuedBy(a, t) + QueuedBy(b, t)
  {
    if b == [] {
      assert a + b == a;
    } else {
      var k := |b| - 1;
      QueuedByAppend(a, b[..k], t);
      assert (a + b)[..|a| + k] == a + b[..k];
    }
  }

  lemma QueuedByOne(job: Job, t: int)
    ensures QueuedBy([job], t) == if job.enqueuedAt <= t then 1 else 0
  {
    assert [job][..0] == [];
  }

  lemma {:induction false} LateArrivalsDoNotCount(jobs: seq<Job>, t: int)
    requires forall job | job in jobs :: job.enqueuedAt > t
    ensures QueuedBy(jobs, t) == 0
  {
    if jobs != [] {
      LateArrivalsDoNotCount(jobs[..|jobs| - 1], t);
      assert jobs[|jobs| - 1] in jobs;
    }
  }

  lemma ArrivalsStayBehind(pending: seq<Job>, p: nat, arrivals: seq<Job>)
    requires p < |pending|
    requires forall job | job in arrivals :: job.enqueuedAt >= pending[p].enqueuedAt
    ensures AheadOf(pending + arrivals, p) == AheadOf(pending, p)
  {
    var jobs := pending + arrivals;
    assert jobs[..p] == pending[..p];
    assert jobs[p + 1..] == pending[p + 1..] + arrivals;
    QueuedByAppend(pending[p + 1..], arrivals, pending[p].enqueuedAt - 1);
    LateArrivalsDoNotCount(arrivals, pending[p].enqueuedAt - 1);
  }

  /** The job at i stands ahead of the one at p. */
  predicate Ahead(jobs: seq<Job>, i: nat, p: nat)
    requires i < |jobs| && p < |jobs|
  {
    jobs[i].enqueuedAt < jobs[p].enqueuedAt || (jobs[i].enqueuedAt == jobs[p].enqueuedAt && i < p)
  }

  lemma QueuedByWithout(jobs: seq<Job>, i: nat, t: int)
    requires i < |jobs|
    ensures QueuedBy(jobs, t) == QueuedBy(Without(jobs, i), t) + if jobs[i].enqueuedAt <= t then 1 else 0
  {
    assert jobs == jobs[..i] + [jobs[i]] + jobs[i + 1..];
    QueuedByAppend(jobs[..i] + [jobs[i]], jobs[i + 1..], t);
    QueuedByAppend(jobs[..i], [jobs[i]], t);
    QueuedByOne(jobs[i], t);
    QueuedByAppend(jobs[..i], jobs[i + 1..], t);
  }

  lemma PickBeforeShortens(jobs: seq<Job>, i: nat, p: nat)
    requires i < p < |jobs| && jobs[i].enqueuedAt <= jobs[p].enqueuedAt
    ensures Without(jobs, i)[p - 1] == jobs[p] && AheadOf(Without(jobs, i), p - 1) == AheadOf(jobs, p) - 1
  {
    var rest := Without(jobs, i);
    assert rest[..p - 1] == Without(jobs[..p], i);
    assert rest[p..] == jobs[p + 1..];
    QueuedByWithout(jobs[..p], i, jobs[p].enqueuedAt);
  }

  lemma PickAfterShortens(jobs: seq<Job>, i: nat, p: nat)
    requires p < i < |jobs| && jobs[i].enqueuedAt < jobs[p].enqueuedAt
    ensures Without(jobs, i)[p] == jobs[p] && AheadOf(Without(jobs, i), p) == AheadOf(jobs, p) - 1
  {
    var rest := Without(jobs, i);
    assert rest[..p] == jobs[..p];
    assert rest[p + 1..] == Without(jobs[p + 1..], i - p - 1);
    QueuedByWithout(jobs[p + 1..], i - p - 1, jobs[p].enqueuedAt - 1);
  }

  /** Picking a job ahead of p leaves one less. */
  lemma PickAheadShortens(jobs: seq<Job>, i: nat, p: nat)
    requires i < |jobs| && p < |jobs| && i != p && Ahead(jobs, i, p)
    ensures var q := if i < p then p - 1 else p;
      Without(jobs, i)[q] == jobs[p] && AheadOf(Without(jobs, i), q) == AheadOf(jobs, p) - 1
  {
    if i < p {
      PickBeforeShortens(jobs, i, p);
    } else {
      PickAfterShortens(jobs, i, p);
    }
  }

  /** A starved job whose tenant is under its limit only loses to jobs ahead of it. */
  lemma StarvedOnlyLosesToJobsAhead(limits: Limits, inFlight: map<string, int>, now: int, jobs: seq<Job>, p: nat)
    requires p < |jobs| && Eligible(limits, inFlight, jobs[p]) && Starved(limits, now, jobs[p])
    ensures var r := SelectNextJob(limits, inFlight, now, jobs);
      r.Some? && r.value < |jobs| && (r.value == p || Ahead(jobs, r.value, p))
  {
    assert jobs[p] in jobs;
    FirstMinIsFirstMin(limits, inFlight, now, true, jobs);
    assert Candidate(limits, inFlight, now, true, jobs[p]);
  }

  /** The job has waited past the threshold and its tenant is under the limit at every pick, and
      what arrives was not enqueued before it. */
  predicate KeepsItsPlace(limits: Limits, job: Job, r: Round) {
    && Starved(limits, r.now, job) && Eligible(limits, r.inFlight, job)
    && forall other | other in r.arrivals :: other.enqueuedAt >= job.enqueuedAt
  }

  /** Whatever the weights, the loads and the later arrivals: a starved job is overtaken at most by
      the jobs that stand ahead of it now. */
  lemma {:induction false} OvertakingIsBounded(limits: Limits, pending: seq<Job>, p: nat, rounds: seq<Round>)
    requires p < |pending|
    requires forall r | r in rounds :: KeepsItsPlace(limits, pending[p], r)
    ensures var n := Overtakings(limits, pending, p, rounds);
      && (n.Some? ==> n.value <= AheadOf(pending, p))
      && (|rounds| > AheadOf(pending, p) ==> n.Some?)
    decreases |rounds|
  {
    if rounds != [] {
      var r := rounds[0];
      assert r in rounds;
      var jobs := pending + r.arrivals;
      ArrivalsStayBehind(pending, p, r.arrivals);
      StarvedOnlyLosesToJobsAhead(limits, r.inFlight, r.now, jobs, p);
      var i := SelectNextJob(limits, r.inFlight, r.now, jobs).value;
      if i != p {
        PickAheadShortens(jobs, i, p);
        OvertakingIsBounded(limits, Without(jobs, i), if i < p then p - 1 else p, rounds[1..]);
      }
    }
  }
}
