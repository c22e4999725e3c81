/** The worker controller: which worker holds which job, the in-flight counters of the tenants
    beside that table, draining, and what becomes of every job that was assigned. */
module Worker {
  import opened Common
  import opened Dispatcher

  datatype DeadLetter = DeadLetter(job: Job, workerId: string, failureReason: string)

  /** The Redis structures and the dead-letter table. A lease expires, the draining set does not. */
  datatype Shared = Shared(
    active: map<string, Job>,
    counters: map<string, int>,
    leases: set<string>,
    draining: set<string>,
    dead: seq<DeadLetter>)

  /** What became of an assignment. */
  datatype Fate = Held(workerId: string) | Released(checkpoint: string) | DeadLettered(record: nat)

  /** The assignments accepted so far, and the fate of each. */
  datatype Ledger = Ledger(accepted: seq<Job>, fates: seq<Fate>, held: map<string, nat>)

  datatype World = World(shared: Shared, ledger: Ledger)

  const FRESH := World(Shared(map[], map[], {}, {}, []), Ledger([], [], map[]))

  datatype Fault = WorkerIsDraining | TenantAtLimit | NoActiveJob | StoreUnavailable

  /** The calls, and the expiry of a drain lease. `stored` says whether the dead-letter insert commits. */
  datatype Op =
    | Assign(workerId: string, job: Job)
    | BeginDrain(workerId: string)
    | CheckpointAndRelease(workerId: string, checkpoint: string)
    | CaptureFailure(workerId: string, reason: string, stored: bool)
    | LeaseExpires(workerId: string)

  /** A missing counter is zero. */
  function Counter(s: Shared, tenant: string): (n: int)
    ensures tenant in s.counters ==> n == s.counters[tenant]
    ensures tenant !in s.counters ==> n == 0
  {
    if tenant in s.counters then s.counters[tenant] else 0
  }

  function Bump(s: Shared, tenant: string, delta: int): map<string, int> {
    s.counters[tenant := Counter(s, tenant) + delta]
  }

  predicate IsDraining(s: Shared, worker: string) {
    worker in s.draining || worker in s.leases
  }

  function FaultOf(limit: int, s: Shared, op: Op): Option<Fault> {
    match op
    case Assign(w, job) =>
      if IsDraining(s, w) then Some(WorkerIsDraining)
      else if Counter(s, job.tenantId) >= limit then Some(TenantAtLimit)
      else None
    case BeginDrain(_) => None
    case CheckpointAndRelease(w, _) => if w !in s.active then Some(NoActiveJob) else None
    case CaptureFailure(w, _, stored) =>
      if w !in s.active then Some(NoActiveJob) else if !stored then Some(StoreUnavailable) else None
    case LeaseExpires(_) => None
  }

  function DropJob(s: Shared, worker: string): Shared
    requires worker in s.active
  {
    Shared(s.active - {worker}, Bump(s, s.active[worker].tenantId, -1), s.leases - {worker},
           s.draining - {worker}, s.dead)
  }

  function NextShared(s: Shared, op: Op): Shared
    requires op.CheckpointAndRelease? || op.CaptureFailure? ==> op.workerId in s.active
  {
    match op
    case Assign(w, job) => s.(active := s.active[w := job], counters := Bump(s, job.tenantId, 1))
    case BeginDrain(w) => s.(leases := s.leases + {w}, draining := s.draining + {w})
    case CheckpointAndRelease(w, _) => DropJob(s, w)
    case CaptureFailure(w, reason, _) => DropJob(s, w).(dead := s.dead + [DeadLetter(s.active[w], w, reason)])
    case LeaseExpires(w) => s.(leases := s.leases - {w})
  }

  function Settle(l: Ledger, worker: string, fate: Fate): Ledger {
    if worker in l.held && l.held[worker] < |l.fates|
    then Ledger(l.accepted, l.fates[l.held[worker] := fate], l.held - {worker})
    else l
  }

  function NextLedger(s: Shared, l: Ledger, op: Op): Ledger {
    match op
    case Assign(w, job) => Ledger(l.accepted + [job], l.fates + [Held(w)], l.held[w := |l.accepted|])
    case CheckpointAndRelease(w, checkpoint) => Settle(l, w, Released(checkpoint))
    case CaptureFailure(w, _, _) => Settle(l, w, DeadLettered(|s.dead|))
    case _ => l
  }

  /** A refused call changes nothing. */
  function Step(limit: int, w: World, op: Op): World {
    if FaultOf(limit, w.shared, op).Some? then w
    else World(NextShared(w.shared, op), NextLedger(w.shared, w.ledger, op))
  }

  function Run(limit: int, w: World, ops: seq<Op>): World {
    if ops == [] then w else Step(limit, Run(limit, w, ops[..|ops| - 1]), ops[|ops| - 1])
  }

  // ------------------------------------------------ the index and the ledger

  function WorkersOf(s: Shared, tenant: string): set<string> {
    set w | w in s.active && s.active[w].tenantId == tenant
  }

  ghost predicate CountersAreTheIndex(limit: int, s: Shared) {
    forall tenant :: TenantCounted(limit, s, tenant)
  }

  /** The counter is the number of the tenant's jobs in the table and never above the limit. */
  ghost predicate TenantCounted(limit: int, s: Shared, tenant: string) {
    Counter(s, tenant) == |WorkersOf(s, tenant)| && (limit >= 0 ==> Counter(s, tenant) <= limit)
  }

  /** Every assignment is in the table, released, or dead-lettered, and is there with its job. */
  ghost predicate LedgerTellsTheTruth(w: World) {
    var l := w.ledger;
    && |l.fates| == |l.accepted|
    && l.held.Keys == w.shared.active.Keys
    && (forall worker | worker in l.held ::
          l.held[worker] < |l.accepted| && l.fates[l.held[worker]] == Held(worker)
          && l.accepted[l.held[worker]] == w.shared.active[worker])
    && (forall n | 0 <= n < |l.fates| :: FateIsTrue(w, n))
    && (forall r | 0 <= r < |w.shared.dead| :: HasOneOwner(w, r))
  }

  /** Every dead-letter record belongs to exactly one assignment. */
  ghost predicate HasOneOwner(w: World, r: nat) {
    exists n | 0 <= n < |w.ledger.fates| :: OnlyOwner(w, r, n)
  }

  ghost predicate OnlyOwner(w: World, r: nat, n: nat)
    requires n < |w.ledger.fates|
  {
    && w.ledger.fates[n] == DeadLettered(r)
    && forall m | 0 <= m < |w.ledger.fates| && w.ledger.fates[m] == DeadLettered(r) :: m == n
  }

  ghost predicate FateIsTrue(w: World, n: nat)
    requires n < |w.ledger.fates|
  {
    match w.ledger.fates[n]
    case Held(worker) => worker in w.ledger.held && w.ledger.held[worker] == n
    case Released(_) => true
    case DeadLettered(r) =>
      r < |w.shared.dead| && n < |w.ledger.accepted| && w.shared.dead[r].job == w.ledger.accepted[n]
  }

  ghost predicate Inv(limit: int, w: World) {
    CountersAreTheIndex(limit, w.shared) && LedgerTellsTheTruth(w)
  }

  lemma EntryAdded(s: Shared, t: Shared, worker: string, job: Job, tenant: string)
    requires worker !in s.active && t.active == s.active[worker := job]
    ensures |WorkersOf(t, tenant)| == |WorkersOf(s, tenant)| + if job.tenantId == tenant then 1 else 0
  {
    if job.tenantId == tenant {
      assert WorkersOf(t, tenant) == WorkersOf(s, tenant) + {worker} && worker !in WorkersOf(s, tenant);
    } else {
      assert WorkersOf(t, tenant) == WorkersOf(s, tenant);
    }
  }

  lemma AssignKeepsIndex(limit: int, s: Shared, worker: string, job: Job)
    requires CountersAreTheIndex(limit, s) && FaultOf(limit, s, Assign(worker, job)) == None && worker !in s.active
    ensures CountersAreTheIndex(limit, NextShared(s, Assign(worker, job)))
  {
    var t := NextShared(s, Assign(worker, job));
    forall tenant ensures TenantCounted(limit, t, tenant) {
      assert TenantCounted(limit, s, tenant);
      EntryAdded(s, t, worker, job, tenant);
    }
  }

  lemma DropKeepsIndex(limit: int, s: Shared, t: Shared, worker: string)
    requires CountersAreTheIndex(limit, s) && worker in s.active
    requires t.active == DropJob(s, worker).active && t.counters == DropJob(s, worker).counters
    ensures CountersAreTheIndex(limit, t)
  {
    forall tenant ensures TenantCounted(limit, t, tenant) {
      assert TenantCounted(limit, s, tenant);
      assert s.active == t.active[worker := s.active[worker]];
      EntryAdded(t, s, worker, s.active[worker], tenant);
    }
  }

  /** Assignments go to workers that hold nothing; the controller itself does not check that. */
  predicate ToIdleWorker(w: World, op: Op) {
    op.Assign? ==> op.workerId !in w.shared.active
  }

  lemma AssignKeepsLedger(limit: int, w: World, worker: string, job: Job)
    requires LedgerTellsTheTruth(w) && worker !in w.shared.active
    requires FaultOf(limit, w.shared, Assign(worker, job)) == None
    ensures LedgerTellsTheTruth(Step(limit, w, Assign(worker, job)))
  {
    var v := Step(limit, w, Assign(worker, job));
    forall n | 0 <= n < |v.ledger.fates| ensures FateIsTrue(v, n) {
      if n < |w.ledger.fates| {
        assert FateIsTrue(w, n);
      }
    }
    forall r | 0 <= r < |v.shared.dead| ensures HasOneOwner(v, r) {
      assert HasOneOwner(w, r);
      var n :| 0 <= n < |w.ledger.fates| && OnlyOwner(w, r, n);
      assert OnlyOwner(v, r, n);
    }
  }

  lemma SettleKeepsLedger(limit: int, w: World, op: Op)
    requires LedgerTellsTheTruth(w) && (op.CheckpointAndRelease? || op.CaptureFailure?)
    requires FaultOf(limit, w.shared, op) == None
    ensures LedgerTellsTheTruth(Step(limit, w, op))
  {
    var v := Step(limit, w, op);
    assert op.workerId in w.ledger.held;
    var k := w.ledger.held[op.workerId];
    forall n | 0 <= n < |v.ledger.fates| ensures FateIsTrue(v, n) {
      assert FateIsTrue(w, n);
    }
    forall r | 0 <= r < |v.shared.dead| ensures HasOneOwner(v, r) {
      if r < |w.shared.dead| {
        assert HasOneOwner(w, r);
        var n :| 0 <= n < |w.ledger.fates| && OnlyOwner(w, r, n);
        assert OnlyOwner(v, r, n);
      } else {
        forall m | 0 <= m < |w.ledger.fates| ensures w.ledger.fates[m] != DeadLettered(r) {
          assert FateIsTrue(w, m);
        }
        assert OnlyOwner(v, r, k);
      }
    }
  }

  lemma SameLedger(w: World, v: World)
    requires LedgerTellsTheTruth(w) && v.ledger == w.ledger
    requires v.shared.active == w.shared.active && v.shared.dead == w.shared.dead
    ensures LedgerTellsTheTruth(v)
  {
    forall n | 0 <= n < |v.ledger.fates| ensures FateIsTrue(v, n) {
      assert FateIsTrue(w, n);
    }
    forall r | 0 <= r < |v.shared.dead| ensures HasOneOwner(v, r) {
      assert HasOneOwner(w, r);
      var n :| 0 <= n < |w.ledger.fates| && OnlyOwner(w, r, n);
      assert OnlyOwner(v, r, n);
    }
  }

  lemma StepKeepsInv(limit: int, w: World, op: Op)
    requires Inv(limit, w) && ToIdleWorker(w, op)
    ensures Inv(limit, Step(limit, w, op))
  {
    if FaultOf(limit, w.shared, op) == None {
      var v := Step(limit, w, op);
      match op
      case Assign(worker, job) =>
        AssignKeepsIndex(limit, w.shared, worker, job);
        AssignKeepsLedger(limit, w, worker, job);
      case CheckpointAndRelease(worker, _) =>
        DropKeepsIndex(limit, w.shared, v.shared, worker);
        SettleKeepsLedger(limit, w, op);
      case CaptureFailure(worker, _, _) =>
        DropKeepsIndex(limit, w.shared, v.shared, worker);
        SettleKeepsLedger(limit, w, op);
      case _ =>
        forall tenant ensures TenantCounted(limit, v.shared, tenant) {
          assert TenantCounted(limit, w.shared, tenant);
          assert WorkersOf(v.shared, tenant) == WorkersOf(w.shared, tenant);
        }
        SameLedger(w, v);
    }
  }

  /** Jobs are only ever assigned to idle workers. */
  ghost predicate Disciplined(limit: int, ops: seq<Op>) {
    forall i | 0 <= i < |ops| :: ToIdleWorker(Run(limit, FRESH, ops[..i]), ops[i])
  }

  /** Over every such run the counters are the index of the table and respect the limit, and every
      assigned job is exactly one of active, released and dead-lettered. */
  lemma {:induction false} EveryRunKeepsInv(limit: int, ops: seq<Op>)
    requires Disciplined(limit, ops)
    ensures Inv(limit, Run(limit, FRESH, ops))
  {
    if ops == [] {
      forall tenant ensures TenantCounted(limit, FRESH.shared, tenant) {
        assert WorkersOf(FRESH.shared, tenant) == {};
      }
    } else {
      var k := |ops| - 1;
      forall i | 0 <= i < k ensures ops[..k][..i] == ops[..i] {
      }
      assert Disciplined(limit, ops[..k]);
      EveryRunKeepsInv(limit, ops[..k]);
      StepKeepsInv(limit, Run(limit, FRESH, ops[..k]), ops[k]);
    }
  }

  /** An accepted assignment keeps the invariant exactly when the worker was idle: otherwise the
      job it held drops out of the table and stays counted. */
  lemma AssignKeepsInvIff(limit: int, w: World, worker: string, job: Job)
    requires Inv(limit, w) && FaultOf(limit, w.shared, Assign(worker, job)) == None
    ensures Inv(limit, Step(limit, w, Assign(worker, job))) <==> worker !in w.shared.active
  {
    var v := Step(limit, w, Assign(worker, job));
    if worker !in w.shared.active {
      StepKeepsInv(limit, w, Assign(worker, job));
    } else {
      assert FateIsTrue(w, w.ledger.held[worker]);
      assert !FateIsTrue(v, w.ledger.held[worker]);
    }
  }

  /** What the counter of the overwritten job's tenant then says. */
  lemma BusyAssignLeavesCounterHigh(limit: int, w: World, worker: string, job: Job)
    requires Inv(limit, w) && FaultOf(limit, w.shared, Assign(worker, job)) == None && worker in w.shared.active
    ensures var v := Step(limit, w, Assign(worker, job));
            var lost := w.shared.active[worker].tenantId;
            Counter(v.shared, lost) == |WorkersOf(v.shared, lost)| + 1
  {
    var v := Step(limit, w, Assign(worker, job));
    var lost := w.shared.active[worker].tenantId;
    assert TenantCounted(limit, w.shared, lost);
    if job.tenantId == lost {
      assert WorkersOf(v.shared, lost) == WorkersOf(w.shared, lost);
    } else {
      assert worker !in WorkersOf(v.shared, lost);
      assert WorkersOf(w.shared, lost) == WorkersOf(v.shared, lost) + {worker};
    }
  }

  // ------------------------------------------------ draining

  predicate SettlesFor(op: Op, worker: string) {
    (op.CheckpointAndRelease? || op.CaptureFailure?) && op.workerId == worker
  }

  /** From begin_drain to the release of its job a worker gets nothing new, even after the lease
      has expired. */
  lemma {:induction false} DrainingWorkerGetsNothing(limit: int, w: World, ops: seq<Op>, worker: string, job: Job)
    requires worker in w.shared.draining
    requires forall op | op in ops :: !SettlesFor(op, worker)
    ensures var v := Run(limit, w, ops);
      && worker in v.shared.draining
      && FaultOf(limit, v.shared, Assign(worker, job)) == Some(WorkerIsDraining)
      && (worker in v.shared.active <==> worker in w.shared.active)
      && (worker in w.shared.active ==> v.shared.active[worker] == w.shared.active[worker])
  {
    if ops != [] {
      DrainingWorkerGetsNothing(limit, w, ops[..|ops| - 1], worker, job);
      assert ops[|ops| - 1] in ops;
    }
  }

  /** A worker that is idle when it begins to drain drains for ever: nothing it may call would
      take it out of the set again. */
  lemma {:induction false} IdleDrainIsForEver(limit: int, w: World, ops: seq<Op>, worker: string, job: Job)
    requires worker in w.shared.draining && worker !in w.shared.active
    ensures var v := Run(limit, w, ops);
      && worker in v.shared.draining && worker !in v.shared.active
      && FaultOf(limit, v.shared, Assign(worker, job)) == Some(WorkerIsDraining)
  {
    if ops != [] {
      IdleDrainIsForEver(limit, w, ops[..|ops| - 1], worker, job);
    }
  }

  /** So a draining worker can be taken out of the set exactly while it holds a job, which is what
      begin_drain reports. */
  lemma DrainEndsIff(limit: int, w: World, worker: string)
    requires worker in w.shared.draining
    ensures (exists ops :: worker !in Run(limit, w, ops).shared.draining) <==> worker in w.shared.active
  {
    if worker in w.shared.active {
      var ops := [CheckpointAndRelease(worker, "")];
      assert ops[..0] == [];
      assert Run(limit, w, ops) == Step(limit, w, ops[0]);
    } else {
      forall ops ensures worker in Run(limit, w, ops).shared.draining {
        IdleDrainIsForEver(limit, w, ops, worker, Job("", "", "", 1, 0, None));
      }
    }
  }

  // ------------------------------------------------ the calls by what they leave

  /** A worker is refused while it is in the draining set or its lease lives, and a tenant at its limit; any
      other assignment enters the job and counts its tenant, and nothing else. */
  lemma AssignByFields(limit: int, s: Shared, worker: string, job: Job)
    ensures var op := Assign(worker, job);
            var drains := worker in s.draining || worker in s.leases;
            var t := NextShared(s, op);
      && (FaultOf(limit, s, op) == Some(WorkerIsDraining) <==> drains)
      && (FaultOf(limit, s, op) == Some(TenantAtLimit) <==> !drains && Counter(s, job.tenantId) >= limit)
      && (FaultOf(limit, s, op) == None <==> !drains && Counter(s, job.tenantId) < limit)
      && t.active == s.active[worker := job]
      && (forall x :: Counter(t, x) == Counter(s, x) + if x == job.tenantId then 1 else 0)
      && t.leases == s.leases && t.draining == s.draining && t.dead == s.dead
  {
  }

  lemma DrainByFields(limit: int, s: Shared, worker: string)
    ensures FaultOf(limit, s, BeginDrain(worker)) == None && FaultOf(limit, s, LeaseExpires(worker)) == None
    ensures NextShared(s, BeginDrain(worker)) == s.(leases := s.leases + {worker}, draining := s.draining + {worker})
    ensures NextShared(s, LeaseExpires(worker)) == s.(leases := s.leases - {worker})
  {
  }

  /** Releasing a job, or giving it up, takes its entry, one from its tenant's counter and the worker's
      drain marks; a failure is recorded with the job, the worker and the reason. Only a worker without
      a job is refused, or a record that cannot be stored. */
  lemma SettleByFields(limit: int, s: Shared, op: Op)
    requires op.CheckpointAndRelease? || op.CaptureFailure?
    ensures FaultOf(limit, s, op) == Some(NoActiveJob) <==> op.workerId !in s.active
    ensures FaultOf(limit, s, op) == Some(StoreUnavailable)
       <==> op.workerId in s.active && op.CaptureFailure? && !op.stored
    ensures FaultOf(limit, s, op) == None <==> op.workerId in s.active && (op.CaptureFailure? ==> op.stored)
    ensures FaultOf(limit, s, op) == None ==>
              var t, job := NextShared(s, op), s.active[op.workerId];
              && t.active == s.active - {op.workerId}
              && (forall x :: Counter(t, x) == Counter(s, x) - if x == job.tenantId then 1 else 0)
              && t.leases == s.leases - {op.workerId} && t.draining == s.draining - {op.workerId}
              && t.dead == s.dead + if op.CaptureFailure? then [DeadLetter(job, op.workerId, op.reason)] else []
  {
  }

  /** So a worker that drained is free again once its job is released or given up: it may be assigned any
      job whose tenant is under the limit. */
  lemma SettledWorkerIsFree(limit: int, w: World, op: Op, job: Job)
    requires (op.CheckpointAndRelease? || op.CaptureFailure?) && FaultOf(limit, w.shared, op) == None
    ensures var v := Step(limit, w, op).shared;
      && op.workerId !in v.active && op.workerId !in v.draining && op.workerId !in v.leases
      && (FaultOf(limit, v, Assign(op.workerId, job)) == None <==> Counter(v, job.tenantId) < limit)
  {
    SettleByFields(limit, w.shared, op);
    AssignByFields(limit, Step(limit, w, op).shared, op.workerId, job);
  }

  // ------------------------------------------------ the dispatcher's choice

  /** The loads handed to the dispatcher: the counters of the tenants that have a job queued. */
  function InFlightByTenant(s: Shared, jobs: seq<Job>): map<string, int> {
    map tenant | tenant in (set job | job in jobs :: job.tenantId) :: Counter(s, tenant)
  }

  /** A job chosen from the counters passes the limit check of assign on any worker that is not
      draining, and assigning it keeps the tenant within its limit. */
  lemma ChosenJobIsAccepted(limits: Limits, w: World, jobs: seq<Job>, now: int, worker: string)
    requires SelectNextJob(limits, InFlightByTenant(w.shared, jobs), now, jobs).Some?
    requires !IsDraining(w.shared, worker)
    ensures var job := jobs[SelectNextJob(limits, InFlightByTenant(w.shared, jobs), now, jobs).value];
      && FaultOf(limits.perTenant, w.shared, Assign(worker, job)) == None
      && Counter(Step(limits.perTenant, w, Assign(worker, job)).shared, job.tenantId) <= limits.perTenant
  {
    var i := SelectNextJob(limits, InFlightByTenant(w.shared, jobs), now, jobs).value;
    assert jobs[i] in jobs;
    assert jobs[i].tenantId in InFlightByTenant(w.shared, jobs);
  }

  // ------------------------------------------------ the controller as an object

  /** One controller over available Redis; what it remembers locally agrees with the shared table. */
  class RedisWorkerController {
    const perTenantConcurrency: int
    var localActiveJobs: map<string, Job>
    var localDrainingWorkers: set<string>
    var activeJobs: map<string, Job>
    var inFlight: map<string, int>
    var drainLeases: set<string>
    var drainingWorkers: set<string>
    var deadLetterRecords: seq<DeadLetter>

    function View(): Shared
      reads this
    {
      Shared(activeJobs, inFlight, drainLeases, drainingWorkers, deadLetterRecords)
    }

    predicate Valid()
      reads this
    {
      forall w | w in localActiveJobs :: w in activeJobs && activeJobs[w] == localActiveJobs[w]
    }

    constructor (limit: int)
      ensures Valid() && View() == FRESH.shared && perTenantConcurrency == limit
    {
      perTenantConcurrency := limit;
      localActiveJobs, localDrainingWorkers := map[], {};
      activeJobs, inFlight, drainLeases, drainingWorkers, deadLetterRecords := map[], map[], {}, {}, [];
    }

    method AssignJob(workerId: string, job: Job) returns (fault: Option<Fault>)
      requires Valid()
      modifies this
      ensures Valid()
      ensures fault == FaultOf(perTenantConcurrency, old(View()), Assign(workerId, job))
      ensures View() == if fault.Some? then old(View()) else NextShared(old(View()), Assign(workerId, job))
    {
      if workerId in drainingWorkers || workerId in drainLeases {
        return Some(WorkerIsDraining);
      }
      var running := if job.tenantId in inFlight then inFlight[job.tenantId] else 0;
      if running >= perTenantConcurrency {
        return Some(TenantAtLimit);
      }
      localActiveJobs := localActiveJobs[workerId := job];
      activeJobs := activeJobs[workerId := job];
      inFlight := inFlight[job.tenantId := running + 1];
      fault := None;
    }

    method GetActiveJob(workerId: string) returns (job: Option<Job>)
      requires Valid()
      modifies `localActiveJobs
      ensures Valid()
      ensures job == if workerId in activeJobs then Some(activeJobs[workerId]) else None
    {
      if workerId in localActiveJobs {
        return Some(localActiveJobs[workerId]);
      }
      if workerId !in activeJobs {
        return None;
      }
      job := Some(activeJobs[workerId]);
      localActiveJobs := localActiveJobs[workerId := activeJobs[workerId]];
    }

    method StartDrain(workerId: string) returns (activeJobId: Option<string>)
      requires Valid()
      modifies this
      ensures Valid() && View() == NextShared(old(View()), BeginDrain(workerId))
      ensures activeJobId == if workerId in old(activeJobs) then Some(old(activeJobs)[workerId].jobId) else None
    {
      var job := GetActiveJob(workerId);
      localDrainingWorkers := localDrainingWorkers + {workerId};
      drainLeases := drainLeases + {workerId};
      drainingWorkers := drainingWorkers + {workerId};
      activeJobId := if job.Some? then Some(job.value.jobId) else None;
    }

    method Release(workerId: string, checkpoint: string) returns (r: Result<Job, Fault>)
      requires Valid()
      modifies this
      ensures Valid()
      ensures var op := CheckpointAndRelease(workerId, checkpoint);
        if FaultOf(perTenantConcurrency, old(View()), op).Some?
        then r == Err(NoActiveJob) && View() == old(View())
        else View() == NextShared(old(View()), op)
             && r == Ok(old(activeJobs)[workerId].(checkpointRef := Some(checkpoint)))
    {
      var job := GetActiveJob(workerId);
      if job == None {
        return Err(NoActiveJob);
      }
      Forget(workerId, job.value.tenantId);
      r := Ok(job.value.(checkpointRef := Some(checkpoint)));
    }

    method CaptureTerminalFailure(workerId: string, reason: string, stored: bool) returns (r: Result<DeadLetter, Fault>)
      requires Valid()
      modifies this
      ensures Valid()
      ensures var op := CaptureFailure(workerId, reason, stored);
              var fault := FaultOf(perTenantConcurrency, old(View()), op);
        if fault.Some? then r == Err(fault.value) && View() == old(View())
        else View() == NextShared(old(View()), op) && r == Ok(DeadLetter(old(activeJobs)[workerId], workerId, reason))
    {
      var job := GetActiveJob(workerId);
      if job == None {
        return Err(NoActiveJob);
      }
      var record := DeadLetter(job.value, workerId, reason);
      if !stored {
        return Err(StoreUnavailable);
      }
      deadLetterRecords := deadLetterRecords + [record];
      Forget(workerId, job.value.tenantId);
      r := Ok(record);
    }

    method Forget(workerId: string, tenantId: string)
      requires Valid() && workerId in activeJobs && activeJobs[workerId].tenantId == tenantId
      modifies this
      ensures Valid() && View() == DropJob(old(View()), workerId)
    {
      localActiveJobs := localActiveJobs - {workerId};
      localDrainingWorkers := localDrainingWorkers - {workerId};
      activeJobs := activeJobs - {workerId};
      inFlight := inFlight[tenantId := (if tenantId in inFlight then inFlight[tenantId] else 0) - 1];
      drainLeases := drainLeases - {workerId};
      drainingWorkers := drainingWorkers - {workerId};
    }
  }
}
