/** The control-plane store: configuration versions, the snapshots that combine them, the one
    active snapshot, and the snapshot every run is pinned to. */
module ControlPlane {
  import opened Common

  datatype Version = Version(recordId: string, number: int, createdBy: string, rationale: string, payload: string)

  datatype Snapshot = Snapshot(
    id: string,
    graphVersionId: string,
    agentVersionIds: map<string, string>,
    supersedes: Option<string>,
    createdBy: string,
    evidence: string)

  datatype Action = CreatedGraph | CreatedAgent | Activated | RolledBack

  datatype AuditEvent = AuditEvent(action: Action, actor: string, rationale: string, target: string,
                                   evidence: Option<string>)

  datatype Binding = Binding(snapshotId: string, status: string)

  /** The tables; snapshots and versions are in the order of their creation. */
  datatype Tables = Tables(
    graphVersions: seq<Version>,
    agentVersions: seq<Version>,
    snapshots: seq<Snapshot>,
    active: Option<string>,
    revision: int,
    bindings: map<string, Binding>,
    audit: seq<AuditEvent>)

  const EMPTY := Tables([], [], [], None, 0, map[], [])

  datatype Fault =
    | ActivationBlocked | UnknownVersion | UnknownSnapshot | ActiveSnapshotChanged | UnknownBinding
    | DuplicateKey | ForeignKeyViolation

  datatype ShadowReport = ShadowReport(activeVersionId: string, blocked: bool, blockingReasons: string)

  /** A call of the store. Fresh ids, and whether the runs table holds a run, are parameters. */
  datatype Op =
    | CreateGraph(newId: string, payload: string, actor: string, rationale: string)
    | CreateAgent(newId: string, payload: string, actor: string, rationale: string)
    | Activate(newId: string, graphId: string, agentIds: map<string, string>, actor: string, rationale: string,
               report: ShadowReport, overrideRationale: Option<string>, expected: Option<string>)
    | Rollback(snapshotId: string, actor: string, rationale: string, expected: Option<string>)
    | Pin(runId: string, runExists: bool, snapshotId: string, status: string)
    | UpdateStatus(runId: string, status: string)
    | Cleanup

  datatype Reply = Done | NewVersion(version: Version) | Current(snapshot: Snapshot) | Deleted(ids: seq<string>)

  /** A committed transaction: the tables it leaves and what the call returns. */
  datatype Commit = Commit(tables: Tables, reply: Reply)

  // ------------------------------------------------ the calls

  const NON_TERMINAL := {"active", "paused", "shadow", "dlq"}

  predicate HasVersion(versions: seq<Version>, id: string) {
    exists v :: v in versions && v.recordId == id
  }

  predicate HasId(rows: seq<Snapshot>, id: string) {
    exists r :: r in rows && r.id == id
  }

  /** MAX(version_number), or 0. */
  function MaxNumber(versions: seq<Version>): int {
    if versions == [] then 0
    else
      var k := |versions| - 1;
      if k == 0 || versions[k].number >= MaxNumber(versions[..k]) then versions[k].number else MaxNumber(versions[..k])
  }

  function NextVersion(versions: seq<Version>, id: string, payload: string, actor: string, rationale: string): Version {
    Version(id, MaxNumber(versions) + 1, actor, rationale, payload)
  }

  /** The snapshot a switch says it replaces: the explicit one, or the one the report observed. */
  function NormalizedExpected(expected: Option<string>, observed: string): Option<string> {
    if expected.Some? then expected else if observed == "" || observed == "none" then None else Some(observed)
  }

  function Evidence(report: ShadowReport): string {
    if report.blocked then report.blockingReasons else "shadow-evidence-passed"
  }

  ghost function ActivateFault(s: Tables, op: Op): Option<Fault>
    requires op.Activate?
  {
    if op.report.blocked && op.overrideRationale == None then Some(ActivationBlocked)
    else if !HasVersion(s.graphVersions, op.graphId) then Some(UnknownVersion)
    else if exists k :: k in op.agentIds && !HasVersion(s.agentVersions, op.agentIds[k]) then Some(UnknownVersion)
    else if HasId(s.snapshots, op.newId) then Some(DuplicateKey)
    else if NormalizedExpected(op.expected, op.report.activeVersionId) != s.active then Some(ActiveSnapshotChanged)
    else None
  }

  function NewSnapshot(s: Tables, op: Op): Snapshot
    requires op.Activate?
  {
    Snapshot(op.newId, op.graphId, op.agentIds, s.active, op.actor, Evidence(op.report))
  }

  function ActivationEvent(op: Op): AuditEvent
    requires op.Activate?
  {
    AuditEvent(Activated, op.actor, if op.overrideRationale.Some? && op.overrideRationale.value != ""
                                    then op.overrideRationale.value else op.rationale,
               op.newId, Some(Evidence(op.report)))
  }

  ghost function RollbackFault(s: Tables, op: Op): Option<Fault>
    requires op.Rollback?
  {
    if !HasId(s.snapshots, op.snapshotId) then Some(UnknownSnapshot)
    else if op.expected != s.active then Some(ActiveSnapshotChanged)
    else None
  }

  function RollbackEvent(op: Op): AuditEvent
    requires op.Rollback?
  {
    AuditEvent(RolledBack, op.actor, op.rationale, op.snapshotId, Some("rollback-reactivated-snapshot"))
  }

  ghost function TheSnapshot(rows: seq<Snapshot>, id: string): (r: Snapshot)
    requires HasId(rows, id)
    ensures r in rows && r.id == id
  {
    var r :| r in rows && r.id == id;
    r
  }

  /** The snapshots that must stay: the active one and those of runs that are not over. */
  function InUse(active: Option<string>, bindings: map<string, Binding>): set<string> {
    (if active.Some? then {active.value} else {}) +
    (set run | run in bindings && bindings[run].status in NON_TERMINAL :: bindings[run].snapshotId)
  }

  function KeptRows(rows: seq<Snapshot>, keep: set<string>): seq<Snapshot> {
    if rows == [] then []
    else
      var k := |rows| - 1;
      KeptRows(rows[..k], keep) + if rows[k].id in keep then [rows[k]] else []
  }

  function RetiredIds(rows: seq<Snapshot>, keep: set<string>): seq<string> {
    if rows == [] then []
    else
      var k := |rows| - 1;
      RetiredIds(rows[..k], keep) + if rows[k].id in keep then [] else [rows[k].id]
  }

  function KeptBindings(bindings: map<string, Binding>, keep: set<string>): map<string, Binding> {
    map run | run in bindings && bindings[run].snapshotId in keep :: bindings[run]
  }

  /** A stored snapshot still names a retired one as its predecessor. */
  ghost predicate StillSuperseded(rows: seq<Snapshot>, keep: set<string>) {
    exists r, t :: r in rows && t in rows && r.id !in keep && t.supersedes == Some(r.id)
  }

  ghost function Call(s: Tables, op: Op): Result<Commit, Fault> {
    match op
    case CreateGraph(id, payload, actor, rationale) =>
      if HasVersion(s.graphVersions, id) then Err(DuplicateKey)
      else
        var v := NextVersion(s.graphVersions, id, payload, actor, rationale);
        Ok(Commit(s.(graphVersions := s.graphVersions + [v],
                     audit := s.audit + [AuditEvent(CreatedGraph, actor, rationale, id, None)]), NewVersion(v)))
    case CreateAgent(id, payload, actor, rationale) =>
      if HasVersion(s.agentVersions, id) then Err(DuplicateKey)
      else
        var v := NextVersion(s.agentVersions, id, payload, actor, rationale);
        Ok(Commit(s.(agentVersions := s.agentVersions + [v],
                     audit := s.audit + [AuditEvent(CreatedAgent, actor, rationale, id, None)]), NewVersion(v)))
    case Activate(id, _, _, _, _, _, _, _) =>
      var fault := ActivateFault(s, op);
      if fault.Some? then Err(fault.value)
      else Ok(Commit(s.(snapshots := s.snapshots + [NewSnapshot(s, op)], active := Some(id),
                        revision := s.revision + 1, audit := s.audit + [ActivationEvent(op)]),
                     Current(NewSnapshot(s, op))))
    case Rollback(id, _, _, _) =>
      var fault := RollbackFault(s, op);
      if fault.Some? then Err(fault.value)
      else Ok(Commit(s.(active := Some(id), revision := s.revision + 1, audit := s.audit + [RollbackEvent(op)]),
                     Current(TheSnapshot(s.snapshots, id))))
    case Pin(run, runExists, id, status) =>
      if !runExists || !HasId(s.snapshots, id) then Err(ForeignKeyViolation)
      else Ok(Commit(s.(bindings := s.bindings[run := Binding(id, status)]), Done))
    case UpdateStatus(run, status) =>
      if run !in s.bindings then Err(UnknownBinding)
      else Ok(Commit(s.(bindings := s.bindings[run := Binding(s.bindings[run].snapshotId, status)]), Done))
    case Cleanup =>
      var keep := InUse(s.active, s.bindings);
      if StillSuperseded(s.snapshots, keep) then Err(ForeignKeyViolation)
      else Ok(Commit(s.(snapshots := KeptRows(s.snapshots, keep), bindings := KeptBindings(s.bindings, keep)),
                     Deleted(RetiredIds(s.snapshots, keep))))
  }

  /** A call that fails leaves the tables alone. */
  ghost function Next(s: Tables, op: Op): Tables {
    match Call(s, op)
    case Ok(c) => c.tables
    case Err(_) => s
  }

  ghost function Run(s: Tables, ops: seq<Op>): Tables {
    if ops == [] then s else Next(Run(s, ops[..|ops| - 1]), ops[|ops| - 1])
  }

  // ------------------------------------------------ what every run keeps

  /** Ids are unique and every snapshot supersedes one that was stored before it. */
  ghost predicate WellFormedRows(rows: seq<Snapshot>) {
    rows == [] ||
    var k := |rows| - 1;
    && WellFormedRows(rows[..k])
    && !HasId(rows[..k], rows[k].id)
    && (rows[k].supersedes.Some? ==> HasId(rows[..k], rows[k].supersedes.value))
  }

  /** The target of the last activation or rollback. */
  function LastSwitch(audit: seq<AuditEvent>): Option<string> {
    if audit == [] then None
    else
      var e := audit[|audit| - 1];
      if e.action == Activated || e.action == RolledBack then Some(e.target) else LastSwitch(audit[..|audit| - 1])
  }

  function Switches(audit: seq<AuditEvent>): nat {
    if audit == [] then 0
    else
      var e := audit[|audit| - 1];
      Switches(audit[..|audit| - 1]) + if e.action == Activated || e.action == RolledBack then 1 else 0
  }

  ghost predicate Numbered(versions: seq<Version>) {
    forall i | 0 <= i < |versions| :: versions[i].number == i + 1
  }

  ghost predicate Inv(s: Tables) {
    && WellFormedRows(s.snapshots)
    && (s.active.Some? ==> HasId(s.snapshots, s.active.value))
    && (forall run | run in s.bindings :: HasId(s.snapshots, s.bindings[run].snapshotId))
    && (forall r | r in s.snapshots :: HasVersion(s.graphVersions, r.graphVersionId))
    && LastSwitch(s.audit) == s.active
    && Switches(s.audit) == s.revision
    && Numbered(s.graphVersions) && Numbered(s.agentVersions)
  }

  lemma {:induction false} MaxNumberIsLength(versions: seq<Version>)
    requires Numbered(versions)
    ensures MaxNumber(versions) == |versions|
  {
    if versions != [] {
      MaxNumberIsLength(versions[..|versions| - 1]);
    }
  }

  lemma AuditSnoc(audit: seq<AuditEvent>, e: AuditEvent)
    ensures LastSwitch(audit + [e]) ==
            if e.action == Activated || e.action == RolledBack then Some(e.target) else LastSwitch(audit)
    ensures Switches(audit + [e]) == Switches(audit) + if e.action == Activated || e.action == RolledBack then 1 else 0
  {
    assert (audit + [e])[..|audit|] == audit;
  }

  lemma HasIdSnoc(rows: seq<Snapshot>, r: Snapshot, id: string)
    ensures HasId(rows + [r], id) <==> HasId(rows, id) || r.id == id
  {
    if HasId(rows, id) {
      var w :| w in rows && w.id == id;
      assert w in rows + [r];
    }
    assert r in rows + [r];
  }

  lemma HasVersionSnoc(versions: seq<Version>, v: Version, id: string)
    ensures HasVersion(versions + [v], id) <==> HasVersion(versions, id) || v.recordId == id
  {
    if HasVersion(versions, id) {
      var w :| w in versions && w.recordId == id;
      assert w in versions + [v];
    }
    assert v in versions + [v];
  }

  /** With unique ids a row is found by its id. */
  lemma {:induction false} SameIdSameRow(rows: seq<Snapshot>, r: Snapshot, t: Snapshot)
    requires WellFormedRows(rows) && r in rows && t in rows && r.id == t.id
    ensures r == t
  {
    var k := |rows| - 1;
    if r in rows[..k] && t in rows[..k] {
      SameIdSameRow(rows[..k], r, t);
    }
  }

  lemma {:induction false} KeptRowsAre(rows: seq<Snapshot>, keep: set<string>)
    ensures forall r :: r in KeptRows(rows, keep) <==> r in rows && r.id in keep
    ensures forall id :: id in RetiredIds(rows, keep) <==> HasId(rows, id) && id !in keep
    ensures forall id :: HasId(KeptRows(rows, keep), id) <==> HasId(rows, id) && id in keep
  {
    if rows != [] {
      var k := |rows| - 1;
      KeptRowsAre(rows[..k], keep);
      assert rows == rows[..k] + [rows[k]];
      forall id ensures HasId(rows, id) <==> HasId(rows[..k], id) || rows[k].id == id {
        HasIdSnoc(rows[..k], rows[k], id);
      }
    }
  }

  lemma WellFormedSnoc(rows: seq<Snapshot>, r: Snapshot)
    requires WellFormedRows(rows) && !HasId(rows, r.id)
    requires r.supersedes.Some? ==> HasId(rows, r.supersedes.value)
    ensures WellFormedRows(rows + [r])
  {
    assert (rows + [r])[..|rows|] == rows;
  }

  lemma {:induction false} KeptRowsAreWellFormed(rows: seq<Snapshot>, keep: set<string>)
    requires WellFormedRows(rows)
    requires forall t | t in rows && t.supersedes.Some? :: t.supersedes.value in keep
    ensures WellFormedRows(KeptRows(rows, keep))
  {
    if rows != [] {
      var k := |rows| - 1;
      KeptRowsAreWellFormed(rows[..k], keep);
      KeptRowsAre(rows[..k], keep);
      var kept := KeptRows(rows[..k], keep);
      if rows[k].id in keep {
        WellFormedSnoc(kept, rows[k]);
      } else {
        assert KeptRows(rows, keep) == kept;
      }
    }
  }

  lemma {:induction false} PredecessorIsStored(rows: seq<Snapshot>, t: Snapshot)
    requires WellFormedRows(rows) && t in rows && t.supersedes.Some?
    ensures HasId(rows, t.supersedes.value)
  {
    var k := |rows| - 1;
    HasIdSnoc(rows[..k], rows[k], t.supersedes.value);
    assert rows == rows[..k] + [rows[k]];
    if t in rows[..k] {
      PredecessorIsStored(rows[..k], t);
    }
  }

  lemma CreateKeepsInv(s: Tables, op: Op)
    requires Inv(s) && (op.CreateGraph? || op.CreateAgent?)
    ensures Inv(Next(s, op))
  {
    MaxNumberIsLength(s.graphVersions);
    MaxNumberIsLength(s.agentVersions);
    AuditSnoc(s.audit, AuditEvent(CreatedGraph, op.actor, op.rationale, op.newId, None));
    AuditSnoc(s.audit, AuditEvent(CreatedAgent, op.actor, op.rationale, op.newId, None));
    var v := NextVersion(s.graphVersions, op.newId, op.payload, op.actor, op.rationale);
    forall id ensures HasVersion(s.graphVersions, id) ==> HasVersion(s.graphVersions + [v], id) {
      HasVersionSnoc(s.graphVersions, v, id);
    }
  }

  lemma ActivateKeepsInv(s: Tables, op: Op)
    requires Inv(s) && op.Activate?
    ensures Inv(Next(s, op))
  {
    if ActivateFault(s, op) == None {
      var row := NewSnapshot(s, op);
      AuditSnoc(s.audit, ActivationEvent(op));
      forall id ensures HasId(s.snapshots + [row], id) <==> HasId(s.snapshots, id) || row.id == id {
        HasIdSnoc(s.snapshots, row, id);
      }
      assert (s.snapshots + [row])[..|s.snapshots|] == s.snapshots;
    }
  }

  lemma SwitchesAndPinsKeepInv(s: Tables, op: Op)
    requires Inv(s) && (op.Rollback? || op.Pin? || op.UpdateStatus?)
    ensures Inv(Next(s, op))
  {
    if op.Rollback? {
      AuditSnoc(s.audit, RollbackEvent(op));
    }
  }

  lemma CleanupKeepsInv(s: Tables)
    requires Inv(s)
    ensures Inv(Next(s, Cleanup))
  {
    var keep := InUse(s.active, s.bindings);
    if !StillSuperseded(s.snapshots, keep) {
      forall t | t in s.snapshots && t.supersedes.Some? ensures t.supersedes.value in keep {
        PredecessorIsStored(s.snapshots, t);
        var r :| r in s.snapshots && r.id == t.supersedes.value;
        assert r.id in keep;
      }
      KeptRowsAreWellFormed(s.snapshots, keep);
      KeptRowsAre(s.snapshots, keep);
    }
  }

  lemma CallKeepsInv(s: Tables, op: Op)
    requires Inv(s)
    ensures Inv(Next(s, op))
  {
    match op
    case CreateGraph(_, _, _, _) => CreateKeepsInv(s, op);
    case CreateAgent(_, _, _, _) => CreateKeepsInv(s, op);
    case Activate(_, _, _, _, _, _, _, _) => ActivateKeepsInv(s, op);
    case Cleanup => CleanupKeepsInv(s);
    case _ => SwitchesAndPinsKeepInv(s, op);
  }

  /** After any calls in any order: the active snapshot and every binding resolve, the last switch
      in the audit trail names the active snapshot, and the revision counts the switches. */
  lemma {:induction false} EveryRunKeepsInv(ops: seq<Op>)
    ensures Inv(Run(EMPTY, ops))
  {
    if ops != [] {
      EveryRunKeepsInv(ops[..|ops| - 1]);
      CallKeepsInv(Run(EMPTY, ops[..|ops| - 1]), ops[|ops| - 1]);
    }
  }

  // ------------------------------------------------ pinned runs

  /** The run is not over and is pinned to this very snapshot. */
  ghost predicate PinnedTo(s: Tables, run: string, row: Snapshot) {
    && run in s.bindings && s.bindings[run].status in NON_TERMINAL
    && s.bindings[run].snapshotId == row.id && row in s.snapshots
  }

  predicate LeavesAlone(op: Op, run: string) {
    && (op.Pin? ==> op.runId != run)
    && (op.UpdateStatus? && op.runId == run ==> op.status in NON_TERMINAL)
  }

  lemma CallKeepsPin(s: Tables, op: Op, run: string, row: Snapshot)
    requires PinnedTo(s, run, row) && LeavesAlone(op, run)
    ensures PinnedTo(Next(s, op), run, row)
  {
    if op.Cleanup? {
      var keep := InUse(s.active, s.bindings);
      assert s.bindings[run].snapshotId in keep;
      KeptRowsAre(s.snapshots, keep);
    }
  }

  /** Whatever is activated, rolled back or cleaned up, a run that is not over keeps the very
      snapshot it was pinned to until it is pinned again. */
  lemma {:induction false} RunKeepsItsSnapshot(s: Tables, ops: seq<Op>, run: string, row: Snapshot)
    requires PinnedTo(s, run, row)
    requires forall op | op in ops :: LeavesAlone(op, run)
    ensures PinnedTo(Run(s, ops), run, row)
  {
    if ops != [] {
      RunKeepsItsSnapshot(s, ops[..|ops| - 1], run, row);
      assert ops[|ops| - 1] in ops;
      CallKeepsPin(Run(s, ops[..|ops| - 1]), ops[|ops| - 1], run, row);
    }
  }

  // ------------------------------------------------ racing switches

  predicate IsSwitch(op: Op) {
    op.Activate? || op.Rollback?
  }

  /** What the switch says it replaces, and what it switches to. */
  function Expects(op: Op): Option<string>
    requires IsSwitch(op)
  {
    if op.Activate? then NormalizedExpected(op.expected, op.report.activeVersionId) else op.expected
  }

  function SwitchesTo(op: Op): string
    requires IsSwitch(op)
  {
    if op.Activate? then op.newId else op.snapshotId
  }

  /** A committed switch replaces exactly the snapshot it expected; nothing else moves the pointer. */
  lemma OnlySwitchesMoveThePointer(s: Tables, op: Op)
    ensures IsSwitch(op) && Call(s, op).Ok? ==> s.active == Expects(op) && Next(s, op).active == Some(SwitchesTo(op))
    ensures !(IsSwitch(op) && Call(s, op).Ok?) ==> Next(s, op).active == s.active && Next(s, op).revision == s.revision
  {
  }

  /** Two switches that were prepared against the same active snapshot: the later one commits
      only if the earlier one switched to the snapshot that was active already. */
  lemma OneOfTwoRacingSwitchesWins(s: Tables, first: Op, between: seq<Op>, second: Op)
    requires Inv(s) && IsSwitch(first) && IsSwitch(second) && Call(s, first).Ok? && Expects(second) == s.active
    requires forall op | op in between :: !IsSwitch(op)
    ensures Call(Run(Next(s, first), between), second).Ok? ==> s.active == Some(SwitchesTo(first)) && first.Rollback?
  {
    OnlySwitchesMoveThePointer(s, first);
    OthersKeepThePointer(Next(s, first), between);
    OnlySwitchesMoveThePointer(Run(Next(s, first), between), second);
  }

  lemma {:induction false} OthersKeepThePointer(s: Tables, ops: seq<Op>)
    requires forall op | op in ops :: !IsSwitch(op)
    ensures Run(s, ops).active == s.active
  {
    if ops != [] {
      OthersKeepThePointer(s, ops[..|ops| - 1]);
      assert ops[|ops| - 1] in ops;
      OnlySwitchesMoveThePointer(Run(s, ops[..|ops| - 1]), ops[|ops| - 1]);
    }
  }

  // ------------------------------------------------ what cleanup can and cannot do

  /** What a cleanup that commits leaves: the snapshots in use, all runs that are not over, and of
      the finished runs those whose snapshot is still there. */
  lemma CleanupLeavesWhatIsInUse(s: Tables)
    requires Inv(s) && Call(s, Cleanup).Ok?
    ensures var t := Next(s, Cleanup);
      && (forall id :: HasId(t.snapshots, id) <==> id in InUse(s.active, s.bindings))
      && (forall run | run in s.bindings ::
            run in t.bindings <==> s.bindings[run].snapshotId in InUse(s.active, s.bindings))
      && (forall run | run in s.bindings && s.bindings[run].status in NON_TERMINAL ::
            run in t.bindings && t.bindings[run] == s.bindings[run])
      && t.active == s.active && t.audit == s.audit
  {
    var keep := InUse(s.active, s.bindings);
    KeptRowsAre(s.snapshots, keep);
    forall id | id in keep ensures HasId(s.snapshots, id) {
    }
  }

  /** A snapshot that is retired and was replaced by an activation. */
  ghost predicate RetiredPredecessor(s: Tables, id: string) {
    && HasId(s.snapshots, id) && id !in InUse(s.active, s.bindings)
    && exists t :: t in s.snapshots && t.supersedes == Some(id)
  }

  /** Cleanup commits exactly when no retired snapshot has been replaced by an activation. That the
      deletes of the transaction succeed exactly then is proved in ControlPlaneStores.DeleteRetired. */
  lemma CleanupCommitsIff(s: Tables)
    ensures Call(s, Cleanup).Ok? <==> forall id :: !RetiredPredecessor(s, id)
  {
    var keep := InUse(s.active, s.bindings);
    if StillSuperseded(s.snapshots, keep) {
      var r, t :| r in s.snapshots && t in s.snapshots && r.id !in keep && t.supersedes == Some(r.id);
      assert RetiredPredecessor(s, r.id);
    }
  }

  /** A call that brings a retired snapshot back into use. */
  predicate MayRevive(op: Op, id: string) {
    || ((op.Rollback? || op.Pin?) && op.snapshotId == id)
    || (op.UpdateStatus? && op.status in NON_TERMINAL)
  }

  lemma CallKeepsRetired(s: Tables, op: Op, id: string)
    requires RetiredPredecessor(s, id) && !MayRevive(op, id)
    ensures RetiredPredecessor(Next(s, op), id)
  {
    var t :| t in s.snapshots && t.supersedes == Some(id);
    if op.Cleanup? {
      CleanupCommitsIff(s);
    } else if op.Activate? && ActivateFault(s, op) == None {
      HasIdSnoc(s.snapshots, NewSnapshot(s, op), id);
      assert t in Next(s, op).snapshots;
    } else {
      assert t in Next(s, op).snapshots;
    }
  }

  /** One retired predecessor blocks every later cleanup until it is put to use again. */
  lemma {:induction false} CleanupStaysBlocked(s: Tables, ops: seq<Op>, id: string)
    requires RetiredPredecessor(s, id)
    requires forall op | op in ops :: !MayRevive(op, id)
    ensures RetiredPredecessor(Run(s, ops), id) && Call(Run(s, ops), Cleanup) == Err(ForeignKeyViolation)
  {
    if ops != [] {
      CleanupStaysBlocked(s, ops[..|ops| - 1], id);
      assert ops[|ops| - 1] in ops;
      CallKeepsRetired(Run(s, ops[..|ops| - 1]), ops[|ops| - 1], id);
    }
    CleanupCommitsIff(Run(s, ops));
  }

  /** An activation retires the snapshot it replaces, unless a run still needs it: from then on
      no cleanup commits. */
  lemma ActivationBlocksCleanup(s: Tables, op: Op, replaced: string)
    requires Inv(s) && op.Activate? && Call(s, op).Ok? && s.active == Some(replaced)
    requires forall run | run in s.bindings && s.bindings[run].status in NON_TERMINAL ::
               s.bindings[run].snapshotId != replaced
    ensures RetiredPredecessor(Next(s, op), replaced) && Call(Next(s, op), Cleanup).Err?
  {
    var row := NewSnapshot(s, op);
    HasIdSnoc(s.snapshots, row, replaced);
    assert row in Next(s, op).snapshots;
    CleanupCommitsIff(Next(s, op));
  }
}
