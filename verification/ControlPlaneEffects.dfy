/** What each call of the control-plane store does, in the columns of its tables, and what the
    in-memory store does to its dictionaries. */
module ControlPlaneEffects {
  import opened Common
  import opened ControlPlane
  import opened ControlPlaneMemory

  // ------------------------------------------------ bindings

  /** Nothing but the bindings differs. */
  predicate OnlyBindingsDiffer(s: Tables, t: Tables) {
    t == s.(bindings := t.bindings)
  }

  ghost predicate OtherBindingsStay(s: Tables, t: Tables, run: string) {
    forall r | r != run ::
      (r in t.bindings <==> r in s.bindings) && (r in s.bindings ==> t.bindings[r] == s.bindings[r])
  }

  /** Pinning binds the run to exactly this snapshot and status. */
  lemma PinByFields(s: Tables, run: string, runExists: bool, id: string, status: string)
    ensures var op := Pin(run, runExists, id, status);
            var t := Next(s, op);
      && (Call(s, op).Ok? <==> runExists && HasId(s.snapshots, id))
      && (Call(s, op).Err? ==> t == s)
      && (Call(s, op).Ok? ==>
            && run in t.bindings && t.bindings[run].snapshotId == id && t.bindings[run].status == status
            && OtherBindingsStay(s, t, run) && OnlyBindingsDiffer(s, t))
  {
  }

  /** An update changes the status of a bound run, whatever the status, and nothing else: the run stays
      bound to its snapshot. */
  lemma UpdateStatusByFields(s: Tables, run: string, status: string)
    ensures var op := UpdateStatus(run, status);
            var t := Next(s, op);
      && (Call(s, op).Ok? <==> run in s.bindings)
      && (Call(s, op).Err? ==> t == s && Call(s, op) == Err(UnknownBinding))
      && (Call(s, op).Ok? ==>
            && run in t.bindings && t.bindings[run].snapshotId == s.bindings[run].snapshotId
            && t.bindings[run].status == status
            && OtherBindingsStay(s, t, run) && OnlyBindingsDiffer(s, t))
  {
  }

  predicate IsLive(status: string) {
    status == "active" || status == "paused" || status == "shadow" || status == "dlq"
  }

  /** A snapshot that is not active and that no run that is not over is bound to. */
  ghost predicate IsRetired(s: Tables, id: string) {
    && s.active != Some(id)
    && forall run | run in s.bindings && s.bindings[run].snapshotId == id :: !IsLive(s.bindings[run].status)
  }

  lemma RetiredIsNotInUse(s: Tables, id: string)
    ensures IsRetired(s, id) <==> id !in InUse(s.active, s.bindings)
  {
  }

  /** Cleanup commits exactly if nothing stored supersedes a retired snapshot; it then deletes the
      retired snapshots with the bindings to them, and names their ids. */
  lemma CleanupByFields(s: Tables)
    ensures var t := Next(s, Cleanup);
      && (Call(s, Cleanup).Ok? <==>
            forall row, next | row in s.snapshots && next in s.snapshots && next.supersedes == Some(row.id) ::
              !IsRetired(s, row.id))
      && (Call(s, Cleanup).Err? ==> t == s)
      && (Call(s, Cleanup).Ok? ==>
            && (forall row :: row in t.snapshots <==> row in s.snapshots && !IsRetired(s, row.id))
            && (forall run :: run in t.bindings <==>
                  run in s.bindings && !IsRetired(s, s.bindings[run].snapshotId))
            && (forall run | run in t.bindings :: t.bindings[run] == s.bindings[run])
            && t == s.(snapshots := t.snapshots, bindings := t.bindings)
            && Call(s, Cleanup).value.reply.Deleted?
            && (forall id :: id in Call(s, Cleanup).value.reply.ids <==>
                  IsRetired(s, id) && HasId(s.snapshots, id)))
  {
    var keep := InUse(s.active, s.bindings);
    forall id ensures IsRetired(s, id) <==> id !in keep {
      RetiredIsNotInUse(s, id);
    }
    KeptRowsAre(s.snapshots, keep);
  }

  /** A binding, of whatever status, only disappears in a committed cleanup that deletes its snapshot,
      and no run that is not over loses its binding. */
  lemma BindingsLeaveWithTheirSnapshot(s: Tables, op: Op, run: string)
    requires run in s.bindings && run !in Next(s, op).bindings
    ensures op.Cleanup? && Call(s, op).Ok? && !IsLive(s.bindings[run].status)
    ensures !HasId(Next(s, op).snapshots, s.bindings[run].snapshotId)
  {
    assert op.Cleanup?;
    CleanupByFields(s);
  }

  /** So over any calls without a cleanup every binding stays. */
  lemma {:induction false} BindingsStayWithoutCleanup(s: Tables, ops: seq<Op>, run: string)
    requires run in s.bindings && forall op | op in ops :: !op.Cleanup?
    ensures run in Run(s, ops).bindings
  {
    if ops != [] {
      BindingsStayWithoutCleanup(s, ops[..|ops| - 1], run);
      assert ops[|ops| - 1] in ops;
      if run !in Run(s, ops).bindings {
        BindingsLeaveWithTheirSnapshot(Run(s, ops[..|ops| - 1]), ops[|ops| - 1], run);
      }
    }
  }

  // ------------------------------------------------ switches

  /** What an activation finds wrong, by the order in which it looks. */
  ghost predicate Blocked(op: Op)
    requires op.Activate?
  {
    op.report.blocked && op.overrideRationale == None
  }

  ghost predicate VersionsStored(s: Tables, op: Op)
    requires op.Activate?
  {
    && HasVersion(s.graphVersions, op.graphId)
    && forall role | role in op.agentIds :: HasVersion(s.agentVersions, op.agentIds[role])
  }

  /** The explicit expectation, or what the report saw, where nothing and "none" mean no snapshot. */
  predicate ExpectedIsActive(s: Tables, op: Op)
    requires op.Activate?
  {
    var seen := op.report.activeVersionId;
    if op.expected.Some? then s.active == op.expected
    else if seen == "" || seen == "none" then s.active == None
    else s.active == Some(seen)
  }

  lemma ActivateRefusals(s: Tables, op: Op)
    requires op.Activate?
    ensures Call(s, op) == Err(ActivationBlocked) <==> Blocked(op)
    ensures Call(s, op) == Err(UnknownVersion) <==> !Blocked(op) && !VersionsStored(s, op)
    ensures Call(s, op) == Err(DuplicateKey) <==> !Blocked(op) && VersionsStored(s, op) && HasId(s.snapshots, op.newId)
    ensures Call(s, op) == Err(ActiveSnapshotChanged)
       <==> !Blocked(op) && VersionsStored(s, op) && !HasId(s.snapshots, op.newId) && !ExpectedIsActive(s, op)
    ensures Call(s, op).Ok?
       <==> !Blocked(op) && VersionsStored(s, op) && !HasId(s.snapshots, op.newId) && ExpectedIsActive(s, op)
  {
  }

  /** A committed activation stores one snapshot that supersedes the active one, activates it, counts
      the revision up and writes one audit event; the other tables stay. */
  lemma ActivateByFields(s: Tables, op: Op)
    requires op.Activate? && Call(s, op).Ok?
    ensures var t := Next(s, op);
            var evidence := if op.report.blocked then op.report.blockingReasons else "shadow-evidence-passed";
            var why := if op.overrideRationale.Some? && op.overrideRationale.value != ""
                       then op.overrideRationale.value else op.rationale;
            var row := Snapshot(op.newId, op.graphId, op.agentIds, s.active, op.actor, evidence);
      && t.snapshots == s.snapshots + [row]
      && t.active == Some(op.newId) && t.revision == s.revision + 1
      && t.audit == s.audit + [AuditEvent(Activated, op.actor, why, op.newId, Some(evidence))]
      && t.graphVersions == s.graphVersions && t.agentVersions == s.agentVersions && t.bindings == s.bindings
      && Call(s, op).value.reply == Current(row)
  {
  }

  /** A rollback wants a stored snapshot and the active one as expected; it moves the pointer, counts
      the revision up and writes one audit event. */
  lemma RollbackByFields(s: Tables, op: Op)
    requires op.Rollback?
    ensures Call(s, op) == Err(UnknownSnapshot) <==> !HasId(s.snapshots, op.snapshotId)
    ensures Call(s, op) == Err(ActiveSnapshotChanged)
       <==> HasId(s.snapshots, op.snapshotId) && s.active != op.expected
    ensures Call(s, op).Ok? <==> HasId(s.snapshots, op.snapshotId) && s.active == op.expected
    ensures Call(s, op).Ok? ==>
              var t := Next(s, op);
              && t.active == Some(op.snapshotId) && t.revision == s.revision + 1
              && t.audit == s.audit + [AuditEvent(RolledBack, op.actor, op.rationale, op.snapshotId,
                                                  Some("rollback-reactivated-snapshot"))]
              && t == s.(active := t.active, revision := t.revision, audit := t.audit)
              && Call(s, op).value.reply.Current? && Call(s, op).value.reply.snapshot in s.snapshots
              && Call(s, op).value.reply.snapshot.id == op.snapshotId
  {
  }

  /** A new version gets the next number of its own table, what the call brought, and one audit event. */
  lemma CreateByFields(s: Tables, op: Op)
    requires Inv(s) && (op.CreateGraph? || op.CreateAgent?)
    ensures var versions := if op.CreateGraph? then s.graphVersions else s.agentVersions;
            var v := Version(op.newId, |versions| + 1, op.actor, op.rationale, op.payload);
            var e := AuditEvent(if op.CreateGraph? then CreatedGraph else CreatedAgent, op.actor, op.rationale,
                                op.newId, None);
      && (Call(s, op).Ok? <==> !HasVersion(versions, op.newId))
      && (Call(s, op).Ok? ==>
            && Call(s, op).value.reply == NewVersion(v)
            && Next(s, op) == if op.CreateGraph? then s.(graphVersions := versions + [v], audit := s.audit + [e])
                              else s.(agentVersions := versions + [v], audit := s.audit + [e]))
  {
    MaxNumberIsLength(s.graphVersions);
    MaxNumberIsLength(s.agentVersions);
  }

  // ------------------------------------------------ the in-memory store

  /** In memory a run can be pinned to anything, a bound run changes its status and nothing else, and no
      other call touches a binding. */
  lemma MemoryBindingsByFields(m: Memory, op: Op, run: string)
    ensures var t := MemoryNext(m, op);
      && (op.Pin? && op.runId == run ==>
            MemoryCall(m, op).Ok? && t == m.(bindings := m.bindings[run := Binding(op.snapshotId, op.status)]))
      && (op.UpdateStatus? && op.runId == run ==>
            && (MemoryCall(m, op).Ok? <==> run in m.bindings)
            && (run in m.bindings ==>
                  t == m.(bindings := m.bindings[run := Binding(m.bindings[run].snapshotId, op.status)]))
            && (run !in m.bindings ==> MemoryCall(m, op) == Err(UnknownBinding)))
      && (!((op.Pin? || op.UpdateStatus?) && op.runId == run) ==>
            (run in t.bindings <==> run in m.bindings)
            && (run in m.bindings ==> t.bindings[run] == m.bindings[run]))
  {
  }

  lemma MemoryCreateByFields(m: Memory, op: Op)
    requires op.CreateGraph? || op.CreateAgent?
    ensures var count := if op.CreateGraph? then m.graphCount else m.agentCount;
            var v := Version(op.newId, count + 1, op.actor, op.rationale, op.payload);
            var e := AuditEvent(if op.CreateGraph? then CreatedGraph else CreatedAgent, op.actor, op.rationale,
                                op.newId, None);
      && MemoryCall(m, op).Ok? && MemoryCall(m, op).value.reply == NewVersion(v)
      && MemoryNext(m, op) ==
           if op.CreateGraph?
           then m.(graphVersions := m.graphVersions[op.newId := v], graphCount := count + 1, audit := m.audit + [e])
           else m.(agentVersions := m.agentVersions[op.newId := v], agentCount := count + 1, audit := m.audit + [e])
  {
  }

  /** The order in which the in-memory activation looks: block, active snapshot, versions. Only an
      observed "none" stands for no snapshot. */
  lemma MemoryActivateRefusals(m: Memory, op: Op)
    requires op.Activate?
    ensures var seen := op.report.activeVersionId;
            var expected := if op.expected == None && seen != "none" then Some(seen) else op.expected;
            var known := op.graphId in m.graphVersions
                         && forall role | role in op.agentIds :: op.agentIds[role] in m.agentVersions;
      && (MemoryCall(m, op) == Err(ActivationBlocked) <==> Blocked(op))
      && (MemoryCall(m, op) == Err(ActiveSnapshotChanged) <==> !Blocked(op) && m.active != expected)
      && (MemoryCall(m, op) == Err(UnknownVersion) <==> !Blocked(op) && m.active == expected && !known)
      && (MemoryCall(m, op).Ok? <==> !Blocked(op) && m.active == expected && known)
  {
  }

  /** What a committed switch does in memory: there is no predecessor and no revision. */
  lemma MemorySwitchByFields(m: Memory, op: Op)
    requires (op.Activate? || op.Rollback?) && MemoryCall(m, op).Ok?
    ensures var t := MemoryNext(m, op);
            var evidence := if op.Rollback? then "rollback-reactivated-snapshot"
                            else if op.report.blocked then op.report.blockingReasons else "shadow-evidence-passed";
            var why := if op.Activate? && op.overrideRationale.Some? && op.overrideRationale.value != ""
                       then op.overrideRationale.value else op.rationale;
            var id := if op.Activate? then op.newId else op.snapshotId;
      && t.active == Some(id)
      && t.audit == m.audit + [AuditEvent(if op.Activate? then Activated else RolledBack, op.actor, why, id,
                                          Some(evidence))]
      && t.snapshots == (if op.Activate?
                         then m.snapshots + [Snapshot(id, op.graphId, op.agentIds, None, op.actor, evidence)]
                         else m.snapshots)
      && t == m.(active := t.active, audit := t.audit, snapshots := t.snapshots)
  {
  }
}
