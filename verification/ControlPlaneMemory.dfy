/** The in-memory control-plane store, and exactly when it and the database part ways. */
module ControlPlaneMemory {
  import opened Common
  import opened ControlPlane

  /** Dictionaries in the order of insertion; there is no predecessor column. */
  datatype Memory = Memory(
    graphVersions: map<string, Version>,
    agentVersions: map<string, Version>,
    graphCount: int,
    agentCount: int,
    snapshots: seq<Snapshot>,
    active: Option<string>,
    bindings: map<string, Binding>,
    audit: seq<AuditEvent>)

  const EMPTY_MEMORY := Memory(map[], map[], 0, 0, [], None, map[], [])

  datatype MemoryCommit = MemoryCommit(memory: Memory, reply: Reply)

  function MemoryExpected(expected: Option<string>, observed: string): Option<string> {
    if expected == None && observed != "none" then Some(observed) else expected
  }

  function MemoryActivateFault(m: Memory, op: Op): Option<Fault>
    requires op.Activate?
  {
    if op.report.blocked && op.overrideRationale == None then Some(ActivationBlocked)
    else if MemoryExpected(op.expected, op.report.activeVersionId) != m.active then Some(ActiveSnapshotChanged)
    else if op.graphId !in m.graphVersions then Some(UnknownVersion)
    else if exists k | k in op.agentIds :: op.agentIds[k] !in m.agentVersions then Some(UnknownVersion)
    else None
  }

  function MemorySnapshot(op: Op): Snapshot
    requires op.Activate?
  {
    Snapshot(op.newId, op.graphId, op.agentIds, None, op.actor, Evidence(op.report))
  }

  ghost function MemoryCall(m: Memory, op: Op): Result<MemoryCommit, Fault> {
    match op
    case CreateGraph(id, payload, actor, rationale) =>
      var v := Version(id, m.graphCount + 1, actor, rationale, payload);
      Ok(MemoryCommit(m.(graphVersions := m.graphVersions[id := v], graphCount := m.graphCount + 1,
                         audit := m.audit + [AuditEvent(CreatedGraph, actor, rationale, id, None)]), NewVersion(v)))
    case CreateAgent(id, payload, actor, rationale) =>
      var v := Version(id, m.agentCount + 1, actor, rationale, payload);
      Ok(MemoryCommit(m.(agentVersions := m.agentVersions[id := v], agentCount := m.agentCount + 1,
                         audit := m.audit + [AuditEvent(CreatedAgent, actor, rationale, id, None)]), NewVersion(v)))
    case Activate(id, _, _, _, _, _, _, _) =>
      var fault := MemoryActivateFault(m, op);
      if fault.Some? then Err(fault.value)
      else Ok(MemoryCommit(m.(snapshots := m.snapshots + [MemorySnapshot(op)], active := Some(id),
                              audit := m.audit + [ActivationEvent(op)]), Current(MemorySnapshot(op))))
    case Rollback(id, _, _, expected) =>
      if expected.Some? && expected != m.active then Err(ActiveSnapshotChanged)
      else if !HasId(m.snapshots, id) then Err(UnknownSnapshot)
      else Ok(MemoryCommit(m.(active := Some(id), audit := m.audit + [RollbackEvent(op)]),
                           Current(TheSnapshot(m.snapshots, id))))
    case Pin(run, _, id, status) =>
      Ok(MemoryCommit(m.(bindings := m.bindings[run := Binding(id, status)]), Done))
    case UpdateStatus(run, status) =>
      if run !in m.bindings then Err(UnknownBinding)
      else Ok(MemoryCommit(m.(bindings := m.bindings[run := Binding(m.bindings[run].snapshotId, status)]), Done))
    case Cleanup =>
      var keep := InUse(m.active, m.bindings);
      Ok(MemoryCommit(m.(snapshots := KeptRows(m.snapshots, keep)), Deleted(RetiredIds(m.snapshots, keep))))
  }

  ghost function MemoryNext(m: Memory, op: Op): Memory {
    match MemoryCall(m, op)
    case Ok(c) => c.memory
    case Err(_) => m
  }

  // ------------------------------------------------ the two stores side by side

  function Plain(r: Snapshot): Snapshot {
    r.(supersedes := None)
  }

  function PlainRows(rows: seq<Snapshot>): (r: seq<Snapshot>)
    ensures |r| == |rows|
  {
    if rows == [] then [] else PlainRows(rows[..|rows| - 1]) + [Plain(rows[|rows| - 1])]
  }

  function PlainReply(reply: Reply): Reply {
    if reply.Current? then Current(Plain(reply.snapshot)) else reply
  }

  ghost predicate SameVersions(versions: seq<Version>, dict: map<string, Version>, count: int) {
    && (forall id :: HasVersion(versions, id) <==> id in dict)
    && count == |versions|
  }

  /** The memory keeps bindings of finished runs that the database deleted with their snapshots. */
  ghost predicate SameBindings(s: Tables, m: Memory) {
    && (forall run | run in s.bindings :: run in m.bindings && m.bindings[run] == s.bindings[run])
    && (forall run | run in m.bindings && run !in s.bindings :: m.bindings[run].status !in NON_TERMINAL)
  }

  ghost predicate Coupled(s: Tables, m: Memory) {
    && SameVersions(s.graphVersions, m.graphVersions, m.graphCount)
    && SameVersions(s.agentVersions, m.agentVersions, m.agentCount)
    && m.snapshots == PlainRows(s.snapshots)
    && m.active == s.active && m.audit == s.audit
    && SameBindings(s, m)
  }

  predicate FreshIds(s: Tables, op: Op) {
    match op
    case CreateGraph(id, _, _, _) => !HasVersion(s.graphVersions, id)
    case CreateAgent(id, _, _, _) => !HasVersion(s.agentVersions, id)
    case Activate(id, _, _, _, _, _, _, _) => !HasId(s.snapshots, id)
    case _ => true
  }

  /** The calls that one store accepts and the other refuses. */
  ghost predicate Diverges(s: Tables, m: Memory, op: Op) {
    match op
    case CreateGraph(_, _, _, _) => false
    case CreateAgent(_, _, _, _) => false
    case Activate(_, _, _, _, _, _, _, _) =>
      && op.expected == None && op.report.activeVersionId == "" && (s.active == None || s.active == Some(""))
      && !(op.report.blocked && op.overrideRationale == None)
      && HasVersion(s.graphVersions, op.graphId)
      && forall k | k in op.agentIds :: HasVersion(s.agentVersions, op.agentIds[k])
    case Rollback(id, _, _, expected) => expected == None && s.active.Some? && HasId(s.snapshots, id)
    case Pin(_, runExists, id, _) => !runExists || !HasId(s.snapshots, id)
    case UpdateStatus(run, _) => run in m.bindings && run !in s.bindings
    case Cleanup => StillSuperseded(s.snapshots, InUse(s.active, s.bindings))
  }

  lemma {:induction false} PlainRowsAre(rows: seq<Snapshot>)
    ensures forall id :: HasId(PlainRows(rows), id) <==> HasId(rows, id)
    ensures forall r :: r in PlainRows(rows) ==> exists t :: t in rows && r == Plain(t)
  {
    if rows != [] {
      var k := |rows| - 1;
      PlainRowsAre(rows[..k]);
      assert rows == rows[..k] + [rows[k]];
      forall id ensures HasId(PlainRows(rows), id) <==> HasId(rows, id) {
        HasIdSnoc(rows[..k], rows[k], id);
        HasIdSnoc(PlainRows(rows[..k]), Plain(rows[k]), id);
      }
    }
  }

  lemma {:induction false} PlainRowsKept(rows: seq<Snapshot>, keep: set<string>)
    ensures PlainRows(KeptRows(rows, keep)) == KeptRows(PlainRows(rows), keep)
    ensures RetiredIds(PlainRows(rows), keep) == RetiredIds(rows, keep)
  {
    if rows != [] {
      var k := |rows| - 1;
      PlainRowsKept(rows[..k], keep);
      var plain := PlainRows(rows[..k]);
      assert (plain + [Plain(rows[k])])[..k] == plain;
      if rows[k].id in keep {
        var kept := KeptRows(rows[..k], keep);
        assert (kept + [rows[k]])[..|kept|] == kept;
      } else {
        assert KeptRows(rows, keep) == KeptRows(rows[..k], keep);
      }
    }
  }

  lemma CreateAgrees(s: Tables, m: Memory, op: Op)
    requires Inv(s) && Coupled(s, m) && FreshIds(s, op) && (op.CreateGraph? || op.CreateAgent?)
    ensures Call(s, op).Ok? && MemoryCall(m, op).Ok? && Coupled(Next(s, op), MemoryNext(m, op))
    ensures MemoryCall(m, op).value.reply == Call(s, op).value.reply
  {
    MaxNumberIsLength(s.graphVersions);
    MaxNumberIsLength(s.agentVersions);
    var v := NextVersion(if op.CreateGraph? then s.graphVersions else s.agentVersions, op.newId, op.payload, op.actor,
                         op.rationale);
    forall id ensures HasVersion(s.graphVersions + [v], id) <==> HasVersion(s.graphVersions, id) || v.recordId == id {
      HasVersionSnoc(s.graphVersions, v, id);
    }
    forall id ensures HasVersion(s.agentVersions + [v], id) <==> HasVersion(s.agentVersions, id) || v.recordId == id {
      HasVersionSnoc(s.agentVersions, v, id);
    }
  }

  lemma ActivateAgrees(s: Tables, m: Memory, op: Op)
    requires Coupled(s, m) && FreshIds(s, op) && op.Activate?
    ensures Diverges(s, m, op) <==> (ActivateFault(s, op) == None) != (MemoryActivateFault(m, op) == None)
  {
  }

  lemma ActivateStaysCoupled(s: Tables, m: Memory, op: Op)
    requires Coupled(s, m) && op.Activate? && ActivateFault(s, op) == None && MemoryActivateFault(m, op) == None
    ensures Coupled(Next(s, op), MemoryNext(m, op))
    ensures MemoryCall(m, op).value.reply == PlainReply(Call(s, op).value.reply)
  {
    var row := NewSnapshot(s, op);
    assert (s.snapshots + [row])[..|s.snapshots|] == s.snapshots;
  }

  lemma RollbackAgrees(s: Tables, m: Memory, op: Op)
    requires Inv(s) && Coupled(s, m) && op.Rollback?
    ensures Diverges(s, m, op) <==> Call(s, op).Ok? != MemoryCall(m, op).Ok?
    ensures Call(s, op).Ok? && MemoryCall(m, op).Ok? ==>
              && Coupled(Next(s, op), MemoryNext(m, op))
              && MemoryCall(m, op).value.reply == PlainReply(Call(s, op).value.reply)
  {
    PlainRowsAre(s.snapshots);
    if Call(s, op).Ok? && MemoryCall(m, op).Ok? {
      var r := TheSnapshot(m.snapshots, op.snapshotId);
      var t :| t in s.snapshots && r == Plain(t);
      SameIdSameRow(s.snapshots, t, TheSnapshot(s.snapshots, op.snapshotId));
    }
  }

  lemma CleanupAgrees(s: Tables, m: Memory)
    requires Inv(s) && Coupled(s, m)
    ensures MemoryCall(m, Cleanup).Ok?
    ensures Call(s, Cleanup).Ok? ==>
              && Coupled(Next(s, Cleanup), MemoryNext(m, Cleanup))
              && MemoryCall(m, Cleanup).value.reply == Call(s, Cleanup).value.reply
  {
    var keep := InUse(s.active, s.bindings);
    assert InUse(m.active, m.bindings) == keep by {
      forall id ensures id in InUse(m.active, m.bindings) <==> id in keep {
      }
    }
    PlainRowsKept(s.snapshots, keep);
  }

  /** From coupled states, the two stores accept and refuse the same call and give the same answer
      exactly unless the call is one of those listed; then one of them refuses. */
  lemma StoresAgreeIff(s: Tables, m: Memory, op: Op)
    requires Inv(s) && Coupled(s, m) && FreshIds(s, op)
    ensures Diverges(s, m, op) <==> Call(s, op).Ok? != MemoryCall(m, op).Ok?
    ensures !Diverges(s, m, op) ==> Coupled(Next(s, op), MemoryNext(m, op))
    ensures Call(s, op).Ok? && MemoryCall(m, op).Ok? ==>
              MemoryCall(m, op).value.reply == PlainReply(Call(s, op).value.reply)
  {
    match op
    case CreateGraph(_, _, _, _) => CreateAgrees(s, m, op);
    case CreateAgent(_, _, _, _) => CreateAgrees(s, m, op);
    case Activate(_, _, _, _, _, _, _, _) =>
      ActivateAgrees(s, m, op);
      if ActivateFault(s, op) == None && MemoryActivateFault(m, op) == None {
        ActivateStaysCoupled(s, m, op);
      }
    case Rollback(_, _, _, _) => RollbackAgrees(s, m, op);
    case Cleanup => CleanupAgrees(s, m);
    case _ =>
  }

  ghost function MemoryRun(m: Memory, ops: seq<Op>): Memory {
    if ops == [] then m else MemoryNext(MemoryRun(m, ops[..|ops| - 1]), ops[|ops| - 1])
  }

  /** None of the calls of the run is one on which the stores differ. */
  ghost predicate Smooth(ops: seq<Op>) {
    forall i | 0 <= i < |ops| ::
      var s, m := Run(EMPTY, ops[..i]), MemoryRun(EMPTY_MEMORY, ops[..i]);
      FreshIds(s, ops[i]) && !Diverges(s, m, ops[i])
  }

  /** Over a whole run without such calls the memory shows what the database holds. */
  lemma {:induction false} SmoothRunsStayCoupled(ops: seq<Op>)
    requires Smooth(ops)
    ensures Coupled(Run(EMPTY, ops), MemoryRun(EMPTY_MEMORY, ops))
  {
    if ops != [] {
      var k := |ops| - 1;
      forall i | 0 <= i < k ensures ops[..k][..i] == ops[..i] {
      }
      assert Smooth(ops[..k]);
      SmoothRunsStayCoupled(ops[..k]);
      EveryRunKeepsInv(ops[..k]);
      StoresAgreeIff(Run(EMPTY, ops[..k]), MemoryRun(EMPTY_MEMORY, ops[..k]), ops[k]);
    }
  }
}
