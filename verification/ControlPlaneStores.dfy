/** The two stores as objects: database tables changed by transactions, and dictionaries. */
module ControlPlaneStores {
  import opened Common
  import opened ControlPlane
  import opened ControlPlaneMemory

  /** Membership in a set of ids, read off the rows that reference them. */
  method ReferencedSnapshots(bindings: map<string, Binding>) returns (ids: set<string>)
    ensures ids == set run | run in bindings && bindings[run].status in NON_TERMINAL :: bindings[run].snapshotId
  {
    ids := set run | run in bindings && bindings[run].status in NON_TERMINAL :: bindings[run].snapshotId;
  }

  lemma {:induction false} PredecessorIsBefore(rows: seq<Snapshot>, j: nat)
    requires WellFormedRows(rows) && j < |rows| && rows[j].supersedes.Some?
    ensures HasId(rows[..j], rows[j].supersedes.value)
  {
    var k := |rows| - 1;
    if j < k {
      PredecessorIsBefore(rows[..k], j);
      assert rows[..k][..j] == rows[..j];
    }
  }

  lemma ElementHasId(rows: seq<Snapshot>, i: nat)
    requires i < |rows|
    ensures HasId(rows, rows[i].id)
  {
    assert rows[i] in rows;
  }

  lemma {:induction false} IdsAreUnique(rows: seq<Snapshot>, i: nat, j: nat)
    requires WellFormedRows(rows) && i < j < |rows|
    ensures rows[i].id != rows[j].id
  {
    var k := |rows| - 1;
    if j < k {
      IdsAreUnique(rows[..k], i, j);
    } else {
      ElementHasId(rows[..k], i);
    }
  }

  /** A snapshot only names a predecessor that was stored before it. */
  lemma SupersedesOnlyEarlier(rows: seq<Snapshot>, i: nat, j: nat)
    requires WellFormedRows(rows) && j <= i < |rows|
    ensures rows[j].supersedes != Some(rows[i].id)
  {
    if rows[j].supersedes.Some? {
      PredecessorIsBefore(rows, j);
      var r :| r in rows[..j] && r.id == rows[j].supersedes.value;
      var x :| 0 <= x < j && rows[x] == r;
      IdsAreUnique(rows, x, i);
    }
  }

  /** Every agent version of an activation has a row. */
  method AllStored(versions: seq<Version>, ids: map<string, string>) returns (known: bool)
    ensures known <==> forall k | k in ids :: HasVersion(versions, ids[k])
  {
    var roles := ids.Keys;
    while roles != {}
      invariant roles <= ids.Keys
      invariant forall k | k in ids && k !in roles :: HasVersion(versions, ids[k])
      decreases roles
    {
      var role :| role in roles;
      if !HasVersion(versions, ids[role]) {
        return false;
      }
      roles := roles - {role};
    }
    known := true;
  }

  class PostgresControlPlaneStore {
    var graphVersions: seq<Version>
    var agentVersions: seq<Version>
    var snapshots: seq<Snapshot>
    var activeSnapshotId: Option<string>
    var revision: int
    var runSnapshotBindings: map<string, Binding>
    var auditEvents: seq<AuditEvent>

    function View(): Tables
      reads this
    {
      Tables(graphVersions, agentVersions, snapshots, activeSnapshotId, revision, runSnapshotBindings, auditEvents)
    }

    constructor ()
      ensures View() == EMPTY && Inv(View())
    {
      graphVersions, agentVersions, snapshots := [], [], [];
      activeSnapshotId, revision, runSnapshotBindings, auditEvents := None, 0, map[], [];
      new;
      EveryRunKeepsInv([]);
    }

    method CreateGraphVersion(newId: string, payload: string, actor: string, rationale: string)
      returns (r: Result<Version, Fault>)
      requires Inv(View())
      modifies this
      ensures var op := CreateGraph(newId, payload, actor, rationale);
        && View() == Next(old(View()), op) && Inv(View())
        && r.Ok? == Call(old(View()), op).Ok?
        && (r.Ok? ==> Call(old(View()), op).value.reply == NewVersion(r.value))
    {
      CallKeepsInv(View(), CreateGraph(newId, payload, actor, rationale));
      if HasVersion(graphVersions, newId) {
        return Err(DuplicateKey);
      }
      var record := Version(newId, MaxNumber(graphVersions) + 1, actor, rationale, payload);
      graphVersions := graphVersions + [record];
      auditEvents := auditEvents + [AuditEvent(CreatedGraph, actor, rationale, newId, None)];
      r := Ok(record);
    }

    method RequireVersions(graphId: string, agentIds: map<string, string>) returns (known: bool)
      ensures known <==> HasVersion(graphVersions, graphId)
                         && forall k | k in agentIds :: HasVersion(agentVersions, agentIds[k])
    {
      known := false;
      if HasVersion(graphVersions, graphId) {
        known := AllStored(agentVersions, agentIds);
      }
    }

    method ActivateSnapshot(op: Op) returns (r: Result<Snapshot, Fault>)
      requires Inv(View()) && op.Activate?
      modifies this
      ensures View() == Next(old(View()), op) && Inv(View())
      ensures r == if ActivateFault(old(View()), op).Some? then Err(ActivateFault(old(View()), op).value)
                   else Ok(NewSnapshot(old(View()), op))
    {
      ghost var s := View();
      CallKeepsInv(s, op);
      if op.report.blocked && op.overrideRationale == None {
        return Err(ActivationBlocked);
      }
      var expected := NormalizedExpected(op.expected, op.report.activeVersionId);
      var known := RequireVersions(op.graphId, op.agentIds);
      if !known {
        return Err(UnknownVersion);
      }
      if HasId(snapshots, op.newId) {
        return Err(DuplicateKey);
      }
      var row := Snapshot(op.newId, op.graphId, op.agentIds, activeSnapshotId, op.actor, Evidence(op.report));
      if activeSnapshotId != expected {
        return Err(ActiveSnapshotChanged);
      }
      assert ActivateFault(s, op) == None && row == NewSnapshot(s, op);
      snapshots := snapshots + [row];
      activeSnapshotId := Some(op.newId);
      revision := revision + 1;
      auditEvents := auditEvents + [ActivationEvent(op)];
      r := Ok(row);
    }

    method RollbackTo(op: Op) returns (r: Result<Snapshot, Fault>)
      requires Inv(View()) && op.Rollback?
      modifies this
      ensures View() == Next(old(View()), op) && Inv(View())
      ensures r == if RollbackFault(old(View()), op).Some? then Err(RollbackFault(old(View()), op).value)
                   else Ok(TheSnapshot(old(View()).snapshots, op.snapshotId))
    {
      ghost var s := View();
      CallKeepsInv(s, op);
      var row := Lookup(snapshots, op.snapshotId);
      if row == None {
        return Err(UnknownSnapshot);
      }
      if activeSnapshotId != op.expected {
        return Err(ActiveSnapshotChanged);
      }
      assert RollbackFault(s, op) == None && row.value == TheSnapshot(s.snapshots, op.snapshotId);
      activeSnapshotId := Some(op.snapshotId);
      revision := revision + 1;
      auditEvents := auditEvents + [RollbackEvent(op)];
      r := Ok(row.value);
    }

    /** There always is a row behind the active pointer. */
    method ActiveSnapshot() returns (r: Option<Snapshot>)
      requires Inv(View())
      ensures r.Some? <==> activeSnapshotId.Some?
      ensures r.Some? ==> r.value in snapshots && Some(r.value.id) == activeSnapshotId
    {
      r := None;
      if activeSnapshotId.Some? {
        r := Lookup(snapshots, activeSnapshotId.value);
      }
    }

    /** There always is a row behind a binding. */
    method SnapshotForRun(runId: string) returns (r: Option<Snapshot>)
      requires Inv(View())
      ensures r.Some? <==> runId in runSnapshotBindings
      ensures r.Some? ==> r.value in snapshots && r.value.id == runSnapshotBindings[runId].snapshotId
    {
      r := None;
      if runId in runSnapshotBindings {
        r := Lookup(snapshots, runSnapshotBindings[runId].snapshotId);
      }
    }

    method PinRunSnapshot(runId: string, runExists: bool, snapshotId: string, status: string) returns (ok: bool)
      requires Inv(View())
      modifies this
      ensures View() == Next(old(View()), Pin(runId, runExists, snapshotId, status)) && Inv(View())
      ensures ok == Call(old(View()), Pin(runId, runExists, snapshotId, status)).Ok?
    {
      CallKeepsInv(View(), Pin(runId, runExists, snapshotId, status));
      ok := runExists && HasId(snapshots, snapshotId);
      if ok {
        runSnapshotBindings := runSnapshotBindings[runId := Binding(snapshotId, status)];
      }
    }

    method UpdateRunStatus(runId: string, status: string) returns (ok: bool)
      requires Inv(View())
      modifies this
      ensures View() == Next(old(View()), UpdateStatus(runId, status)) && Inv(View())
      ensures ok == Call(old(View()), UpdateStatus(runId, status)).Ok?
    {
      CallKeepsInv(View(), UpdateStatus(runId, status));
      ok := runId in runSnapshotBindings;
      if ok {
        runSnapshotBindings := runSnapshotBindings[runId := Binding(runSnapshotBindings[runId].snapshotId, status)];
      }
    }

    method CleanupRetiredSnapshots() returns (r: Result<seq<string>, Fault>)
      requires Inv(View())
      modifies this
      ensures View() == Next(old(View()), Cleanup) && Inv(View())
      ensures r.Err? <==> Call(old(View()), Cleanup).Err?
      ensures r.Ok? ==> Call(old(View()), Cleanup).value.reply == Deleted(r.value)
    {
      CallKeepsInv(View(), Cleanup);
      var committed, table, bindings, deleted := DeleteRetired(snapshots, activeSnapshotId, runSnapshotBindings);
      if !committed {
        return Err(ForeignKeyViolation);
      }
      BindingsLeft(View(), deleted);
      snapshots := table;
      runSnapshotBindings := bindings;
      r := Ok(deleted);
    }
  }

  /** Deletes the retired snapshots, oldest first, each after the bindings of its finished runs; a
      delete that the foreign key of a successor forbids ends the transaction. */
  method DeleteRetired(rows: seq<Snapshot>, active: Option<string>, all: map<string, Binding>)
    returns (committed: bool, table: seq<Snapshot>, bindings: map<string, Binding>, deleted: seq<string>)
    requires WellFormedRows(rows)
    ensures committed <==> !StillSuperseded(rows, InUse(active, all))
    ensures committed ==> table == KeptRows(rows, InUse(active, all))
    ensures committed ==> deleted == RetiredIds(rows, InUse(active, all))
    ensures committed ==> bindings == BindingsWithout(all, deleted)
  {
    var referenced := ReferencedSnapshots(all);
    ghost var keep := InUse(active, all);
    table, bindings, deleted := rows, all, [];
    DropStart(rows, keep);
    for i := 0 to |rows|
      invariant Swept(rows, keep, all, i, table, bindings, deleted)
    {
      var id := rows[i].id;
      if Some(id) != active && id !in referenced {
        SweepRetired(rows, keep, all, i, table, bindings, deleted);
        bindings := WithoutFinished(bindings, id);
        table := WithoutRow(table, id);
        if Superseded(table, id) {
          BlockedByRow(rows, keep, i);
          return false, table, bindings, deleted;
        }
        deleted := deleted + [id];
      } else {
        SweepKept(rows, keep, all, i, table, bindings, deleted);
      }
    }
    NothingBlocked(rows, keep, all, table, bindings, deleted);
    committed := true;
  }

  /** DELETE … WHERE snapshot_id = :id AND status NOT IN (…). */
  function WithoutFinished(bindings: map<string, Binding>, id: string): map<string, Binding> {
    map run | run in bindings && (bindings[run].snapshotId != id || bindings[run].status in NON_TERMINAL)
      :: bindings[run]
  }

  /** The retired ones among the first i rows are gone. */
  ghost predicate Dropped(rows: seq<Snapshot>, keep: set<string>, i: nat, table: seq<Snapshot>, deleted: seq<string>)
    requires i <= |rows|
  {
    table == KeptRows(rows[..i], keep) + rows[i..] && deleted == RetiredIds(rows[..i], keep)
  }

  lemma DropStart(rows: seq<Snapshot>, keep: set<string>)
    ensures Dropped(rows, keep, 0, rows, [])
  {
    assert rows[..0] == [];
  }

  lemma DropKept(rows: seq<Snapshot>, keep: set<string>, i: nat, table: seq<Snapshot>, deleted: seq<string>)
    requires i < |rows| && rows[i].id in keep && Dropped(rows, keep, i, table, deleted)
    ensures Dropped(rows, keep, i + 1, table, deleted)
  {
    StepOverRow(rows, keep, i);
    assert rows[i..] == [rows[i]] + rows[i + 1..];
  }

  lemma DropRow(rows: seq<Snapshot>, keep: set<string>, i: nat, table: seq<Snapshot>, deleted: seq<string>)
    requires WellFormedRows(rows) && i < |rows| && rows[i].id !in keep && Dropped(rows, keep, i, table, deleted)
    ensures Dropped(rows, keep, i + 1, WithoutRow(table, rows[i].id), deleted + [rows[i].id])
  {
    StepOverRow(rows, keep, i);
    RemovesTheRow(rows, keep, i, table);
  }

  lemma DropDone(rows: seq<Snapshot>, keep: set<string>, table: seq<Snapshot>, deleted: seq<string>)
    requires Dropped(rows, keep, |rows|, table, deleted)
    ensures table == KeptRows(rows, keep) && deleted == RetiredIds(rows, keep)
  {
    assert rows[..|rows|] == rows;
  }

  /** The first i rows have been gone through. */
  ghost predicate Swept(rows: seq<Snapshot>, keep: set<string>, all: map<string, Binding>, i: nat, table: seq<Snapshot>,
                        bindings: map<string, Binding>, deleted: seq<string>)
    requires i <= |rows|
  {
    && Dropped(rows, keep, i, table, deleted)
    && bindings == BindingsWithout(all, deleted)
    && forall x | 0 <= x < i && rows[x].id !in keep :: !Superseded(rows, rows[x].id)
  }

  lemma SweepKept(rows: seq<Snapshot>, keep: set<string>, all: map<string, Binding>, i: nat, table: seq<Snapshot>,
                  bindings: map<string, Binding>, deleted: seq<string>)
    requires i < |rows| && rows[i].id in keep && Swept(rows, keep, all, i, table, bindings, deleted)
    ensures Swept(rows, keep, all, i + 1, table, bindings, deleted)
  {
    DropKept(rows, keep, i, table, deleted);
  }

  lemma SweepRetired(rows: seq<Snapshot>, keep: set<string>, all: map<string, Binding>, i: nat, table: seq<Snapshot>,
                     bindings: map<string, Binding>, deleted: seq<string>)
    requires WellFormedRows(rows) && i < |rows| && rows[i].id !in keep
    requires Swept(rows, keep, all, i, table, bindings, deleted)
    ensures var rest := WithoutRow(table, rows[i].id);
      && (Superseded(rest, rows[i].id) <==> Superseded(rows, rows[i].id))
      && (!Superseded(rest, rows[i].id) ==>
            Swept(rows, keep, all, i + 1, rest, WithoutFinished(bindings, rows[i].id), deleted + [rows[i].id]))
  {
    DropRow(rows, keep, i, table, deleted);
    RemovesTheRow(rows, keep, i, table);
    RefersToRow(rows, keep, i, WithoutRow(table, rows[i].id));
    DeletesFinished(all, deleted, rows[i].id);
  }

  lemma BlockedByRow(rows: seq<Snapshot>, keep: set<string>, i: nat)
    requires i < |rows| && rows[i].id !in keep && Superseded(rows, rows[i].id)
    ensures StillSuperseded(rows, keep)
  {
    assert rows[i] in rows;
  }

  lemma DeletesFinished(all: map<string, Binding>, deleted: seq<string>, id: string)
    ensures WithoutFinished(BindingsWithout(all, deleted), id) == BindingsWithout(all, deleted + [id])
  {
  }

  lemma NothingBlocked(rows: seq<Snapshot>, keep: set<string>, all: map<string, Binding>, table: seq<Snapshot>,
                       bindings: map<string, Binding>, deleted: seq<string>)
    requires Swept(rows, keep, all, |rows|, table, bindings, deleted)
    ensures !StillSuperseded(rows, keep)
    ensures table == KeptRows(rows, keep) && deleted == RetiredIds(rows, keep)
  {
    DropDone(rows, keep, table, deleted);
    forall r, t | r in rows && t in rows && r.id !in keep ensures t.supersedes != Some(r.id) {
      var x :| 0 <= x < |rows| && rows[x] == r;
      assert !Superseded(rows, rows[x].id);
    }
  }

  predicate Superseded(rows: seq<Snapshot>, id: string) {
    exists t :: t in rows && t.supersedes == Some(id)
  }

  lemma StepOverRow(rows: seq<Snapshot>, keep: set<string>, i: nat)
    requires i < |rows|
    ensures KeptRows(rows[..i + 1], keep) == KeptRows(rows[..i], keep) + if rows[i].id in keep then [rows[i]] else []
    ensures RetiredIds(rows[..i + 1], keep)
            == RetiredIds(rows[..i], keep) + if rows[i].id in keep then [] else [rows[i].id]
  {
    assert rows[..i + 1][..i] == rows[..i];
  }

  /** SELECT … WHERE snapshot_id = :id, on a table with unique ids. */
  method Lookup(rows: seq<Snapshot>, id: string) returns (r: Option<Snapshot>)
    requires WellFormedRows(rows)
    ensures r.Some? <==> HasId(rows, id)
    ensures r.Some? ==> r.value == TheSnapshot(rows, id)
  {
    r := None;
    for i := 0 to |rows|
      invariant r == None ==> forall x | 0 <= x < i :: rows[x].id != id
      invariant r.Some? ==> r.value in rows && r.value.id == id
    {
      if rows[i].id == id {
        r := Some(rows[i]);
      }
    }
    if r.Some? {
      SameIdSameRow(rows, r.value, TheSnapshot(rows, id));
    }
  }

  function WithoutRow(rows: seq<Snapshot>, id: string): seq<Snapshot> {
    if rows == [] then [] else (if rows[0].id == id then [] else [rows[0]]) + WithoutRow(rows[1..], id)
  }

  /** What the deletes of terminal bindings have left. */
  ghost function BindingsWithout(all: map<string, Binding>, deleted: seq<string>): map<string, Binding> {
    map run | run in all && (all[run].snapshotId !in deleted || all[run].status in NON_TERMINAL) :: all[run]
  }

  lemma {:induction false} WithoutRowSplits(a: seq<Snapshot>, r: Snapshot, b: seq<Snapshot>)
    requires !HasId(a, r.id) && !HasId(b, r.id)
    ensures WithoutRow(a + [r] + b, r.id) == a + b
  {
    if a == [] {
      assert [r] + b == a + [r] + b;
      WithoutAbsentRow(b, r.id);
    } else {
      assert (a + [r] + b)[1..] == a[1..] + [r] + b;
      assert a[0] in a;
      WithoutRowSplits(a[1..], r, b);
    }
  }

  lemma {:induction false} WithoutAbsentRow(b: seq<Snapshot>, id: string)
    requires !HasId(b, id)
    ensures WithoutRow(b, id) == b
  {
    if b != [] {
      assert b[0] in b;
      WithoutAbsentRow(b[1..], id);
    }
  }

  lemma NotStoredAgain(rows: seq<Snapshot>, i: nat)
    requires WellFormedRows(rows) && i < |rows|
    ensures !HasId(rows[i + 1..], rows[i].id)
  {
    forall x | i + 1 <= x < |rows| ensures rows[x].id != rows[i].id {
      IdsAreUnique(rows, i, x);
    }
  }

  lemma RemovesTheRow(rows: seq<Snapshot>, keep: set<string>, i: nat, table: seq<Snapshot>)
    requires WellFormedRows(rows) && i < |rows| && rows[i].id !in keep
    requires table == KeptRows(rows[..i], keep) + rows[i..]
    ensures WithoutRow(table, rows[i].id) == KeptRows(rows[..i], keep) + rows[i + 1..]
  {
    var kept, row, rest := KeptRows(rows[..i], keep), rows[i], rows[i + 1..];
    assert !HasId(kept, row.id) by {
      KeptRowsAre(rows[..i], keep);
    }
    NotStoredAgain(rows, i);
    assert rows[i..] == [row] + rest;
    assert table == kept + [row] + rest;
    WithoutRowSplits(kept, row, rest);
  }

  /** A successor of the row is still in the table when the row is deleted. */
  lemma RefersToRow(rows: seq<Snapshot>, keep: set<string>, i: nat, table: seq<Snapshot>)
    requires WellFormedRows(rows) && i < |rows|
    requires table == KeptRows(rows[..i], keep) + rows[i + 1..]
    ensures Superseded(table, rows[i].id) <==> Superseded(rows, rows[i].id)
  {
    KeptRowsAre(rows[..i], keep);
    if t :| t in rows && t.supersedes == Some(rows[i].id) {
      var j :| 0 <= j < |rows| && rows[j] == t;
      if j <= i {
        SupersedesOnlyEarlier(rows, i, j);
      }
      assert rows[i + 1..][j - i - 1] == t;
    }
  }

  lemma BindingsLeft(s: Tables, deleted: seq<string>)
    requires Inv(s) && deleted == RetiredIds(s.snapshots, InUse(s.active, s.bindings))
    ensures BindingsWithout(s.bindings, deleted) == KeptBindings(s.bindings, InUse(s.active, s.bindings))
  {
    KeptRowsAre(s.snapshots, InUse(s.active, s.bindings));
  }

  /** The dictionaries of the in-memory store; `snapshots` lists its dictionary in insertion order. */
  class InMemoryControlPlaneStore {
    var graphVersions: map<string, Version>
    var agentVersions: map<string, Version>
    var graphCount: int
    var agentCount: int
    var snapshots: seq<Snapshot>
    var activeSnapshotId: Option<string>
    var runBindings: map<string, Binding>
    var auditEvents: seq<AuditEvent>

    function View(): Memory
      reads this
    {
      Memory(graphVersions, agentVersions, graphCount, agentCount, snapshots, activeSnapshotId, runBindings,
             auditEvents)
    }

    constructor ()
      ensures View() == EMPTY_MEMORY
    {
      graphVersions, agentVersions, graphCount, agentCount := map[], map[], 0, 0;
      snapshots, activeSnapshotId, runBindings, auditEvents := [], None, map[], [];
    }

    method ActivateSnapshot(op: Op) returns (r: Result<Snapshot, Fault>)
      requires op.Activate?
      modifies this
      ensures View() == MemoryNext(old(View()), op)
      ensures r == if MemoryActivateFault(old(View()), op).Some? then Err(MemoryActivateFault(old(View()), op).value)
                   else Ok(MemorySnapshot(op))
    {
      if op.report.blocked && op.overrideRationale == None {
        return Err(ActivationBlocked);
      }
      var expected := op.expected;
      if expected == None && op.report.activeVersionId != "none" {
        expected := Some(op.report.activeVersionId);
      }
      if expected != activeSnapshotId {
        return Err(ActiveSnapshotChanged);
      }
      if op.graphId !in graphVersions {
        return Err(UnknownVersion);
      }
      var roles := op.agentIds.Keys;
      while roles != {}
        invariant roles <= op.agentIds.Keys
        invariant forall k | k in op.agentIds && k !in roles :: op.agentIds[k] in agentVersions
        decreases roles
      {
        var role :| role in roles;
        if op.agentIds[role] !in agentVersions {
          return Err(UnknownVersion);
        }
        roles := roles - {role};
      }
      var snapshot := MemorySnapshot(op);
      snapshots := snapshots + [snapshot];
      activeSnapshotId := Some(op.newId);
      auditEvents := auditEvents + [ActivationEvent(op)];
      r := Ok(snapshot);
    }

    method RollbackTo(op: Op) returns (r: Result<Snapshot, Fault>)
      requires op.Rollback? && WellFormedRows(snapshots)
      modifies this
      ensures View() == MemoryNext(old(View()), op)
      ensures r.Ok? == MemoryCall(old(View()), op).Ok?
      ensures r.Ok? ==> MemoryCall(old(View()), op).value.reply == Current(r.value)
    {
      if op.expected.Some? && op.expected != activeSnapshotId {
        return Err(ActiveSnapshotChanged);
      }
      var snapshot := Lookup(snapshots, op.snapshotId);
      if snapshot == None {
        return Err(UnknownSnapshot);
      }
      activeSnapshotId := Some(op.snapshotId);
      auditEvents := auditEvents + [RollbackEvent(op)];
      r := Ok(snapshot.value);
    }

    method CleanupRetiredSnapshots() returns (deleted: seq<string>)
      requires WellFormedRows(snapshots)
      modifies this
      ensures View() == MemoryNext(old(View()), Cleanup)
      ensures MemoryCall(old(View()), Cleanup).value.reply == Deleted(deleted)
    {
      var table: seq<Snapshot>;
      table, deleted := DropRetired(snapshots, activeSnapshotId, runBindings);
      snapshots := table;
    }
  }

  /** Every snapshot that is neither active nor referenced is deleted, whoever superseded it. */
  method DropRetired(rows: seq<Snapshot>, active: Option<string>, bindings: map<string, Binding>)
    returns (table: seq<Snapshot>, deleted: seq<string>)
    requires WellFormedRows(rows)
    ensures table == KeptRows(rows, InUse(active, bindings))
    ensures deleted == RetiredIds(rows, InUse(active, bindings))
  {
    var referenced := ReferencedSnapshots(bindings);
    ghost var keep := InUse(active, bindings);
    table, deleted := rows, [];
    DropStart(rows, keep);
    assert forall id :: id in keep <==> Some(id) == active || id in referenced;
    for i := 0 to |rows|
      invariant Dropped(rows, keep, i, table, deleted)
    {
      var id := rows[i].id;
      if Some(id) != active && id !in referenced {
        DropRow(rows, keep, i, table, deleted);
        table := WithoutRow(table, id);
        deleted := deleted + [id];
      } else {
        DropKept(rows, keep, i, table, deleted);
      }
    }
    DropDone(rows, keep, table, deleted);
  }
}
