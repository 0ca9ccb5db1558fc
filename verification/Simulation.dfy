/**
 The mock manager against the tables: on well-formed calls its maps are the live part of the tables, although it
 erases what the tables keep with a delete time.
 */
module Simulation {
  import opened Tables
  import opened Operations
  import opened Invariants
  import opened Interning
  import opened Mock

  function LivePods(db: DB): set<UID> { set u | u in db.pod && db.pod[u].deleteTime.None? }

  function DeadPods(db: DB): set<UID> { set u | u in db.pod && db.pod[u].deleteTime.Some? }

  function LivePVs(db: DB): set<UID> { set u | u in db.pv && db.pv[u].deleteTime.None? }

  function DeadPVs(db: DB): set<UID> { set u | u in db.pv && db.pv[u].deleteTime.Some? }

  function LiveClaims(db: DB): set<UID> { set u | u in db.pvc && db.pvc[u].createTime.Some? && db.pvc[u].deleteTime.None? }

  function DeadClaims(db: DB): set<UID> { set u | u in db.pvc && db.pvc[u].deleteTime.Some? }

  ghost predicate SamePod(db: DB, uid: UID, a: PodAttrs)
    requires uid in db.pod
  {
    var r := db.pod[uid];
    && r.name == a.name && r.createTime == a.createTime && r.namespace == a.namespace
    && RecordsContainers(Filter(ContainerOf(uid), db.container), uid, a.containers)
  }

  predicate SamePV(r: PVRow, a: PVAttrs) {
    r.name == a.name && r.createTime == a.createTime && r.nfsId == a.nfsId && r.iscsiId == a.iscsiId && r.storage == a.storage
  }

  predicate SameClaimAttrs(r: PVCRow, a: PVCAttrs) {
    r.name == Some(a.name) && r.createTime == Some(a.createTime) && r.namespace == Some(a.namespace) && r.storage == Some(a.storage)
  }

  ghost predicate SimPods(db: DB, m: MockState) {
    && m.pods.Keys == LivePods(db)
    && (forall u :: u in m.pods ==> SamePod(db, u, m.pods[u]))
    && (forall c :: c in db.container ==> c.podUid in db.pod)
  }

  ghost predicate SimPVs(db: DB, m: MockState) {
    && m.pvs.Keys == LivePVs(db)
    && (forall u :: u in m.pvs ==> SamePV(db.pv[u], m.pvs[u]))
  }

  ghost predicate SimClaims(db: DB, m: MockState) {
    && m.pvcs.Keys == LiveClaims(db)
    && (forall u :: u in m.pvcs ==> SameClaimAttrs(db.pvc[u], m.pvcs[u]))
  }

  ghost predicate SimIds(db: DB, m: MockState) {
    SameIds(db.nfs, m.nfsIds, m.lastNfsId) && SameIds(db.iscsi, m.iscsiIds, m.lastIscsiId)
  }

  predicate SimDeletions(db: DB, m: MockState) {
    m.deletions == |DeadPods(db)| + |DeadPVs(db)| + |DeadClaims(db)|
  }

  ghost predicate Sim(db: DB, m: MockState) {
    SimPods(db, m) && SimPVs(db, m) && SimClaims(db, m) && SimIds(db, m) && SimDeletions(db, m)
  }

  /** The life of an object in one call: inserted once, updated and deleted only while it exists; no id is lost. */
  predicate WellFormed(db: DB, op: Op) {
    match op
    case InsertPod(uid, _, _, _, _, _, _, _) => uid !in db.pod
    case DeletePod(uid, _, _, _) => uid in LivePods(db)
    case InsertPVC(uid, _, _, _, _, _, _, _, _) => uid in db.pvc ==> db.pvc[uid].createTime.None? && db.pvc[uid].deleteTime.None?
    case UpdatePVC(uid, _, _, _, _, _) => uid in LiveClaims(db)
    case DeletePVC(uid, _, _, _) => uid in LiveClaims(db)
    case InsertPV(uid, _, _, _, _, _, _, _, _) => uid !in db.pv
    case UpdatePV(uid, _, _, _, _, _, _) => uid in LivePVs(db)
    case DeletePV(uid, _, _) => uid in LivePVs(db)
    case BindPVC(_, _, _, _) => true
    case InsertNFS(_, lost) => lost == 0
    case InsertISCSI(_, lost) => lost == 0
  }

  ghost predicate WellFormedRun(ops: seq<Op>) {
    forall i :: 0 <= i < |ops| ==> WellFormed(Run(EMPTY_DB, ops[..i]), ops[i])
  }

  predicate OnPV(op: Op) {
    op.InsertPV? || op.UpdatePV? || op.DeletePV?
  }

  predicate OnClaimRow(op: Op) {
    op.OnClaim() || op.BindPVC?
  }

  /** The tables that a call does not touch. */
  lemma Untouched(db: DB, op: Op)
    ensures !op.OnPod() ==> Apply(db, op).pod == db.pod && Apply(db, op).container == db.container
    ensures !OnClaimRow(op) ==> Apply(db, op).pvc == db.pvc
    ensures !OnPV(op) ==> Apply(db, op).pv == db.pv
    ensures !op.InsertNFS? ==> Apply(db, op).nfs == db.nfs
    ensures !op.InsertISCSI? ==> Apply(db, op).iscsi == db.iscsi
  {
  }

  lemma MockUntouched(m: MockState, op: Op)
    requires Accepts(m, op)
    ensures !op.OnPod() ==> MockApply(m, op).pods == m.pods
    ensures !OnClaimRow(op) ==> MockApply(m, op).pvcs == m.pvcs
    ensures !OnPV(op) ==> MockApply(m, op).pvs == m.pvs
    ensures !op.InsertNFS? ==> MockApply(m, op).nfsIds == m.nfsIds && MockApply(m, op).lastNfsId == m.lastNfsId
    ensures !op.InsertISCSI? ==> MockApply(m, op).iscsiIds == m.iscsiIds && MockApply(m, op).lastIscsiId == m.lastIscsiId
  {
  }

  lemma PodLives(db: DB, op: Op)
    requires WellFormed(db, op) && op.OnPod()
    ensures op.InsertPod? ==> LivePods(Apply(db, op)) == LivePods(db) + {op.uid} && DeadPods(Apply(db, op)) == DeadPods(db)
    ensures op.DeletePod? ==> LivePods(Apply(db, op)) == LivePods(db) - {op.uid} && op.uid !in DeadPods(db)
    ensures op.DeletePod? ==> DeadPods(Apply(db, op)) == DeadPods(db) + {op.uid}
  {
  }

  lemma PVLives(db: DB, op: Op)
    requires WellFormed(db, op) && OnPV(op)
    ensures op.InsertPV? ==> LivePVs(Apply(db, op)) == LivePVs(db) + {op.uid} && DeadPVs(Apply(db, op)) == DeadPVs(db)
    ensures op.UpdatePV? ==> LivePVs(Apply(db, op)) == LivePVs(db) && DeadPVs(Apply(db, op)) == DeadPVs(db)
    ensures op.DeletePV? ==> LivePVs(Apply(db, op)) == LivePVs(db) - {op.uid} && op.uid !in DeadPVs(db)
    ensures op.DeletePV? ==> DeadPVs(Apply(db, op)) == DeadPVs(db) + {op.uid}
  {
  }

  predicate IsLive(r: PVCRow) { r.createTime.Some? && r.deleteTime.None? }

  /** One row written, what becomes of the live and the deleted claims. */
  lemma ClaimWritten(db: DB, db': DB, u: UID, r: PVCRow)
    requires db'.pvc == db.pvc[u := r]
    ensures LiveClaims(db') == if IsLive(r) then LiveClaims(db) + {u} else LiveClaims(db) - {u}
    ensures DeadClaims(db') == if r.deleteTime.Some? then DeadClaims(db) + {u} else DeadClaims(db) - {u}
  {
  }

  /** A call on a claim writes its row, and nothing else of the table. */
  lemma ClaimRowAfter(db: DB, op: Op)
    requires OnClaimRow(op) && (op.UpdatePVC? || op.DeletePVC? ==> op.uid in db.pvc)
    ensures op.uid in Apply(db, op).pvc && Apply(db, op).pvc == db.pvc[op.uid := Apply(db, op).pvc[op.uid]]
    ensures var prev, r := Lookup(db.pvc, op.uid), Apply(db, op).pvc[op.uid];
      && r.createTime == (if op.InsertPVC? then Some(op.createTime) else if prev.Some? then prev.value.createTime else None)
      && r.deleteTime == (if op.DeletePVC? then Some(op.deleteTime) else if prev.Some? then prev.value.deleteTime else None)
  {
  }

  lemma ClaimLives(db: DB, op: Op)
    requires WellFormed(db, op) && OnClaimRow(op)
    ensures op.InsertPVC? ==> LiveClaims(Apply(db, op)) == LiveClaims(db) + {op.uid} && DeadClaims(Apply(db, op)) == DeadClaims(db)
    ensures op.UpdatePVC? || op.BindPVC? ==> LiveClaims(Apply(db, op)) == LiveClaims(db) && DeadClaims(Apply(db, op)) == DeadClaims(db)
    ensures op.DeletePVC? ==> LiveClaims(Apply(db, op)) == LiveClaims(db) - {op.uid} && op.uid !in DeadClaims(db)
    ensures op.DeletePVC? ==> DeadClaims(Apply(db, op)) == DeadClaims(db) + {op.uid}
  {
    hide Apply;
    ClaimRowAfter(db, op);
    ClaimWritten(db, Apply(db, op), op.uid, Apply(db, op).pvc[op.uid]);
  }

  /** The mock's count goes up exactly when a row of the tables gets its delete time. */
  lemma SimDeletionStep(db: DB, m: MockState, op: Op)
    requires SimDeletions(db, m) && WellFormed(db, op) && Accepts(m, op)
    ensures SimDeletions(Apply(db, op), MockApply(m, op))
  {
    var db' := Apply(db, op);
    Untouched(db, op);
    assert !op.OnPod() ==> DeadPods(db') == DeadPods(db);
    assert !OnPV(op) ==> DeadPVs(db') == DeadPVs(db);
    assert !OnClaimRow(op) ==> DeadClaims(db') == DeadClaims(db);
    if op.OnPod() {
      PodLives(db, op);
    } else if OnPV(op) {
      PVLives(db, op);
    } else if OnClaimRow(op) {
      ClaimLives(db, op);
    }
  }

  lemma ContainersAfterInsert(rows: seq<ContainerRow>, added: UID, cs: seq<ContainerDesc>, pod: UID)
    requires forall c :: c in rows ==> c.podUid != added
    ensures Filter(ContainerOf(pod), rows + ContainerRows(added, cs))
      == if pod == added then ContainerRows(added, cs) else Filter(ContainerOf(pod), rows)
  {
    FilterContainers(rows, added, cs, pod);
    FilterAll(ContainerOf(added), rows);
  }

  lemma SimPodInsert(db: DB, m: MockState, op: Op, u: UID)
    requires SimPods(db, m) && WellFormed(db, op) && op.InsertPod?
    requires u in m.pods || u == op.uid
    ensures SamePod(Apply(db, op), u, MockApply(m, op).pods[u])
  {
    hide Filter, ContainerRows;
    ContainersAfterInsert(db.container, op.uid, op.containers, u);
    assert Apply(db, op).container == db.container + ContainerRows(op.uid, op.containers);
    if u != op.uid {
      assert SamePod(db, u, m.pods[u]);
    }
  }

  lemma SimPodStep(db: DB, m: MockState, op: Op)
    requires SimPods(db, m) && WellFormed(db, op) && op.OnPod()
    ensures SimPods(Apply(db, op), MockApply(m, op))
  {
    var db', m' := Apply(db, op), MockApply(m, op);
    PodLives(db, op);
    forall u | u in m'.pods ensures SamePod(db', u, m'.pods[u]) {
      if op.InsertPod? {
        SimPodInsert(db, m, op, u);
      } else {
        assert SamePod(db, u, m.pods[u]);
      }
    }
  }

  lemma SimClaimStep(db: DB, m: MockState, op: Op)
    requires SimClaims(db, m) && WellFormed(db, op) && OnClaimRow(op)
    ensures Accepts(m, op) && SimClaims(Apply(db, op), MockApply(m, op))
  {
    ClaimLives(db, op);
  }

  lemma SimPVStep(db: DB, m: MockState, op: Op)
    requires SimPVs(db, m) && WellFormed(db, op) && OnPV(op)
    ensures Accepts(m, op) && SimPVs(Apply(db, op), MockApply(m, op))
  {
    PVLives(db, op);
  }

  /** Interning in either store gives the same id and keeps the stores in step. */
  lemma SimIdStep(db: DB, m: MockState, op: Op)
    requires SimIds(db, m) && (op.InsertNFS? || op.InsertISCSI?) && op.lost == 0
    ensures SimIds(Apply(db, op), MockApply(m, op))
    ensures op.InsertNFS? ==> InternedId(db.nfs, op.nfs, 0) == MockApply(m, op).nfsIds[op.nfs]
    ensures op.InsertISCSI? ==> InternedId(db.iscsi, op.iscsi, 0) == MockApply(m, op).iscsiIds[op.iscsi]
  {
    if op.InsertNFS? {
      InternSimulates(db.nfs, m.nfsIds, m.lastNfsId, op.nfs);
    } else {
      InternSimulates(db.iscsi, m.iscsiIds, m.lastIscsiId, op.iscsi);
    }
  }

  lemma SimStep(db: DB, m: MockState, op: Op)
    requires Sim(db, m) && WellFormed(db, op)
    ensures Accepts(m, op) && Sim(Apply(db, op), MockApply(m, op))
  {
    hide Apply, MockApply;
    Untouched(db, op);
    MockUntouched(m, op);
    if op.OnPod() {
      SimPodStep(db, m, op);
    } else if OnClaimRow(op) {
      SimClaimStep(db, m, op);
    } else if OnPV(op) {
      SimPVStep(db, m, op);
    } else {
      SimIdStep(db, m, op);
    }
    SimDeletionStep(db, m, op);
  }

  lemma WellFormedFront(ops: seq<Op>)
    requires WellFormedRun(ops) && ops != []
    ensures WellFormedRun(ops[..|ops| - 1]) && WellFormed(Run(EMPTY_DB, ops[..|ops| - 1]), ops[|ops| - 1])
  {
    hide WellFormed, Run;
    var front := ops[..|ops| - 1];
    assert forall i :: 0 <= i < |front| ==> front[i] == ops[i] && front[..i] == ops[..i];
  }

  /** The mock never panics during these calls. */
  ghost predicate NeverPanics(ops: seq<Op>) {
    forall i :: 0 <= i < |ops| ==> Accepts(MockRun(ops[..i]), ops[i])
  }

  lemma PanicsNeither(ops: seq<Op>, op: Op)
    requires NeverPanics(ops) && Accepts(MockRun(ops), op)
    ensures NeverPanics(ops + [op])
  {
    hide Accepts, MockRun;
    var all := ops + [op];
    forall i | 0 <= i < |all| ensures Accepts(MockRun(all[..i]), all[i]) {
      assert all[..i] == ops[..i];
      assert i == |ops| ==> ops[..i] == ops;
    }
  }

  /**
   Simulation: after any well-formed calls the mock, which never panicked, holds exactly the live objects of the
   tables with their attributes, containers and backend ids, and has counted the deleted ones.
   */
  lemma {:induction false} MockSimulatesTables(ops: seq<Op>)
    requires WellFormedRun(ops)
    ensures Sim(Run(EMPTY_DB, ops), MockRun(ops))
    ensures NeverPanics(ops)
  {
    if ops != [] {
      hide Sim, WellFormed, WellFormedRun, NeverPanics, Accepts, Apply, MockApply;
      var front, op := ops[..|ops| - 1], ops[|ops| - 1];
      WellFormedFront(ops);
      MockSimulatesTables(front);
      SimStep(Run(EMPTY_DB, front), MockRun(front), op);
      PanicsNeither(front, op);
      assert front + [op] == ops;
    }
  }
}
