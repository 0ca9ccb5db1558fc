/**
 The three volume reports: the general one, and one for each kind of backend.
 */
module Queries {
  import opened Tables
  import opened Operations
  import opened Interning
  import opened Watcher
  import opened Reconnect

  /** pod p, pod_mount pm, pvc, pv WHERE p.uid = pm.pod_uid AND pm.pvc_uid = pvc.uid AND pvc.pv_uid = pv.uid. */
  datatype Joined = Joined(pod: PodRow, mount: MountRow, pvc: PVCRow, pv: PVRow)

  /** The joined row of one mount. There is at most one, as the other tables are joined by their keys; NULL joins nothing. */
  function JoinMount(db: DB, m: MountRow): Option<Joined> {
    if m.podUid in db.pod && m.pvcUid.Some? && m.pvcUid.value in db.pvc then
      var pvc := db.pvc[m.pvcUid.value];
      if pvc.pvUid.Some? && pvc.pvUid.value in db.pv then
        Some(Joined(db.pod[m.podUid], m, pvc, db.pv[pvc.pvUid.value]))
      else None
    else None
  }

  datatype VolumeRow = VolumeRow(pod: string, container: string, claim: Option<string>, pv: string, kind: string)

  datatype NFSVolumeRow = NFSVolumeRow(pod: string, container: string, claim: Option<string>, pv: string, backend: NFSBackend)

  datatype ISCSIVolumeRow = ISCSIVolumeRow(pod: string, container: string, claim: Option<string>, pv: string, backend: ISCSIBackend)

  /** IF(pv.nfs_id != 0, 'NFS', IF(pv.iscsi_id != 0, 'ISCSI', 'Unknown')) */
  function KindOf(r: PVRow): string {
    if r.nfsId != 0 then "NFS" else if r.iscsiId != 0 then "ISCSI" else "Unknown"
  }

  function VolumeRowOf(j: Joined, kind: string): VolumeRow {
    VolumeRow(j.pod.name, j.mount.containerName, j.pvc.name, j.pv.name, kind)
  }

  function VolumesForMount(db: DB, m: MountRow): seq<VolumeRow> {
    match JoinMount(db, m)
    case Some(j) => [VolumeRowOf(j, KindOf(j.pv))]
    case None => []
  }

  function VolumesForMounts(db: DB, mounts: seq<MountRow>): seq<VolumeRow> {
    if mounts == [] then [] else
      VolumesForMounts(db, mounts[..|mounts| - 1]) + VolumesForMount(db, mounts[|mounts| - 1])
  }

  function VolumesForPods(db: DB): seq<VolumeRow> {
    VolumesForMounts(db, db.podMount)
  }

  /** ..., nfs n WHERE ... AND pv.nfs_id = n.id: a scan of the table for each joined row. */
  function NFSRowsFor(j: Joined, rows: seq<IdRow<NFSBackend>>): seq<NFSVolumeRow> {
    if rows == [] then [] else
      var rest, n := NFSRowsFor(j, rows[..|rows| - 1]), rows[|rows| - 1];
      if j.pv.nfsId == n.id then rest + [NFSVolumeRow(j.pod.name, j.mount.containerName, j.pvc.name, j.pv.name, n.key)] else rest
  }

  function NFSVolumesForMount(db: DB, m: MountRow): seq<NFSVolumeRow> {
    match JoinMount(db, m)
    case Some(j) => NFSRowsFor(j, db.nfs.rows)
    case None => []
  }

  function NFSVolumesForMounts(db: DB, mounts: seq<MountRow>): seq<NFSVolumeRow> {
    if mounts == [] then [] else
      NFSVolumesForMounts(db, mounts[..|mounts| - 1]) + NFSVolumesForMount(db, mounts[|mounts| - 1])
  }

  function NFSVolumesForPods(db: DB): seq<NFSVolumeRow> {
    NFSVolumesForMounts(db, db.podMount)
  }

  function ISCSIRowsFor(j: Joined, rows: seq<IdRow<ISCSIBackend>>): seq<ISCSIVolumeRow> {
    if rows == [] then [] else
      var rest, i := ISCSIRowsFor(j, rows[..|rows| - 1]), rows[|rows| - 1];
      if j.pv.iscsiId == i.id then rest + [ISCSIVolumeRow(j.pod.name, j.mount.containerName, j.pvc.name, j.pv.name, i.key)] else rest
  }

  function ISCSIVolumesForMount(db: DB, m: MountRow): seq<ISCSIVolumeRow> {
    match JoinMount(db, m)
    case Some(j) => ISCSIRowsFor(j, db.iscsi.rows)
    case None => []
  }

  function ISCSIVolumesForMounts(db: DB, mounts: seq<MountRow>): seq<ISCSIVolumeRow> {
    if mounts == [] then [] else
      ISCSIVolumesForMounts(db, mounts[..|mounts| - 1]) + ISCSIVolumesForMount(db, mounts[|mounts| - 1])
  }

  function ISCSIVolumesForPods(db: DB): seq<ISCSIVolumeRow> {
    ISCSIVolumesForMounts(db, db.podMount)
  }

  /** The columns that the reports share, and the kind. */
  function SharedNFS(rows: seq<NFSVolumeRow>): seq<VolumeRow> {
    seq(|rows|, i requires 0 <= i < |rows| => VolumeRow(rows[i].pod, rows[i].container, rows[i].claim, rows[i].pv, "NFS"))
  }

  function SharedISCSI(rows: seq<ISCSIVolumeRow>): seq<VolumeRow> {
    seq(|rows|, i requires 0 <= i < |rows| => VolumeRow(rows[i].pod, rows[i].container, rows[i].claim, rows[i].pv, "ISCSI"))
  }

  // ------------------------------------------------------------------ backends

  predicate HasId<K>(t: Ids<K>, id: nat) {
    exists i :: 0 <= i < |t.rows| && t.rows[i].id == id
  }

  /** Exactly one backend id is set, and it is that of a row. */
  predicate OneBackend(db: DB, r: PVRow) {
    || (r.nfsId > 0 && r.iscsiId == 0 && HasId(db.nfs, r.nfsId))
    || (r.nfsId == 0 && r.iscsiId > 0 && HasId(db.iscsi, r.iscsiId))
  }

  ghost predicate BackendsOk(db: DB) {
    && WellNumbered(db.nfs) && WellNumbered(db.iscsi)
    && forall u :: u in db.pv ==> OneBackend(db, db.pv[u])
  }

  /** The call gives a PV an id that the table of its backend has. */
  predicate GivesKnownId(db: DB, op: Op) {
    op.InsertPV? || op.UpdatePV? ==>
      op.backendId > 0 && (if op.backend.NFS? then HasId(db.nfs, op.backendId) else HasId(db.iscsi, op.backendId))
  }

  lemma IdsStay<K>(t: Ids<K>, key: K, lost: nat, id: nat)
    requires HasId(t, id)
    ensures HasId(Intern(t, key, lost), id)
  {
    var i :| 0 <= i < |t.rows| && t.rows[i].id == id;
    assert Intern(t, key, lost).rows[i] == t.rows[i];
  }

  lemma BackendsAfterIntern(db: DB, op: Op)
    requires BackendsOk(db) && (op.InsertNFS? || op.InsertISCSI?)
    ensures BackendsOk(Apply(db, op))
  {
    var db' := Apply(db, op);
    if op.InsertNFS? {
      InternKeepsNumbering(db.nfs, op.nfs, op.lost);
    } else {
      InternKeepsNumbering(db.iscsi, op.iscsi, op.lost);
    }
    forall u | u in db'.pv ensures OneBackend(db', db'.pv[u]) {
      assert OneBackend(db, db.pv[u]);
      if op.InsertNFS? && db.pv[u].nfsId > 0 {
        IdsStay(db.nfs, op.nfs, op.lost, db.pv[u].nfsId);
      } else if op.InsertISCSI? && db.pv[u].iscsiId > 0 {
        IdsStay(db.iscsi, op.iscsi, op.lost, db.pv[u].iscsiId);
      }
    }
  }

  lemma BackendsStep(db: DB, op: Op)
    requires BackendsOk(db) && GivesKnownId(db, op)
    ensures BackendsOk(Apply(db, op))
  {
    hide HasId, WellNumbered;
    if op.InsertNFS? || op.InsertISCSI? {
      BackendsAfterIntern(db, op);
    } else {
      var db' := Apply(db, op);
      forall u | u in db'.pv ensures OneBackend(db', db'.pv[u]) {
        assert u in db.pv ==> OneBackend(db, db.pv[u]);
      }
    }
  }

  /** Calls other than those that give a PV its backend keep every id. */
  lemma {:induction false} BackendsRun(db: DB, ops: seq<Op>)
    requires BackendsOk(db) && forall op :: op in ops ==> !op.InsertPV? && !op.UpdatePV?
    ensures BackendsOk(Run(db, ops))
  {
    if ops != [] {
      BackendsRun(db, ops[..|ops| - 1]);
      assert ops[|ops| - 1] in ops;
      BackendsStep(Run(db, ops[..|ops| - 1]), ops[|ops| - 1]);
    }
  }

  lemma InternedIdIsKnown(db: DB, p: PVResource, lost: nat)
    requires BackendsOk(db) && (p.nfs.Some? || p.iscsi.Some?)
    ensures BackendsOk(Run(db, InternOps(p, lost)))
    ensures var db', id := Run(db, InternOps(p, lost)), BackendId(db, p, lost);
      id > 0 && (if BackendOf(p).NFS? then HasId(db'.nfs, id) else HasId(db'.iscsi, id))
  {
    hide HasId, WellNumbered, Run, FindId;
    var op := InternOps(p, lost)[0];
    RunOne(db, op);
    BackendsAfterIntern(db, op);
    if p.nfs.Some? {
      InternKeepsNumbering(db.nfs, p.nfs.value, 0);
      KnownRow(Intern(db.nfs, p.nfs.value, 0), BackendId(db, p, lost), p.nfs.value);
    } else {
      InternKeepsNumbering(db.iscsi, p.iscsi.value, lost);
      KnownRow(Intern(db.iscsi, p.iscsi.value, lost), BackendId(db, p, lost), p.iscsi.value);
    }
  }

  lemma KnownRow<K>(t: Ids<K>, id: nat, key: K)
    requires WellNumbered(t) && IdRow(id, key) in t.rows
    ensures HasId(t, id) && id > 0
  {
  }

  /** A PV gets the id that was just interned for it; what follows does not touch backends. */
  lemma BackendGiven(db: DB, p: PVResource, lost: nat, op: Op, rest: seq<Op>)
    requires BackendsOk(db) && (p.nfs.Some? || p.iscsi.Some?)
    requires (op.InsertPV? || op.UpdatePV?) && op.backendId == BackendId(db, p, lost) && op.backend == BackendOf(p)
    requires forall o :: o in rest ==> !o.InsertPV? && !o.UpdatePV?
    ensures BackendsOk(Run(db, InternOps(p, lost) + [op] + rest))
  {
    hide BackendsOk, Apply, InternOps, BackendId, BackendOf;
    var intern := InternOps(p, lost);
    InternedIdIsKnown(db, p, lost);
    RunOne(Run(db, intern), op);
    BackendsStep(Run(db, intern), op);
    RunConcat(db, intern, [op]);
    BackendsRun(Run(db, intern + [op]), rest);
    RunConcat(db, intern + [op], rest);
  }

  lemma HandleBackends(db: DB, ns: string, e: Event, at: Moment)
    requires BackendsOk(db) && e.Usable()
    ensures BackendsOk(Handle(db, ns, e, at))
  {
    hide BackendsOk, Run, HasId;
    var ops := EventOps(db, ns, e, at);
    if e.PVEvent? && e.kind == Added {
      BackendGiven(db, e.pv, at.lost, ops[1], BindOps(e.pv, at.now));
      assert ops == InternOps(e.pv, at.lost) + [ops[1]] + BindOps(e.pv, at.now);
    } else if e.PVEvent? && e.kind == Modified && e.pv.phase == Available {
      BackendGiven(db, e.pv, at.lost, ops[1], []);
      assert ops == InternOps(e.pv, at.lost) + [ops[1]] + [];
    } else {
      BackendsRun(db, ops);
    }
  }

  /** In every state that any events lead to, each PV has exactly one backend id, and it is that of a row. */
  lemma {:induction false} BackendsAreOk(ns: string, trace: seq<Handled>)
    requires AllHandledUsable(trace)
    ensures BackendsOk(EventRun(EMPTY_DB, ns, trace))
  {
    if trace != [] {
      var front, last := trace[..|trace| - 1], trace[|trace| - 1];
      BackendsAreOk(ns, front);
      HandleBackends(EventRun(EMPTY_DB, ns, front), ns, last.event, last.at);
    }
  }

  // ------------------------------------------------------------------ the partition

  lemma {:induction false} NFSScan(j: Joined, rows: seq<IdRow<NFSBackend>>)
    requires forall a, b :: 0 <= a < b < |rows| ==> rows[a].id < rows[b].id
    ensures SharedNFS(NFSRowsFor(j, rows))
      == if exists i :: 0 <= i < |rows| && rows[i].id == j.pv.nfsId then [VolumeRowOf(j, "NFS")] else []
  {
    if rows != [] {
      var front := rows[..|rows| - 1];
      NFSScan(j, front);
      if i :| 0 <= i < |rows| && rows[i].id == j.pv.nfsId {
        assert i < |front| ==> front[i].id == j.pv.nfsId;
        assert i == |front| ==> !exists k :: 0 <= k < |front| && front[k].id == j.pv.nfsId;
      }
    }
  }

  lemma {:induction false} ISCSIScan(j: Joined, rows: seq<IdRow<ISCSIBackend>>)
    requires forall a, b :: 0 <= a < b < |rows| ==> rows[a].id < rows[b].id
    ensures SharedISCSI(ISCSIRowsFor(j, rows))
      == if exists i :: 0 <= i < |rows| && rows[i].id == j.pv.iscsiId then [VolumeRowOf(j, "ISCSI")] else []
  {
    if rows != [] {
      var front := rows[..|rows| - 1];
      ISCSIScan(j, front);
      if i :| 0 <= i < |rows| && rows[i].id == j.pv.iscsiId {
        assert i < |front| ==> front[i].id == j.pv.iscsiId;
        assert i == |front| ==> !exists k :: 0 <= k < |front| && front[k].id == j.pv.iscsiId;
      }
    }
  }

  /** One joined row is in exactly one of the two special reports. */
  lemma OneReport(db: DB, j: Joined)
    requires BackendsOk(db) && OneBackend(db, j.pv)
    ensures SharedNFS(NFSRowsFor(j, db.nfs.rows)) + SharedISCSI(ISCSIRowsFor(j, db.iscsi.rows)) == [VolumeRowOf(j, KindOf(j.pv))]
    ensures KindOf(j.pv) != "Unknown"
  {
    NFSScan(j, db.nfs.rows);
    ISCSIScan(j, db.iscsi.rows);
  }

  /** `all` is, as a bag, the union of the two special reports. */
  ghost predicate Splits(all: seq<VolumeRow>, nfs: seq<NFSVolumeRow>, iscsi: seq<ISCSIVolumeRow>) {
    multiset(all) == multiset(SharedNFS(nfs)) + multiset(SharedISCSI(iscsi))
  }

  lemma SplitsConcat(all: seq<VolumeRow>, nfs: seq<NFSVolumeRow>, iscsi: seq<ISCSIVolumeRow>,
                     all': seq<VolumeRow>, nfs': seq<NFSVolumeRow>, iscsi': seq<ISCSIVolumeRow>)
    requires Splits(all, nfs, iscsi) && Splits(all', nfs', iscsi')
    ensures Splits(all + all', nfs + nfs', iscsi + iscsi')
  {
    assert SharedNFS(nfs + nfs') == SharedNFS(nfs) + SharedNFS(nfs');
    assert SharedISCSI(iscsi + iscsi') == SharedISCSI(iscsi) + SharedISCSI(iscsi');
  }

  lemma MountPartition(db: DB, m: MountRow)
    requires BackendsOk(db)
    ensures Splits(VolumesForMount(db, m), NFSVolumesForMount(db, m), ISCSIVolumesForMount(db, m))
    ensures forall row :: row in VolumesForMount(db, m) ==> row.kind != "Unknown"
  {
    var join := JoinMount(db, m);
    if join.Some? {
      OneReport(db, join.value);
      var nfs, iscsi := SharedNFS(NFSVolumesForMount(db, m)), SharedISCSI(ISCSIVolumesForMount(db, m));
      assert multiset(nfs + iscsi) == multiset(nfs) + multiset(iscsi);
    }
  }

  lemma {:induction false} MountsPartition(db: DB, mounts: seq<MountRow>)
    requires BackendsOk(db)
    ensures Splits(VolumesForMounts(db, mounts), NFSVolumesForMounts(db, mounts), ISCSIVolumesForMounts(db, mounts))
    ensures forall row :: row in VolumesForMounts(db, mounts) ==> row.kind != "Unknown"
  {
    if mounts != [] {
      var front, m := mounts[..|mounts| - 1], mounts[|mounts| - 1];
      MountsPartition(db, front);
      MountPartition(db, m);
      SplitsConcat(VolumesForMounts(db, front), NFSVolumesForMounts(db, front), ISCSIVolumesForMounts(db, front),
                   VolumesForMount(db, m), NFSVolumesForMount(db, m), ISCSIVolumesForMount(db, m));
    }
  }

  /**
   Partition: whatever events were handled, the general report is, row for row, the disjoint union of the NFS
   report and the iSCSI report, and no row is of an unknown kind.
   */
  lemma ReportsPartition(ns: string, trace: seq<Handled>)
    requires AllHandledUsable(trace)
    ensures var db := EventRun(EMPTY_DB, ns, trace);
      && Splits(VolumesForPods(db), NFSVolumesForPods(db), ISCSIVolumesForPods(db))
      && forall row :: row in VolumesForPods(db) ==> row.kind != "Unknown"
  {
    BackendsAreOk(ns, trace);
    MountsPartition(EventRun(EMPTY_DB, ns, trace), EventRun(EMPTY_DB, ns, trace).podMount);
  }

  // ------------------------------------------------------------------ the rows of the reports

  /** The mount's pod, its claim and the claim's volume are all recorded, deleted or not. */
  function Complete(db: DB): MountRow -> bool {
    (m: MountRow) => m.podUid in db.pod && m.pvcUid.Some? && m.pvcUid.value in db.pvc
      && db.pvc[m.pvcUid.value].pvUid.Some? && db.pvc[m.pvcUid.value].pvUid.value in db.pv
  }

  /** The claim of such a mount, and its volume. */
  function ClaimOf(db: DB, m: MountRow): PVCRow
    requires Complete(db)(m)
  {
    db.pvc[m.pvcUid.value]
  }

  function VolumeOf(db: DB, m: MountRow): PVRow
    requires Complete(db)(m)
  {
    db.pv[db.pvc[m.pvcUid.value].pvUid.value]
  }

  ghost predicate Shows(db: DB, m: MountRow, pod: string, container: string, claim: Option<string>, pv: string) {
    && Complete(db)(m)
    && pod == db.pod[m.podUid].name && container == m.containerName
    && claim == ClaimOf(db, m).name && pv == VolumeOf(db, m).name
  }

  /** The row of the general report for a mount. */
  ghost predicate ShowsVolume(db: DB, m: MountRow, row: VolumeRow) {
    && Shows(db, m, row.pod, row.container, row.claim, row.pv)
    && (row.kind == "NFS" <==> VolumeOf(db, m).nfsId != 0)
    && (row.kind == "ISCSI" <==> VolumeOf(db, m).nfsId == 0 && VolumeOf(db, m).iscsiId != 0)
  }

  ghost predicate VolumesShown(db: DB, mounts: seq<MountRow>, rows: seq<VolumeRow>) {
    var complete := Filter(Complete(db), mounts);
    |rows| == |complete| && forall i :: 0 <= i < |rows| ==> ShowsVolume(db, complete[i], rows[i])
  }

  lemma {:induction false} MountsShown(db: DB, mounts: seq<MountRow>)
    ensures VolumesShown(db, mounts, VolumesForMounts(db, mounts))
  {
    if mounts != [] {
      MountsShown(db, mounts[..|mounts| - 1]);
      MountShown(db, mounts[|mounts| - 1]);
      hide ShowsVolume, VolumesForMount, Complete;
    }
  }

  lemma MountShown(db: DB, m: MountRow)
    ensures |VolumesForMount(db, m)| == if Complete(db)(m) then 1 else 0
    ensures Complete(db)(m) ==> ShowsVolume(db, m, VolumesForMount(db, m)[0])
  {
  }

  /**
   The general report, row by row: one row for each mount whose pod, claim and volume are recorded, in the order of the
   mounts, with their names; and no other.
   */
  lemma VolumesReport(db: DB)
    ensures VolumesShown(db, db.podMount, VolumesForPods(db))
  {
    MountsShown(db, db.podMount);
  }

  /** The mounts on volumes whose NFS id is that of a row. */
  function OnNFS(db: DB): MountRow -> bool {
    (m: MountRow) => Complete(db)(m) && HasId(db.nfs, VolumeOf(db, m).nfsId)
  }

  function OnISCSI(db: DB): MountRow -> bool {
    (m: MountRow) => Complete(db)(m) && HasId(db.iscsi, VolumeOf(db, m).iscsiId)
  }

  ghost predicate ShowsNFS(db: DB, m: MountRow, row: NFSVolumeRow) {
    Shows(db, m, row.pod, row.container, row.claim, row.pv) && IdRow(VolumeOf(db, m).nfsId, row.backend) in db.nfs.rows
  }

  ghost predicate ShowsISCSI(db: DB, m: MountRow, row: ISCSIVolumeRow) {
    Shows(db, m, row.pod, row.container, row.claim, row.pv) && IdRow(VolumeOf(db, m).iscsiId, row.backend) in db.iscsi.rows
  }

  ghost predicate NFSShown(db: DB, mounts: seq<MountRow>, rows: seq<NFSVolumeRow>) {
    var on := Filter(OnNFS(db), mounts);
    |rows| == |on| && forall i :: 0 <= i < |rows| ==> ShowsNFS(db, on[i], rows[i])
  }

  ghost predicate ISCSIShown(db: DB, mounts: seq<MountRow>, rows: seq<ISCSIVolumeRow>) {
    var on := Filter(OnISCSI(db), mounts);
    |rows| == |on| && forall i :: 0 <= i < |rows| ==> ShowsISCSI(db, on[i], rows[i])
  }

  lemma {:induction false} NFSScanKeys(j: Joined, rows: seq<IdRow<NFSBackend>>)
    ensures forall row :: row in NFSRowsFor(j, rows) ==>
      IdRow(j.pv.nfsId, row.backend) in rows && row == NFSVolumeRow(j.pod.name, j.mount.containerName, j.pvc.name, j.pv.name, row.backend)
  {
    if rows != [] {
      NFSScanKeys(j, rows[..|rows| - 1]);
      assert rows == rows[..|rows| - 1] + [rows[|rows| - 1]];
    }
  }

  lemma {:induction false} ISCSIScanKeys(j: Joined, rows: seq<IdRow<ISCSIBackend>>)
    ensures forall row :: row in ISCSIRowsFor(j, rows) ==>
      IdRow(j.pv.iscsiId, row.backend) in rows && row == ISCSIVolumeRow(j.pod.name, j.mount.containerName, j.pvc.name, j.pv.name, row.backend)
  {
    if rows != [] {
      ISCSIScanKeys(j, rows[..|rows| - 1]);
      assert rows == rows[..|rows| - 1] + [rows[|rows| - 1]];
    }
  }

  lemma NFSMountShown(db: DB, m: MountRow)
    requires WellNumbered(db.nfs)
    ensures |NFSVolumesForMount(db, m)| == if OnNFS(db)(m) then 1 else 0
    ensures OnNFS(db)(m) ==> ShowsNFS(db, m, NFSVolumesForMount(db, m)[0])
  {
    var join := JoinMount(db, m);
    assert join.Some? <==> Complete(db)(m);
    if join.Some? {
      NFSScan(join.value, db.nfs.rows);
      NFSScanKeys(join.value, db.nfs.rows);
      assert VolumeOf(db, m) == join.value.pv;
      assert HasId(db.nfs, join.value.pv.nfsId) <==> exists i :: 0 <= i < |db.nfs.rows| && db.nfs.rows[i].id == join.value.pv.nfsId;
      assert |SharedNFS(NFSRowsFor(join.value, db.nfs.rows))| == |NFSRowsFor(join.value, db.nfs.rows)|;
    }
  }

  lemma ISCSIMountShown(db: DB, m: MountRow)
    requires WellNumbered(db.iscsi)
    ensures |ISCSIVolumesForMount(db, m)| == if OnISCSI(db)(m) then 1 else 0
    ensures OnISCSI(db)(m) ==> ShowsISCSI(db, m, ISCSIVolumesForMount(db, m)[0])
  {
    var join := JoinMount(db, m);
    assert join.Some? <==> Complete(db)(m);
    if join.Some? {
      ISCSIScan(join.value, db.iscsi.rows);
      ISCSIScanKeys(join.value, db.iscsi.rows);
      assert VolumeOf(db, m) == join.value.pv;
      assert HasId(db.iscsi, join.value.pv.iscsiId) <==> exists i :: 0 <= i < |db.iscsi.rows| && db.iscsi.rows[i].id == join.value.pv.iscsiId;
      assert |SharedISCSI(ISCSIRowsFor(join.value, db.iscsi.rows))| == |ISCSIRowsFor(join.value, db.iscsi.rows)|;
    }
  }

  lemma {:induction false} NFSMountsShown(db: DB, mounts: seq<MountRow>)
    requires WellNumbered(db.nfs)
    ensures NFSShown(db, mounts, NFSVolumesForMounts(db, mounts))
  {
    if mounts != [] {
      var front, m := mounts[..|mounts| - 1], mounts[|mounts| - 1];
      NFSMountsShown(db, front);
      NFSMountShown(db, m);
      hide ShowsNFS, NFSVolumesForMount, OnNFS, WellNumbered, HasId;
      assert NFSVolumesForMounts(db, mounts) == NFSVolumesForMounts(db, front) + NFSVolumesForMount(db, m);
      assert Filter(OnNFS(db), mounts) == Filter(OnNFS(db), front) + if OnNFS(db)(m) then [m] else [];
    }
  }

  lemma {:induction false} ISCSIMountsShown(db: DB, mounts: seq<MountRow>)
    requires WellNumbered(db.iscsi)
    ensures ISCSIShown(db, mounts, ISCSIVolumesForMounts(db, mounts))
  {
    if mounts != [] {
      var front, m := mounts[..|mounts| - 1], mounts[|mounts| - 1];
      ISCSIMountsShown(db, front);
      ISCSIMountShown(db, m);
      hide ShowsISCSI, ISCSIVolumesForMount, OnISCSI, WellNumbered, HasId;
      assert ISCSIVolumesForMounts(db, mounts) == ISCSIVolumesForMounts(db, front) + ISCSIVolumesForMount(db, m);
      assert Filter(OnISCSI(db), mounts) == Filter(OnISCSI(db), front) + if OnISCSI(db)(m) then [m] else [];
    }
  }

  /**
   The two special reports, row by row, in every state that events lead to: one row for each complete mount whose
   volume has a backend of that kind, in order, with the names and the very backend that the volume's id stands for.
   */
  lemma BackendReports(ns: string, trace: seq<Handled>)
    requires AllHandledUsable(trace)
    ensures var db := EventRun(EMPTY_DB, ns, trace);
      NFSShown(db, db.podMount, NFSVolumesForPods(db)) && ISCSIShown(db, db.podMount, ISCSIVolumesForPods(db))
  {
    BackendsAreOk(ns, trace);
    var db := EventRun(EMPTY_DB, ns, trace);
    NFSMountsShown(db, db.podMount);
    ISCSIMountsShown(db, db.podMount);
  }
}
