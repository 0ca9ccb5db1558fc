/**
 The calls of the database manager, each the effect of one committed transaction, and runs of them.
 */
module Operations {
  import opened Tables
  import opened Matching

  /** The table that a PV's backend id points into. */
  datatype Backend = NFS | ISCSI

  datatype Op =
    | InsertPod(uid: UID, name: string, createTime: Time, namespace: string, containers: seq<ContainerDesc>,
                json: string, watcherNS: string, rv: RV)
    | DeletePod(uid: UID, deleteTime: Time, watcherNS: string, rv: RV)
    | InsertPVC(uid: UID, name: string, createTime: Time, namespace: string, storage: int, accessModes: string,
                json: string, watcherNS: string, rv: RV)
    | UpdatePVC(uid: UID, storage: int, accessModes: string, json: string, watcherNS: string, rv: RV)
    | DeletePVC(uid: UID, deleteTime: Time, watcherNS: string, rv: RV)
    | InsertPV(uid: UID, name: string, createTime: Time, backendId: nat, backend: Backend, storage: int,
               accessModes: string, json: string, rv: RV)
    | UpdatePV(uid: UID, backendId: nat, backend: Backend, storage: int, accessModes: string, json: string, rv: RV)
    | DeletePV(uid: UID, deleteTime: Time, rv: RV)
    | BindPVC(pvUid: UID, uid: UID, bindTime: Time, rv: RV)
    // `lost` ids were used up by attempts that were rolled back: AUTO_INCREMENT is not.
    | InsertNFS(nfs: NFSBackend, lost: nat)
    | InsertISCSI(iscsi: ISCSIBackend, lost: nat)
  {
    predicate OnPod() { InsertPod? || DeletePod? }

    predicate OnClaim() { InsertPVC? || UpdatePVC? || DeletePVC? }

    predicate OnVolume() { !OnPod() && !OnClaim() }
  }

  /** The error numbers that the transaction wrapper tells apart. */
  datatype Error = DuplicateKey | Deadlock | OtherError

  datatype TxResult = Done(db: DB) | Failed(error: Error)

  // ------------------------------------------------------------------ the statements

  function ContainerRows(pod: UID, cs: seq<ContainerDesc>): (r: seq<ContainerRow>)
    ensures |r| == |cs|
    ensures forall i :: 0 <= i < |r| ==> r[i] == ContainerRow(pod, cs[i].name, cs[i].image, cs[i].command)
  {
    seq(|cs|, i requires 0 <= i < |cs| => ContainerRow(pod, cs[i].name, cs[i].image, cs[i].command))
  }

  /** INSERT INTO pvc ... ON DUPLICATE KEY UPDATE: the columns that belong to the claim itself. */
  function UpsertClaim(prev: Option<PVCRow>, op: Op): PVCRow
    requires op.InsertPVC?
  {
    (if prev.Some? then prev.value else EMPTY_CLAIM).(
      name := Some(op.name), createTime := Some(op.createTime), namespace := Some(op.namespace),
      storage := Some(op.storage), accessModes := Some(op.accessModes), json := Some(op.json))
  }

  /** INSERT INTO pvc (uid, pv_uid, bind_time) ... ON DUPLICATE KEY UPDATE. */
  function UpsertBind(prev: Option<PVCRow>, pv: UID, bindTime: Time): PVCRow {
    (if prev.Some? then prev.value else EMPTY_CLAIM).(pvUid := Some(pv), bindTime := Some(bindTime))
  }

  /** UPDATE pvc SET storage, access_modes, json WHERE uid. */
  function UpdateClaim(prev: PVCRow, op: Op): PVCRow
    requires op.UpdatePVC?
  {
    prev.(storage := Some(op.storage), accessModes := Some(op.accessModes), json := Some(op.json))
  }

  predicate LivePod(pod: map<UID, PodRow>, uid: UID) {
    uid in pod && pod[uid].deleteTime.None?
  }

  /** The effect of the late-claim update on one mount: it fits when the name does and the pod is not deleted. */
  function Repoint(m: MountRow, pod: map<UID, PodRow>, claim: UID, name: string): MountRow {
    if m.pvcName == name && LivePod(pod, m.podUid) then m.(pvcUid := Some(claim)) else m
  }

  /** UPDATE pod_mount m, pod p SET m.pvc_uid WHERE m.pvc_name LIKE ? AND ... p.delete_time IS NULL. */
  function AttachClaim(mounts: seq<MountRow>, pod: map<UID, PodRow>, claim: UID, name: string): (r: seq<MountRow>)
    ensures |r| == |mounts|
    ensures forall i :: 0 <= i < |r| ==> r[i] == Repoint(mounts[i], pod, claim, name)
  {
    seq(|mounts|, i requires 0 <= i < |mounts| => Repoint(mounts[i], pod, claim, name))
  }

  /** pod_uid = ? AND pvc_uid IN (SELECT uid FROM pvc WHERE create_time > ?). */
  predicate IsBadMount(pvc: map<UID, PVCRow>, pod: UID, deleteTime: Time, m: MountRow) {
    && m.podUid == pod && m.pvcUid.Some? && m.pvcUid.value in pvc
    && pvc[m.pvcUid.value].createTime.Some? && pvc[m.pvcUid.value].createTime.value > deleteTime
  }

  function GoodMount(pvc: map<UID, PVCRow>, pod: UID, deleteTime: Time): MountRow -> bool {
    (m: MountRow) => !IsBadMount(pvc, pod, deleteTime, m)
  }

  function MountOf(pod: UID): MountRow -> bool {
    (m: MountRow) => m.podUid == pod
  }

  function MountNotOf(pod: UID): MountRow -> bool {
    (m: MountRow) => m.podUid != pod
  }

  /** The two-phase clean-up: delete the bad rows and, if there were any, every row of the pod. */
  function CleanMounts(mounts: seq<MountRow>, pvc: map<UID, PVCRow>, pod: UID, deleteTime: Time): seq<MountRow> {
    var good := Filter(GoodMount(pvc, pod, deleteTime), mounts);
    if |mounts| - |good| > 0 then Filter(MountNotOf(pod), good) else good
  }

  function NfsId(backend: Backend, id: nat): nat { if backend.NFS? then id else 0 }

  function IscsiId(backend: Backend, id: nat): nat { if backend.ISCSI? then id else 0 }

  /** SELECT id FROM ... WHERE all columns match: the first row found. */
  function FindId<K(==)>(rows: seq<IdRow<K>>, key: K): Option<nat> {
    if rows == [] then None
    else if rows[0].key == key then Some(rows[0].id)
    else FindId(rows[1..], key)
  }

  /** Look the backend up and insert it when it is not there. */
  function Intern<K(==)>(t: Ids<K>, key: K, lost: nat): Ids<K> {
    if FindId(t.rows, key).Some? then t else
      var id := t.last + lost + 1;
      Ids(t.rows + [IdRow(id, key)], id)
  }

  /** The id that interning returns. */
  function InternedId<K(==)>(t: Ids<K>, key: K, lost: nat): nat {
    match FindId(t.rows, key)
    case Some(id) => id
    case None => t.last + lost + 1
  }

  lemma {:induction false} FindInConcat<K>(a: seq<IdRow<K>>, b: seq<IdRow<K>>, key: K)
    ensures FindId(a + b, key) == if FindId(a, key).Some? then FindId(a, key) else FindId(b, key)
  {
    if a == [] {
      assert a + b == b;
    } else {
      assert (a + b)[1..] == a[1..] + b;
      FindInConcat(a[1..], b, key);
    }
  }

  /** The row that interning leaves behind is found under the id that it returned. */
  lemma FindAppended<K>(t: Ids<K>, key: K, lost: nat)
    ensures FindId(Intern(t, key, lost).rows, key) == Some(InternedId(t, key, lost))
  {
    FindInConcat(t.rows, [IdRow(t.last + lost + 1, key)], key);
  }

  // ------------------------------------------------------------------ the transactions

  /** The pod's row, one row per container, and the rows of its mounts. */
  function WithPod(db: DB, uid: UID, row: PodRow, cs: seq<ContainerDesc>): DB {
    db.(pod := db.pod[uid := row],
        container := db.container + ContainerRows(uid, cs),
        podMount := db.podMount + RowsForPod(db.pvc, uid, cs, row.createTime))
  }

  /** One uninterrupted attempt at the transaction of a call. */
  function Body(db: DB, op: Op): TxResult {
    match op
    case InsertPod(uid, name, t, ns, cs, json, watcherNS, rv) =>
      if uid in db.pod then Failed(DuplicateKey) else
        Done(WithPod(db, uid, PodRow(name, t, None, ns, json), cs).(rv := db.rv[RVKey(Pods, watcherNS) := rv]))
    case DeletePod(uid, t, watcherNS, rv) =>
      Done(db.(pod := if uid in db.pod then db.pod[uid := db.pod[uid].(deleteTime := Some(t))] else db.pod,
               podMount := CleanMounts(db.podMount, db.pvc, uid, t),
               rv := db.rv[RVKey(Pods, watcherNS) := rv]))
    case InsertPVC(uid, name, t, ns, storage, modes, json, watcherNS, rv) =>
      Done(db.(pvc := db.pvc[uid := UpsertClaim(Lookup(db.pvc, uid), op)],
               podMount := AttachClaim(db.podMount, db.pod, uid, name),
               rv := db.rv[RVKey(PVCs, watcherNS) := rv]))
    case UpdatePVC(uid, storage, modes, json, watcherNS, rv) =>
      Done(db.(pvc := if uid in db.pvc then db.pvc[uid := UpdateClaim(db.pvc[uid], op)] else db.pvc,
               rv := db.rv[RVKey(PVCs, watcherNS) := rv]))
    case DeletePVC(uid, t, watcherNS, rv) =>
      Done(db.(pvc := if uid in db.pvc then db.pvc[uid := db.pvc[uid].(deleteTime := Some(t))] else db.pvc,
               rv := db.rv[RVKey(PVCs, watcherNS) := rv]))
    case InsertPV(uid, name, t, id, backend, storage, modes, json, rv) =>
      if uid in db.pv then Failed(DuplicateKey) else
        Done(db.(pv := db.pv[uid := PVRow(name, t, None, storage, modes, json, NfsId(backend, id), IscsiId(backend, id))],
                 rv := db.rv[RVKey(PVs, PV_NAMESPACE) := rv]))
    case UpdatePV(uid, id, backend, storage, modes, json, rv) =>
      Done(db.(pv := if uid in db.pv then db.pv[uid := db.pv[uid].(nfsId := NfsId(backend, id),
                       iscsiId := IscsiId(backend, id), storage := storage, accessModes := modes, json := json)]
                     else db.pv,
               rv := db.rv[RVKey(PVs, PV_NAMESPACE) := rv]))
    case DeletePV(uid, t, rv) =>
      Done(db.(pv := if uid in db.pv then db.pv[uid := db.pv[uid].(deleteTime := Some(t))] else db.pv,
               rv := db.rv[RVKey(PVs, PV_NAMESPACE) := rv]))
    case BindPVC(pvUid, uid, t, rv) =>
      // A row that already holds these values counts as zero rows affected, which is an error here.
      var row := UpsertBind(Lookup(db.pvc, uid), pvUid, t);
      if Lookup(db.pvc, uid) == Some(row) then Failed(OtherError) else
        Done(db.(pvc := db.pvc[uid := row], rv := db.rv[RVKey(PVs, PV_NAMESPACE) := rv]))
    case InsertNFS(key, lost) => Done(db.(nfs := Intern(db.nfs, key, lost)))
    case InsertISCSI(key, lost) => Done(db.(iscsi := Intern(db.iscsi, key, lost)))
  }

  /** The bind is recorded already, to the microsecond. */
  predicate RepeatsBind(pvc: map<UID, PVCRow>, op: Op) {
    && op.BindPVC? && op.uid in pvc
    && pvc[op.uid].pvUid == Some(op.pvUid) && pvc[op.uid].bindTime == Some(op.bindTime)
  }

  /** Exactly such a bind fails on tables that nobody else disturbs, and with an error that is not absorbed. */
  lemma BlockedIff(db: DB, op: Op)
    ensures Body(db, op) == Failed(OtherError) <==> RepeatsBind(db.pvc, op)
  {
  }

  /** The tables once the call is over: a duplicate key, like any failed attempt, leaves nothing behind. */
  function Apply(db: DB, op: Op): DB {
    match Body(db, op)
    case Done(db') => db'
    case Failed(_) => db
  }

  function Run(db: DB, log: seq<Op>): DB {
    if log == [] then db else Apply(Run(db, log[..|log| - 1]), log[|log| - 1])
  }

  lemma {:induction false} RunConcat(db: DB, a: seq<Op>, b: seq<Op>)
    ensures Run(db, a + b) == Run(Run(db, a), b)
  {
    if b == [] {
      assert a + b == a;
    } else {
      RunConcat(db, a, b[..|b| - 1]);
      assert (a + b)[..|a + b| - 1] == a + b[..|b| - 1];
    }
  }

  /** The key under which a call stores its version; a bind is seen on the PV's stream. */
  function StoresUnder(op: Op): Option<RVKey> {
    match op
    case InsertPod(_, _, _, _, _, _, ns, _) => Some(RVKey(Pods, ns))
    case DeletePod(_, _, ns, _) => Some(RVKey(Pods, ns))
    case InsertPVC(_, _, _, _, _, _, _, ns, _) => Some(RVKey(PVCs, ns))
    case UpdatePVC(_, _, _, _, ns, _) => Some(RVKey(PVCs, ns))
    case DeletePVC(_, _, ns, _) => Some(RVKey(PVCs, ns))
    case InsertNFS(_, _) => None
    case InsertISCSI(_, _) => None
    case _ => Some(RVKey(PVs, PV_NAMESPACE))
  }

  /** A call that is not refused stores its version, and touches no other. */
  lemma VersionAfter(db: DB, op: Op, key: RVKey)
    ensures Lookup(Apply(db, op).rv, key)
      == if StoresUnder(op) == Some(key) && Body(db, op).Done? then Some(op.rv) else Lookup(db.rv, key)
  {
  }

  lemma RunOne(db: DB, op: Op)
    ensures Run(db, [op]) == Apply(db, op)
  {
    assert [op][..0] == [];
  }

  lemma RunTwo(db: DB, op1: Op, op2: Op)
    ensures Run(db, [op1, op2]) == Apply(Apply(db, op1), op2)
  {
    assert [op1, op2][..1] == [op1];
    RunOne(db, op1);
  }

  lemma BindIsRecorded(db: DB, op: Op)
    requires op.BindPVC?
    ensures RepeatsBind(Apply(db, op).pvc, op)
  {
  }

  lemma BindStays(db: DB, bind: Op, op: Op)
    requires RepeatsBind(db.pvc, bind) && (op.BindPVC? ==> op.uid != bind.uid)
    ensures RepeatsBind(Apply(db, op).pvc, bind)
  {
  }

  /** Every bind blocks its own repetition, for as long as no other bind of that claim is recorded. */
  lemma {:induction false} BindBlocksItself(db: DB, bind: Op, ops: seq<Op>)
    requires bind.BindPVC? && forall op :: op in ops && op.BindPVC? ==> op.uid != bind.uid
    ensures RepeatsBind(Run(Apply(db, bind), ops).pvc, bind)
  {
    hide Apply, RepeatsBind;
    if ops == [] {
      BindIsRecorded(db, bind);
    } else {
      BindBlocksItself(db, bind, ops[..|ops| - 1]);
      BindStays(Run(Apply(db, bind), ops[..|ops| - 1]), bind, ops[|ops| - 1]);
    }
  }

  /** Deleting in two phases is: if one of the pod's rows is bad drop all of them, and touch no other pod's. */
  lemma CleanMountsMeaning(mounts: seq<MountRow>, pvc: map<UID, PVCRow>, pod: UID, t: Time)
    ensures CleanMounts(mounts, pvc, pod, t)
      == if exists m :: m in mounts && IsBadMount(pvc, pod, t, m) then Filter(MountNotOf(pod), mounts) else mounts
  {
    var good := GoodMount(pvc, pod, t);
    FilterAll(good, mounts);
    FilterMembers(good, mounts);
    ShorterWhenBad(good, mounts);
    if exists m :: m in mounts && IsBadMount(pvc, pod, t, m) {
      FilterFilter(MountNotOf(pod), good, MountNotOf(pod), mounts);
    } else {
      assert forall m :: m in mounts ==> good(m);
    }
  }

  /**
   What a deletion makes of the mounts, on the columns. They all stay when each claim that a mount of the pod is on,
   if it is recorded and has a create time, was made by then, whatever other claims there are; when one was made
   later, all mounts of the pod go, and no other.
   */
  lemma DeletionDropsOrKeeps(db: DB, op: Op)
    requires op.DeletePod?
    ensures (forall m | m in db.podMount && m.podUid == op.uid && m.pvcUid.Some? && m.pvcUid.value in db.pvc ::
      db.pvc[m.pvcUid.value].createTime.Some? ==> db.pvc[m.pvcUid.value].createTime.value <= op.deleteTime) ==>
      Apply(db, op).podMount == db.podMount
    ensures (exists m | m in db.podMount && m.podUid == op.uid && m.pvcUid.Some? && m.pvcUid.value in db.pvc ::
      db.pvc[m.pvcUid.value].createTime.Some? && db.pvc[m.pvcUid.value].createTime.value > op.deleteTime) ==>
      Apply(db, op).podMount == Filter(MountNotOf(op.uid), db.podMount)
    ensures forall m :: m in db.podMount && m.podUid != op.uid ==> m in Apply(db, op).podMount
    ensures Apply(db, op).podMount != db.podMount ==> forall m :: m in Apply(db, op).podMount ==> m.podUid != op.uid
  {
    CleanMountsMeaning(db.podMount, db.pvc, op.uid, op.deleteTime);
    FilterMembers(MountNotOf(op.uid), db.podMount);
  }

  /** A claim that the mount is not on does not matter. */
  lemma OtherClaimsSpareMounts(pod: UID, mount: MountRow, own: PVCRow, other: UID, row: PVCRow, db: DB, op: Op)
    requires op.DeletePod? && op.uid == pod && mount.podUid == pod && mount.pvcUid.Some? && mount.pvcUid.value != other
    requires own.createTime.Some? && own.createTime.value <= op.deleteTime
    requires db.podMount == [mount] && db.pvc == map[mount.pvcUid.value := own, other := row]
    ensures Apply(db, op).podMount == [mount]
  {
    DeletionDropsOrKeeps(db, op);
  }

  lemma {:induction false} ShorterWhenBad<T>(f: T -> bool, s: seq<T>)
    ensures |Filter(f, s)| <= |s|
    ensures |Filter(f, s)| == |s| ==> Filter(f, s) == s
  {
    if s != [] {
      ShorterWhenBad(f, s[..|s| - 1]);
      assert s == s[..|s| - 1] + [s[|s| - 1]];
    }
  }
}
