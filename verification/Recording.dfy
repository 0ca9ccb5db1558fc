/**
 What the tables say of an object once the event that announces it was handled: the columns are those of the
 event, the backend is found under the id in the row, and the bind points back at the volume.
 */
module Recording {
  import opened Tables
  import opened Matching
  import opened Operations
  import opened Invariants
  import opened Interning
  import opened PodSpecs
  import opened Watcher

  /** The row holds the one backend that the volume's description gives; NFS wins when there are two. */
  predicate OnBackend(db: DB, row: PVRow, p: PVResource) {
    if p.nfs.Some? then row.iscsiId == 0 && IdRow(row.nfsId, p.nfs.value) in db.nfs.rows
    else p.iscsi.Some? && row.nfsId == 0 && IdRow(row.iscsiId, p.iscsi.value) in db.iscsi.rows
  }

  ghost predicate RecordsPV(db: DB, p: PVResource, json: string) {
    && p.uid in db.pv
    && var row := db.pv[p.uid];
       && row.storage == p.storage && row.accessModes == p.accessModes && row.json == json && OnBackend(db, row, p)
  }

  /** The claim is bound to the volume, as of then. */
  predicate RecordsBind(db: DB, claim: UID, pv: UID, now: Time) {
    claim in db.pvc && db.pvc[claim].pvUid == Some(pv) && db.pvc[claim].bindTime == Some(now)
  }

  /** A pod that was not known is recorded as announced, with a row for each container that its specification lists. */
  lemma PodIsRecorded(db: DB, ns: string, p: PodResource, json: string, at: Moment)
    requires p.uid !in db.pod && Filter(ContainerOf(p.uid), db.container) == []
    ensures var db' := Handle(db, ns, PodEvent(Added, p, json), at);
      && p.uid in db'.pod && var row := db'.pod[p.uid];
      && row.name == p.name && row.namespace == p.namespace && row.createTime == p.createTime
      && row.deleteTime.None? && row.json == json
      && RecordsContainers(Filter(ContainerOf(p.uid), db'.container), p.uid, Read(p.spec))
      && Lookup(db'.rv, VersionKey(Pods, ns)) == Some(p.rv)
  {
    hide Filter, RowsForPod;
    var op := InsertPod(p.uid, p.name, p.createTime, p.namespace, Read(p.spec), json, ns, p.rv);
    RunOne(db, op);
    RowsAfterPodInsert(db, op, p.uid);
    assert [] + ContainerRows(p.uid, Read(p.spec)) == ContainerRows(p.uid, Read(p.spec));
  }

  lemma BackendRecorded(db: DB, p: PVResource, lost: nat)
    requires p.nfs.Some? || p.iscsi.Some?
    ensures var db', id := Run(db, InternOps(p, lost)), BackendId(db, p, lost);
      && db' == db.(nfs := db'.nfs, iscsi := db'.iscsi)
      && if p.nfs.Some? then IdRow(id, p.nfs.value) in db'.nfs.rows else IdRow(id, p.iscsi.value) in db'.iscsi.rows
  {
    RunOne(db, InternOps(p, lost)[0]);
    if p.nfs.Some? {
      AnswerIsARow(db.nfs, p.nfs.value, 0);
    } else {
      AnswerIsARow(db.iscsi, p.iscsi.value, lost);
    }
  }

  /** The id that was interned for it goes into the row, whether the row is new or updated. */
  lemma PVRowRecorded(db: DB, p: PVResource, json: string, lost: nat, op: Op)
    requires p.nfs.Some? || p.iscsi.Some?
    requires op == (if p.uid in db.pv then UpdatePV(p.uid, BackendId(db, p, lost), BackendOf(p), p.storage, p.accessModes, json, p.rv)
                    else InsertPV(p.uid, p.name, p.createTime, BackendId(db, p, lost), BackendOf(p), p.storage, p.accessModes, json, p.rv))
    ensures RecordsPV(Run(db, InternOps(p, lost) + [op]), p, json)
    ensures Run(db, InternOps(p, lost) + [op]).pvc == db.pvc
    ensures Lookup(Run(db, InternOps(p, lost) + [op]).rv, VersionKey(PVs, "")) == Some(p.rv)
  {
    hide Intern, FindId, Run, InternOps, BackendId;
    BackendRecorded(db, p, lost);
    RunConcat(db, InternOps(p, lost), [op]);
    RunOne(Run(db, InternOps(p, lost)), op);
  }

  /** A volume that was not known is recorded as announced and, when it names a claim, the claim is bound to it. */
  lemma PVIsRecorded(db: DB, ns: string, p: PVResource, json: string, at: Moment)
    requires p.uid !in db.pv && (p.nfs.Some? || p.iscsi.Some?) && BindsAnew(db, p, at.now)
    ensures var db' := Handle(db, ns, PVEvent(Added, p, json), at);
      && RecordsPV(db', p, json)
      && db'.pv[p.uid].name == p.name && db'.pv[p.uid].createTime == p.createTime && db'.pv[p.uid].deleteTime.None?
      && (p.claimRef.Some? ==> RecordsBind(db', p.claimRef.value, p.uid, at.now))
      && Lookup(db'.rv, VersionKey(PVs, ns)) == Some(p.rv)
  {
    hide Run, InternOps, BackendId;
    var op := InsertPV(p.uid, p.name, p.createTime, BackendId(db, p, at.lost), BackendOf(p), p.storage, p.accessModes, json, p.rv);
    var db1 := Run(db, InternOps(p, at.lost) + [op]);
    PVRowRecorded(db, p, json, at.lost, op);
    BackendRecorded(db, p, at.lost);
    RunConcat(db, InternOps(p, at.lost), [op]);
    RunOne(Run(db, InternOps(p, at.lost)), op);
    RunConcat(db, InternOps(p, at.lost) + [op], BindOps(p, at.now));
    if p.claimRef.Some? {
      RunOne(db1, BindOps(p, at.now)[0]);
    } else {
      RunNothing(db1);
    }
  }

  lemma RunNothing(db: DB)
    ensures Run(db, []) == db
  {
  }

  /** A known volume that becomes available is recorded afresh, and keeps its name, times and claim. */
  lemma PVIsUpdated(db: DB, ns: string, p: PVResource, json: string, at: Moment)
    requires p.uid in db.pv && p.phase == Available && (p.nfs.Some? || p.iscsi.Some?)
    ensures var db' := Handle(db, ns, PVEvent(Modified, p, json), at);
      && RecordsPV(db', p, json)
      && db'.pvc == db.pvc
      && Lookup(db'.rv, VersionKey(PVs, ns)) == Some(p.rv)
  {
    hide Run, InternOps, BackendId;
    PVRowRecorded(db, p, json, at.lost, UpdatePV(p.uid, BackendId(db, p, at.lost), BackendOf(p), p.storage, p.accessModes, json, p.rv));
  }

  /**
   A claim is recorded as announced, whether or not it was bound before; what is known of its bind stays, and all
   mounts of live pods under its name now point at it.
   */
  lemma ClaimIsRecorded(db: DB, ns: string, p: PVCResource, json: string, at: Moment)
    ensures var db' := Handle(db, ns, PVCEvent(Added, p, json), at);
      && p.uid in db'.pvc && var row := db'.pvc[p.uid];
      && row.name == Some(p.name) && row.createTime == Some(p.createTime) && row.namespace == Some(p.namespace)
      && row.storage == Some(p.storage) && row.accessModes == Some(p.accessModes) && row.json == Some(json)
      && row.pvUid == (if p.uid in db.pvc then db.pvc[p.uid].pvUid else None)
      && row.bindTime == (if p.uid in db.pvc then db.pvc[p.uid].bindTime else None)
      && (forall m :: m in db'.podMount && m.pvcName == p.name && LivePod(db'.pod, m.podUid) ==> m.pvcUid == Some(p.uid))
      && Lookup(db'.rv, VersionKey(PVCs, ns)) == Some(p.rv)
  {
    RunOne(db, InsertPVC(p.uid, p.name, p.createTime, p.namespace, p.storage, p.accessModes, json, ns, p.rv));
  }

  /** When the object is gone: as the event says or, for volumes and claims, when it was handled if it does not say. */
  function EndOf(e: Event, now: Time): Time
    requires e.Usable() && e.kind == Deleted
  {
    match e
    case PodEvent(_, p, _) => p.deletionTime.value
    case PVEvent(_, p, _) => if p.deletionTime.Some? then p.deletionTime.value else now
    case PVCEvent(_, p, _) => if p.deletionTime.Some? then p.deletionTime.value else now
  }

  /** A deletion stamps the object's row, if there is one, leaves its other columns, and makes no row. */
  lemma DeletionIsRecorded(db: DB, ns: string, e: Event, at: Moment)
    requires e.Usable() && e.kind == Deleted
    ensures var db', end := Handle(db, ns, e, at), Some(EndOf(e, at.now));
      && db'.pod == (if e.PodEvent? && e.pod.uid in db.pod then db.pod[e.pod.uid := db.pod[e.pod.uid].(deleteTime := end)] else db.pod)
      && db'.pv == (if e.PVEvent? && e.pv.uid in db.pv then db.pv[e.pv.uid := db.pv[e.pv.uid].(deleteTime := end)] else db.pv)
      && db'.pvc == (if e.PVCEvent? && e.pvc.uid in db.pvc then db.pvc[e.pvc.uid := db.pvc[e.pvc.uid].(deleteTime := end)] else db.pvc)
      && Lookup(db'.rv, VersionKey(e.OfResource(), ns)) == Some(e.Version())
  {
    RunOne(db, EventOps(db, ns, e, at)[0]);
  }

  /**
   A recorded claim that is still pending has its description recorded afresh: the three columns of its row are those
   of the event, its other columns stay, and so does everything else but the version. No row is made.
   */
  lemma ClaimIsUpdated(db: DB, ns: string, p: PVCResource, json: string, at: Moment)
    requires p.phase == Pending
    ensures var db' := Handle(db, ns, PVCEvent(Modified, p, json), at);
      && db' == db.(pvc := db'.pvc, rv := db'.rv)
      && db'.pvc.Keys == db.pvc.Keys
      && (forall u :: u in db.pvc && u != p.uid ==> db'.pvc[u] == db.pvc[u])
      && (p.uid in db.pvc ==>
        && db'.pvc[p.uid].storage == Some(p.storage) && db'.pvc[p.uid].accessModes == Some(p.accessModes)
        && db'.pvc[p.uid].json == Some(json)
        && db'.pvc[p.uid].(storage := db.pvc[p.uid].storage, accessModes := db.pvc[p.uid].accessModes, json := db.pvc[p.uid].json)
           == db.pvc[p.uid])
      && db'.rv == db.rv[VersionKey(PVCs, ns) := p.rv]
  {
    RunOne(db, UpdatePVC(p.uid, p.storage, p.accessModes, json, ns, p.rv));
  }

  /** A volume that becomes bound: its claim's row has the volume and the moment, made if need be; the rest stays. */
  lemma BoundIsRecorded(db: DB, ns: string, p: PVResource, json: string, at: Moment)
    requires p.phase == Bound && p.claimRef.Some? && BindsAnew(db, p, at.now)
    ensures var db', u := Handle(db, ns, PVEvent(Modified, p, json), at), p.claimRef.value;
      && db' == db.(pvc := db'.pvc, rv := db'.rv)
      && RecordsBind(db', u, p.uid, at.now)
      && db'.pvc.Keys == db.pvc.Keys + {u}
      && (forall v :: v in db.pvc && v != u ==> db'.pvc[v] == db.pvc[v])
      && db'.pvc[u].(pvUid := None, bindTime := None)
         == (if u in db.pvc then db.pvc[u] else EMPTY_CLAIM).(pvUid := None, bindTime := None)
      && db'.rv == db.rv[VersionKey(PVs, ns) := p.rv]
  {
    RunOne(db, BindPVC(p.uid, p.claimRef.value, at.now, p.rv));
  }

  /** The watch skips an event for having the very version of its connection, and for nothing else, older ones included. */
  lemma SkippedExactly(s: WatchState, ns: string, p: PVCResource, json: string, now: Time, lost: nat)
    requires p.uid !in s.db.pvc
    ensures p.uid in OnInput(s, ns, PVCs, Incoming(PVCEvent(Added, p, json), now), lost).db.pvc <==> s.rv != Some(p.rv)
  {
    if s.rv != Some(p.rv) {
      ClaimIsRecorded(s.db, ns, p, json, Moment(now, lost));
    }
  }

  // ------------------------------------------------------------------ what an event leaves alone

  /** The object, if any, whose row in that table the event may write. */
  ghost predicate MayWritePod(e: Event, u: UID) { e.PodEvent? && e.pod.uid == u }

  ghost predicate MayWritePV(e: Event, u: UID) { e.PVEvent? && e.pv.uid == u }

  ghost predicate MayWriteClaim(e: Event, u: UID) {
    (e.PVCEvent? && e.pvc.uid == u) || (e.Binds() && e.pv.claimRef == Some(u))
  }

  /** Other rows than those are as they were. */
  ghost predicate OthersStay(db: DB, db': DB, e: Event) {
    && (forall u :: !MayWritePod(e, u) ==> Lookup(db'.pod, u) == Lookup(db.pod, u))
    && (forall u :: !MayWritePV(e, u) ==> Lookup(db'.pv, u) == Lookup(db.pv, u))
    && (forall u :: !MayWriteClaim(e, u) ==> Lookup(db'.pvc, u) == Lookup(db.pvc, u))
    && (!e.PodEvent? ==> db'.container == db.container)
    && (!e.PVEvent? ==> db'.nfs == db.nfs && db'.iscsi == db.iscsi)
    && (e.PVEvent? || (e.PVCEvent? && e.kind != Added) ==> db'.podMount == db.podMount)
  }

  lemma StaysStep(db: DB, db': DB, e: Event, op: Op)
    requires OthersStay(db, db', e) && MayCall(e, op)
    ensures OthersStay(db, Apply(db', op), e)
  {
  }

  /** The calls are about the object of the event, or the claim that it binds. */
  ghost predicate MayCall(e: Event, op: Op) {
    match e
    case PodEvent(_, p, _) => op.OnPod() && op.uid == p.uid
    case PVEvent(_, p, _) =>
      || op.InsertNFS? || op.InsertISCSI?
      || ((op.InsertPV? || op.UpdatePV? || op.DeletePV?) && op.uid == p.uid)
      || (op.BindPVC? && e.Binds() && p.claimRef == Some(op.uid))
    case PVCEvent(kind, p, _) => op.OnClaim() && op.uid == p.uid && (op.InsertPVC? <==> kind == Added)
  }

  lemma {:induction false} RunStays(db: DB, e: Event, ops: seq<Op>)
    requires forall op :: op in ops ==> MayCall(e, op)
    ensures OthersStay(db, Run(db, ops), e)
  {
    if ops != [] {
      hide OthersStay, MayCall, Apply;
      RunStays(db, e, ops[..|ops| - 1]);
      assert ops[|ops| - 1] in ops;
      StaysStep(db, Run(db, ops[..|ops| - 1]), e, ops[|ops| - 1]);
    } else {
      StaysAtFirst(db, e);
    }
  }

  lemma StaysAtFirst(db: DB, e: Event)
    ensures OthersStay(db, Run(db, []), e)
  {
  }

  /** An event touches only the rows of its object and of the claim that it binds. */
  lemma EventTouchesItsOwn(db: DB, ns: string, e: Event, at: Moment)
    requires e.Usable()
    ensures OthersStay(db, Handle(db, ns, e, at), e)
  {
    RunStays(db, e, EventOps(db, ns, e, at));
  }

  /** A volume that is updated keeps its name and its times. */
  lemma UpdateKeepsIdentity(db: DB, ns: string, p: PVResource, json: string, at: Moment)
    requires p.uid in db.pv && p.phase == Available && (p.nfs.Some? || p.iscsi.Some?)
    ensures var db' := Handle(db, ns, PVEvent(Modified, p, json), at);
      && p.uid in db'.pv && db'.pv[p.uid].name == db.pv[p.uid].name
      && db'.pv[p.uid].createTime == db.pv[p.uid].createTime && db'.pv[p.uid].deleteTime == db.pv[p.uid].deleteTime
  {
    hide Run, InternOps, BackendId;
    var op := UpdatePV(p.uid, BackendId(db, p, at.lost), BackendOf(p), p.storage, p.accessModes, json, p.rv);
    BackendRecorded(db, p, at.lost);
    RunConcat(db, InternOps(p, at.lost), [op]);
    RunOne(Run(db, InternOps(p, at.lost)), op);
  }
}
