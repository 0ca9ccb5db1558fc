/**
 A refused version in the middle of things: what the server lists afresh, after any schedule of the watches, is what
 the tracker has recorded, so that starting afresh harms nothing.
 */
module Restart {
  import opened Tables
  import opened Operations
  import opened Streams
  import opened History
  import opened Convergence
  import opened Invariants
  import opened DeletedPods
  import opened Watcher
  import opened Reconnect
  import opened EndToEnd
  import opened Replay
  import Interleavings

  // ------------------------------------------------------------------ what the server lists

  /** The volume whose event bound the claim last. */
  function LastBinder(log: seq<Event>, claim: UID): Option<UID> {
    if log == [] then None else
      var e := log[|log| - 1];
      if e.Binds() && e.pv.claimRef == Some(claim) then Some(e.pv.uid) else LastBinder(log[..|log| - 1], claim)
  }

  /** An event that makes the tracker look up the same backend. */
  predicate SameBackend(e: Event, p: PVResource) {
    && e.PVEvent? && (e.kind == Added || (e.kind == Modified && e.pv.phase == Available))
    && e.pv.nfs == p.nfs && e.pv.iscsi == p.iscsi
  }

  ghost predicate ListedPod(log: seq<Event>, p: PodResource) {
    exists e :: e in log && e.PodEvent? && e.kind == Added && e.pod.uid == p.uid
  }

  /** The volume and its backend were announced and, if it is bound, no other volume took its claim later. */
  ghost predicate ListedPV(log: seq<Event>, p: PVResource) {
    && (exists e :: e in log && e.PVEvent? && e.kind == Added && e.pv.uid == p.uid)
    && (exists e :: e in log && SameBackend(e, p))
    && (p.claimRef.Some? ==> LastBinder(log, p.claimRef.value) == Some(p.uid))
  }

  /** The claim is the newest of its name, and every pod that stays and mounts the name is settled on it. */
  ghost predicate ListedClaim(logs: Logs, ns: string, p: PVCResource)
    requires Dated(logs.pvcs) && PodLog(logs.pods)
  {
    var pvc, pods := Run(EMPTY_DB, ClaimStreamOf(ns, logs.pvcs)).pvc, PodStream(ns, logs.pods);
    && Newest(pvc, p.name, p.uid) && pvc[p.uid].createTime == Some(p.createTime)
    && forall k: nat :: Outlives(pods, k) && MountsName(pods[k].containers, p.name) ==> Settled(pvc, p.name, p.uid, pods[k].createTime)
  }

  /** A fresh Added event of an object of the logs. */
  ghost predicate Listed(logs: Logs, ns: string, e: Event)
    requires Dated(logs.pvcs) && PodLog(logs.pods)
  {
    && e.Usable() && e.kind == Added
    && match e
       case PodEvent(_, p, _) => ListedPod(logs.pods, p)
       case PVEvent(_, p, _) => ListedPV(logs.pvs, p)
       case PVCEvent(_, p, _) => ListedClaim(logs, ns, p)
  }

  // ------------------------------------------------------------------ what was handled

  lemma {:induction false} HandledOps(ns: string, trace: seq<Handled>, i: nat) returns (db: DB)
    requires AllHandledUsable(trace) && i < |trace|
    ensures forall op :: op in EventOps(db, ns, trace[i].event, trace[i].at) ==> op in TraceOps(ns, trace)
  {
    var front := trace[..|trace| - 1];
    if i == |front| {
      db := EventRun(EMPTY_DB, ns, front);
    } else {
      db := HandledOps(ns, front, i);
    }
  }

  lemma {:induction false} EventWasHandled(trace: seq<Handled>, r: Resource, e: Event) returns (i: nat)
    requires e in EventsOf(trace, r)
    ensures i < |trace| && trace[i].event == e
  {
    if trace[|trace| - 1].event == e {
      i := |trace| - 1;
    } else {
      i := EventWasHandled(trace[..|trace| - 1], r, e);
    }
  }

  /** The calls of a handled event are among those that were made. */
  lemma OpsOfEvent(ns: string, trace: seq<Handled>, r: Resource, e: Event) returns (db: DB, at: Moment)
    requires AllHandledUsable(trace) && e in EventsOf(trace, r)
    ensures e.Usable() && forall op :: op in EventOps(db, ns, e, at) ==> op in TraceOps(ns, trace)
  {
    var i := EventWasHandled(trace, r, e);
    db := HandledOps(ns, trace, i);
    at := trace[i].at;
  }

  lemma PodStaysRecorded(ops: seq<Op>, op: Op)
    requires op in ops && op.InsertPod?
    ensures op.uid in Run(EMPTY_DB, ops).pod
  {
    TablesAreTheirHistory(ops);
    assert MakesPod(op.uid)(op);
    assert Lookup(Run(EMPTY_DB, ops).pod, op.uid) == PodFrom(ops, op.uid);
  }

  lemma PVStaysRecorded(ops: seq<Op>, op: Op)
    requires op in ops && op.InsertPV?
    ensures op.uid in Run(EMPTY_DB, ops).pv
  {
    TablesAreTheirHistory(ops);
    assert MakesPV(op.uid)(op);
    assert Lookup(Run(EMPTY_DB, ops).pv, op.uid) == PVFrom(ops, op.uid);
  }

  predicate Known(db: DB, op: Op) {
    && (op.InsertNFS? ==> FindId(db.nfs.rows, op.nfs).Some?)
    && (op.InsertISCSI? ==> FindId(db.iscsi.rows, op.iscsi).Some?)
  }

  lemma KnownOnceInterned(db: DB, op: Op)
    ensures Known(Apply(db, op), op)
  {
    if op.InsertNFS? {
      FindAppended(db.nfs, op.nfs, op.lost);
    } else if op.InsertISCSI? {
      FindAppended(db.iscsi, op.iscsi, op.lost);
    }
  }

  lemma {:induction false} BackendStaysKnown(ops: seq<Op>, op: Op)
    requires op in ops
    ensures Known(Run(EMPTY_DB, ops), op)
  {
    hide Apply;
    var front, last := ops[..|ops| - 1], ops[|ops| - 1];
    assert ops == front + [last];
    if op in front {
      BackendStaysKnown(front, op);
      ApplyRemembers(Run(EMPTY_DB, front), last);
    } else {
      KnownOnceInterned(Run(EMPTY_DB, front), op);
    }
  }

  // ------------------------------------------------------------------ binds

  function BinderOf(bind: Option<Op>): Option<UID>
    requires bind.Some? ==> bind.value.BindPVC?
  {
    if bind.Some? then Some(bind.value.pvUid) else None
  }

  lemma LastBindOfEvent(db: DB, ns: string, e: Event, at: Moment, claim: UID)
    requires e.Usable()
    ensures BinderOf(Last(BindsClaim(claim), EventOps(db, ns, e, at)))
      == if e.Binds() && e.pv.claimRef == Some(claim) then Some(e.pv.uid) else None
  {
    var ops := EventOps(db, ns, e, at);
    if e.PVEvent? && e.Binds() {
      var bind := BindPVC(e.pv.uid, e.pv.claimRef.value, at.now, e.pv.rv);
      var front := ops[..|ops| - 1];
      assert ops == front + [bind];
      LastOf(BindsClaim(claim), front, bind);
      assert forall op :: op in front ==> !op.BindPVC?;
    } else {
      assert forall op :: op in ops ==> !op.BindPVC?;
    }
  }

  /** The claim is bound, as recorded, to the volume whose event bound it last. */
  lemma {:induction false} BinderOfTrace(ns: string, trace: seq<Handled>, claim: UID)
    requires AllHandledUsable(trace)
    ensures BinderOf(Last(BindsClaim(claim), TraceOps(ns, trace))) == LastBinder(EventsOf(trace, PVs), claim)
  {
    if trace != [] {
      hide EventOps;
      var front, last := trace[..|trace| - 1], trace[|trace| - 1];
      var db := EventRun(EMPTY_DB, ns, front);
      BinderOfTrace(ns, front, claim);
      LastBindOfEvent(db, ns, last.event, last.at, claim);
      Interleavings.LastConcat(BindsClaim(claim), TraceOps(ns, front), EventOps(db, ns, last.event, last.at));
      if last.event.OfResource() == PVs {
        assert (EventsOf(front, PVs) + [last.event])[..|EventsOf(front, PVs)|] == EventsOf(front, PVs);
      }
    }
  }

  lemma BoundAsRecorded(ops: seq<Op>, claim: UID, pv: UID)
    requires BinderOf(Last(BindsClaim(claim), ops)) == Some(pv)
    ensures claim in Run(EMPTY_DB, ops).pvc && Run(EMPTY_DB, ops).pvc[claim].pvUid == Some(pv)
  {
    TablesAreTheirHistory(ops);
    MakersAreAlive(BindsClaim(claim), ops, claim);
    assert Lookup(Run(EMPTY_DB, ops).pvc, claim) == ClaimFrom(ops, claim);
  }

  // ------------------------------------------------------------------ mounts

  /** Every mount has a name that the first insert of its pod mounts. */
  ghost predicate NamesFromInserts(mounts: seq<MountRow>, log: seq<Op>) {
    forall m :: m in mounts ==>
      FirstInsert(log, m.podUid).Some? && MountsName(FirstInsert(log, m.podUid).value.containers, m.pvcName)
  }

  lemma {:induction false} RecordedByInsert(log: seq<Op>, pod: UID)
    ensures pod in Run(EMPTY_DB, log).pod <==> FirstInsert(log, pod).Some?
  {
    if log != [] {
      RecordedByInsert(log[..|log| - 1], pod);
    }
  }

  lemma NamesStep(db: DB, log: seq<Op>, op: Op)
    requires NamesFromInserts(db.podMount, log) && forall u :: u in db.pod <==> FirstInsert(log, u).Some?
    ensures NamesFromInserts(Apply(db, op).podMount, log + [op])
  {
    var mounts := Apply(db, op).podMount;
    forall m | m in mounts
      ensures FirstInsert(log + [op], m.podUid).Some? && MountsName(FirstInsert(log + [op], m.podUid).value.containers, m.pvcName)
    {
      FirstInsertLast(log, op, m.podUid);
      if op.InsertPod? && op.uid !in db.pod {
        if m !in db.podMount {
          RowsForPodBelong(db.pvc, op.uid, op.containers, op.createTime, m);
          RowsForPodNames(db.pvc, op.uid, op.containers, op.createTime, m);
        }
      } else if op.DeletePod? {
        CleanMountsKeepsOthers(db.podMount, db.pvc, op.uid, op.deleteTime);
      } else if op.InsertPVC? {
        var i :| 0 <= i < |mounts| && mounts[i] == m;
        assert db.podMount[i] in db.podMount;
      }
    }
  }

  lemma {:induction false} NamesComeFromInserts(log: seq<Op>)
    ensures NamesFromInserts(Run(EMPTY_DB, log).podMount, log)
  {
    if log != [] {
      hide Apply, NamesFromInserts;
      var front, op := log[..|log| - 1], log[|log| - 1];
      assert log == front + [op];
      NamesComeFromInserts(front);
      forall u ensures u in Run(EMPTY_DB, front).pod <==> FirstInsert(front, u).Some? {
        RecordedByInsert(front, u);
      }
      NamesStep(Run(EMPTY_DB, front), front, op);
    } else {
      NoMountsAtFirst();
    }
  }

  lemma NoMountsAtFirst()
    ensures NamesFromInserts(Run(EMPTY_DB, []).podMount, [])
  {
  }

  /** A live pod was inserted, and not deleted after its first insert. */
  lemma {:induction false} LiveOutlives(pods: seq<Op>, u: UID) returns (k: nat)
    requires forall op :: op in pods ==> op.OnPod()
    requires LivePod(Run(EMPTY_DB, pods).pod, u)
    ensures Outlives(pods, k) && pods[k].uid == u
  {
    var front, op := pods[..|pods| - 1], pods[|pods| - 1];
    assert pods == front + [op] && op.OnPod();
    if u in Run(EMPTY_DB, front).pod {
      k := LiveOutlives(front, u);
    } else {
      k := |front|;
      NeverInserted(front, u);
    }
  }

  lemma {:induction false} NeverInserted(pods: seq<Op>, u: UID)
    requires u !in Run(EMPTY_DB, pods).pod
    ensures forall op :: op in pods && op.InsertPod? ==> op.uid != u
  {
    if pods != [] {
      NeverInserted(pods[..|pods| - 1], u);
      assert pods == pods[..|pods| - 1] + [pods[|pods| - 1]];
    }
  }

  // ------------------------------------------------------------------ a listed object is recorded

  /** The watches have handled all events of the logs, in some schedule that got through. */
  ghost predicate UpToDate(logs: Logs, ns: string, steps: seq<Step>) {
    && GoodLogs(logs) && Dated(logs.pvcs) && PodLog(logs.pods) && ClaimStream(ClaimStreamOf(ns, logs.pvcs))
    && Unhindered(logs, ns, steps)
    && forall r :: RunSystem(logs, ns, steps).done[r] == |logs.Of(r)|
  }

  /** Then the tables are those of a run of calls whose streams are those of the logs. */
  lemma AllHandled(logs: Logs, ns: string, steps: seq<Step>) returns (trace: seq<Handled>)
    requires UpToDate(logs, ns, steps)
    ensures AllHandledUsable(trace) && RunSystem(logs, ns, steps).db == Run(EMPTY_DB, TraceOps(ns, trace))
    ensures forall r :: EventsOf(trace, r) == logs.Of(r)
    ensures Filter(PodOps(), TraceOps(ns, trace)) == PodStream(ns, logs.pods)
    ensures Filter(ClaimOps(), TraceOps(ns, trace)) == ClaimStreamOf(ns, logs.pvcs)
  {
    hide RunSystem, Unhindered, EventsOf, GoodLogs;
    ReconnectsAreInvisible(logs, ns, steps);
    trace := RunSystem(logs, ns, steps).trace;
    forall r ensures EventsOf(trace, r) == logs.Of(r) {
      assert logs.Of(r)[..|logs.Of(r)|] == logs.Of(r);
    }
    assert EventsOf(trace, Pods) == logs.Of(Pods) && EventsOf(trace, PVCs) == logs.Of(PVCs);
    TraceIsARun(ns, trace);
    PodsOfTrace(ns, trace, logs.pods);
    ClaimsOfTrace(ns, trace, logs.pvcs);
  }

  lemma ListedPodIsRecorded(ns: string, trace: seq<Handled>, p: PodResource)
    requires AllHandledUsable(trace) && ListedPod(EventsOf(trace, Pods), p)
    ensures p.uid in Run(EMPTY_DB, TraceOps(ns, trace)).pod
  {
    var e :| e in EventsOf(trace, Pods) && e.PodEvent? && e.kind == Added && e.pod.uid == p.uid;
    var db, at := OpsOfEvent(ns, trace, Pods, e);
    assert EventOps(db, ns, e, at)[0].InsertPod?;
    PodStaysRecorded(TraceOps(ns, trace), EventOps(db, ns, e, at)[0]);
  }

  lemma BackendIsInterned(ns: string, trace: seq<Handled>, p: PVResource, e: Event)
    requires AllHandledUsable(trace) && e in EventsOf(trace, PVs) && SameBackend(e, p)
    ensures Interned(Run(EMPTY_DB, TraceOps(ns, trace)), p)
  {
    var db, at := OpsOfEvent(ns, trace, PVs, e);
    var op := EventOps(db, ns, e, at)[0];
    assert op == InternOps(e.pv, at.lost)[0];
    BackendStaysKnown(TraceOps(ns, trace), op);
  }

  lemma ListedPVIsRecorded(ns: string, trace: seq<Handled>, p: PVResource, json: string)
    requires AllHandledUsable(trace) && ListedPV(EventsOf(trace, PVs), p) && PVEvent(Added, p, json).Usable()
    ensures Recorded(Run(EMPTY_DB, TraceOps(ns, trace)), PVEvent(Added, p, json))
  {
    var ops := TraceOps(ns, trace);
    var e :| e in EventsOf(trace, PVs) && e.PVEvent? && e.kind == Added && e.pv.uid == p.uid;
    var db, at := OpsOfEvent(ns, trace, PVs, e);
    var op := EventOps(db, ns, e, at)[1];
    assert op.InsertPV? && op.uid == p.uid;
    PVStaysRecorded(ops, op);
    var b :| b in EventsOf(trace, PVs) && SameBackend(b, p);
    BackendIsInterned(ns, trace, p, b);
    if p.claimRef.Some? {
      BinderOfTrace(ns, trace, p.claimRef.value);
      BoundAsRecorded(ops, p.claimRef.value, p.uid);
    }
  }

  /** All mounts of live pods under the name are on the claim, when the pods that stay are settled on it. */
  lemma LivePodsConverged(ops: seq<Op>, name: string, c: UID)
    requires ClaimStream(Filter(ClaimOps(), ops)) && Newest(Run(EMPTY_DB, Filter(ClaimOps(), ops)).pvc, name, c)
    requires forall k: nat :: Outlives(Filter(PodOps(), ops), k) && MountsName(Filter(PodOps(), ops)[k].containers, name) ==>
      Settled(Run(EMPTY_DB, Filter(ClaimOps(), ops)).pvc, name, c, Filter(PodOps(), ops)[k].createTime)
    ensures Converged(Run(EMPTY_DB, ops), name, c)
  {
    var db, pods := Run(EMPTY_DB, ops), Filter(PodOps(), ops);
    Interleavings.OwnTables(ops);
    NamesComeFromInserts(ops);
    FilterMembers(PodOps(), ops);
    forall m | m in db.podMount && m.pvcName == name && LivePod(db.pod, m.podUid) ensures m.pvcUid == Some(c) {
      var k := LiveOutlives(pods, m.podUid);
      assert pods[..|pods|] == pods;
      FirstInsertFound(pods, k, |pods|);
      FirstInsertOfStream(ops, m.podUid);
      SettledConverges(ops, k, name, c);
    }
  }

  /** The newest claim is recorded with its identity. */
  lemma NewestIsRecorded(ops: seq<Op>, name: string, c: UID)
    requires ClaimStream(Filter(ClaimOps(), ops)) && Newest(Run(EMPTY_DB, Filter(ClaimOps(), ops)).pvc, name, c)
    ensures c in Run(EMPTY_DB, ops).pvc && SameIdentity(Run(EMPTY_DB, ops).pvc[c], Run(EMPTY_DB, Filter(ClaimOps(), ops)).pvc[c])
  {
    ClaimStreamInsertsFirst(Filter(ClaimOps(), ops));
    StreamsAreIndependent(ops);
    MergedReads(Run(EMPTY_DB, ops).pvc, Run(EMPTY_DB, Filter(ClaimOps(), ops)).pvc,
                Run(EMPTY_DB, Filter(VolumeOps(), ops)).pvc, c);
  }

  lemma ListedIsRecorded(logs: Logs, ns: string, steps: seq<Step>, e: Event)
    requires UpToDate(logs, ns, steps) && Listed(logs, ns, e)
    ensures Recorded(RunSystem(logs, ns, steps).db, e)
  {
    hide RunSystem, GoodLogs, Unhindered, Dated, PodLog, ClaimStream, EventsOf, TraceOps, Run, Filter, ListedPod, ListedPV, Converged;
    var trace := AllHandled(logs, ns, steps);
    assert EventsOf(trace, Pods) == logs.Of(Pods) && EventsOf(trace, PVs) == logs.Of(PVs);
    match e
    case PodEvent(_, p, _) => ListedPodIsRecorded(ns, trace, p);
    case PVEvent(_, p, json) => ListedPVIsRecorded(ns, trace, p, json);
    case PVCEvent(_, p, _) => ListedClaimIsRecorded(logs, ns, trace, p);
  }

  lemma ListedClaimIsRecorded(logs: Logs, ns: string, trace: seq<Handled>, p: PVCResource)
    requires AllHandledUsable(trace) && Dated(logs.pvcs) && PodLog(logs.pods) && ClaimStream(ClaimStreamOf(ns, logs.pvcs))
    requires Filter(PodOps(), TraceOps(ns, trace)) == PodStream(ns, logs.pods)
    requires Filter(ClaimOps(), TraceOps(ns, trace)) == ClaimStreamOf(ns, logs.pvcs)
    requires ListedClaim(logs, ns, p)
    ensures var db := Run(EMPTY_DB, TraceOps(ns, trace));
      && p.uid in db.pvc && db.pvc[p.uid].name == Some(p.name) && db.pvc[p.uid].createTime == Some(p.createTime)
      && Converged(db, p.name, p.uid)
  {
    hide TraceOps, PodStream, ClaimStreamOf, Run, Filter, ClaimStream, Settled, Outlives, Converged;
    LivePodsConverged(TraceOps(ns, trace), p.name, p.uid);
    NewestIsRecorded(TraceOps(ns, trace), p.name, p.uid);
  }

  // ------------------------------------------------------------------ the restart

  /** The listed events, as they come in after the status that the version is expired. */
  function Relist(list: seq<Handled>): seq<Input> {
    if list == [] then [TooOld] else
      var last := list[|list| - 1];
      Relist(list[..|list| - 1]) + [Incoming(last.event, last.at.now)]
  }

  function Losses(list: seq<Handled>): seq<nat> {
    if list == [] then [0] else Losses(list[..|list| - 1]) + [list[|list| - 1].at.lost]
  }

  lemma {:induction false} RelistShape(list: seq<Handled>)
    requires AllHandledUsable(list)
    ensures AllUsable(Relist(list)) && |Losses(list)| == |Relist(list)|
  {
    if list != [] {
      RelistShape(list[..|list| - 1]);
    }
  }

  /** After an expired version the watch handles all that is listed, and skips nothing. */
  lemma {:induction false} RelistIsHandled(s: WatchState, ns: string, r: Resource, list: seq<Handled>)
    requires AllHandledUsable(list)
    ensures AllUsable(Relist(list)) && |Losses(list)| == |Relist(list)|
    ensures var s' := OnInputs(s, ns, r, Relist(list), Losses(list));
      s'.db == EventRun(s.db, ns, list) && s'.initialize && s'.rv.None?
  {
    RelistShape(list);
    if list == [] {
      assert [TooOld][..0] == [] && [0][..0] == [];
    } else {
      var front, last := list[..|list| - 1], list[|list| - 1];
      RelistIsHandled(s, ns, r, front);
      assert Relist(list)[..|Relist(list)| - 1] == Relist(front) && Losses(list)[..|Losses(list)| - 1] == Losses(front);
    }
  }

  /**
   A restart: in a state that any schedule of the three watches has reached, with all events handled, one watch is
   told that its version is expired, and the server lists objects of its logs afresh. Handling the list harms nothing
   that was recorded.
   */
  lemma RestartIsHarmless(logs: Logs, ns: string, steps: seq<Step>, r: Resource, rv: Option<RV>, initialize: bool, list: seq<Handled>)
    requires UpToDate(logs, ns, steps)
    requires forall i :: 0 <= i < |list| ==> Listed(logs, ns, list[i].event)
    ensures AllUsable(Relist(list)) && |Losses(list)| == |Relist(list)|
    ensures Unharmed(RunSystem(logs, ns, steps).db,
                     OnInputs(WatchState(RunSystem(logs, ns, steps).db, rv, initialize), ns, r, Relist(list), Losses(list)).db)
  {
    hide RunSystem, GoodLogs, Unhindered, Dated, PodLog, ClaimStream, Listed, Unharmed, Recorded;
    var db := RunSystem(logs, ns, steps).db;
    forall i | 0 <= i < |list| ensures Recorded(db, list[i].event) {
      ListedIsRecorded(logs, ns, steps, list[i].event);
    }
    ReinitialisationIsHarmless(db, ns, list);
    RelistIsHandled(WatchState(db, rv, initialize), ns, r, list);
  }
}
