/**
 Starting afresh: after an expired version (410 Gone, section 6.5.9 of RFC 7231) the server sends an Added event
 for every object that exists. This module says when that leaves what was recorded as it was.
 */
module Replay {
  import opened Tables
  import opened Operations
  import opened Watcher
  import opened Reconnect

  /** The mounts of live pods under this name are all on this claim. */
  ghost predicate Converged(db: DB, name: string, claim: UID) {
    forall m :: m in db.podMount && m.pvcName == name && LivePod(db.pod, m.podUid) ==> m.pvcUid == Some(claim)
  }

  /** Inserting a claim again leaves `pod_mount` as it is exactly when the mounts had converged on it. */
  lemma ClaimReplayIff(db: DB, op: Op)
    requires op.InsertPVC?
    ensures Apply(db, op).podMount == db.podMount <==> Converged(db, op.name, op.uid)
  {
    var mounts := AttachClaim(db.podMount, db.pod, op.uid, op.name);
    if Converged(db, op.name, op.uid) {
      forall i | 0 <= i < |mounts| ensures mounts[i] == db.podMount[i] {
        assert db.podMount[i] in db.podMount;
      }
    } else {
      var m :| m in db.podMount && m.pvcName == op.name && LivePod(db.pod, m.podUid) && m.pvcUid != Some(op.uid);
      var i :| 0 <= i < |db.podMount| && db.podMount[i] == m;
      assert mounts[i].pvcUid == Some(op.uid);
    }
  }

  /** The call repeats what is recorded already. */
  ghost predicate Repeats(db: DB, op: Op) {
    match op
    case InsertPod(uid, _, _, _, _, _, _, _) => uid in db.pod
    case InsertPVC(uid, name, t, _, _, _, _, _, _) =>
      uid in db.pvc && db.pvc[uid].name == Some(name) && db.pvc[uid].createTime == Some(t) && Converged(db, name, uid)
    case InsertPV(uid, _, _, _, _, _, _, _, _) => uid in db.pv
    case BindPVC(pv, uid, _, _) => uid in db.pvc && db.pvc[uid].pvUid == Some(pv)
    case InsertNFS(key, _) => FindId(db.nfs.rows, key).Some?
    case InsertISCSI(key, _) => FindId(db.iscsi.rows, key).Some?
    case _ => false
  }

  /** A claim's identity, its deletion and the volume it is bound to. */
  predicate SameFate(r: PVCRow, s: PVCRow) {
    r.name == s.name && r.createTime == s.createTime && r.deleteTime == s.deleteTime && r.pvUid == s.pvUid
  }

  /** What a replay leaves alone: all but the versions, the bind times and the descriptive columns of claims. */
  ghost predicate Unharmed(before: DB, after: DB) {
    && after.pod == before.pod && after.container == before.container && after.podMount == before.podMount
    && after.pv == before.pv && after.nfs == before.nfs && after.iscsi == before.iscsi
    && after.pvc.Keys == before.pvc.Keys
    && (forall u :: u in before.pvc ==> SameFate(after.pvc[u], before.pvc[u]))
    && (forall key: RVKey :: key.resource == Pods ==> Lookup(after.rv, key) == Lookup(before.rv, key))
  }

  lemma RepeatStep(db: DB, op: Op)
    requires Repeats(db, op)
    ensures Unharmed(db, Apply(db, op))
  {
    if op.InsertPVC? {
      ClaimReplayIff(db, op);
    }
  }

  lemma RepeatsStill(db: DB, db': DB, op: Op)
    requires Unharmed(db, db') && Repeats(db, op)
    ensures Repeats(db', op)
  {
    if op.InsertPVC? {
      assert SameFate(db'.pvc[op.uid], db.pvc[op.uid]);
    } else if op.BindPVC? {
      assert SameFate(db'.pvc[op.uid], db.pvc[op.uid]);
    }
  }

  lemma UnharmedTwice(a: DB, b: DB, c: DB)
    requires Unharmed(a, b) && Unharmed(b, c)
    ensures Unharmed(a, c)
  {
    forall u | u in a.pvc ensures SameFate(c.pvc[u], a.pvc[u]) {
      assert SameFate(b.pvc[u], a.pvc[u]);
    }
  }

  /** Any sequence of calls that repeat what is recorded, in any interleaving of the three streams. */
  lemma {:induction false} RepeatsAreHarmless(db: DB, ops: seq<Op>)
    requires forall op :: op in ops ==> Repeats(db, op)
    ensures Unharmed(db, Run(db, ops))
  {
    if ops != [] {
      var front, op := ops[..|ops| - 1], ops[|ops| - 1];
      RepeatsAreHarmless(db, front);
      assert op in ops;
      RepeatsStill(db, Run(db, front), op);
      RepeatStep(Run(db, front), op);
      UnharmedTwice(db, Run(db, front), Run(db, ops));
    }
  }

  // ------------------------------------------------------------------ events

  /** A fresh Added event of an object that is recorded, in a state that has converged. */
  ghost predicate Recorded(db: DB, e: Event) {
    && e.Usable() && e.kind == Added
    && match e
       case PodEvent(_, p, _) => p.uid in db.pod
       case PVEvent(_, p, _) =>
         && p.uid in db.pv && Interned(db, p)
         && (p.claimRef.Some? ==> p.claimRef.value in db.pvc && db.pvc[p.claimRef.value].pvUid == Some(p.uid))
       case PVCEvent(_, p, _) =>
         && p.uid in db.pvc && db.pvc[p.uid].name == Some(p.name) && db.pvc[p.uid].createTime == Some(p.createTime)
         && Converged(db, p.name, p.uid)
  }

  lemma RecordedOps(db: DB, db': DB, ns: string, e: Event, at: Moment)
    requires Recorded(db, e)
    ensures forall op :: op in EventOps(db', ns, e, at) ==> Repeats(db, op)
  {
  }

  /**
   Re-initialisation: handling fresh Added events of recorded objects, in any order and interleaving, harms
   nothing that the tracker has learned.
   */
  lemma {:induction false} ReinitialisationIsHarmless(db: DB, ns: string, trace: seq<Handled>)
    requires forall i :: 0 <= i < |trace| ==> Recorded(db, trace[i].event)
    ensures AllHandledUsable(trace)
    ensures Unharmed(db, EventRun(db, ns, trace))
  {
    if trace != [] {
      var front, last := trace[..|trace| - 1], trace[|trace| - 1];
      ReinitialisationIsHarmless(db, ns, front);
      var db' := EventRun(db, ns, front);
      var ops := EventOps(db', ns, last.event, last.at);
      RecordedOps(db, db', ns, last.event, last.at);
      forall op | op in ops ensures Repeats(db', op) {
        RepeatsStill(db, db', op);
      }
      RepeatsAreHarmless(db', ops);
      UnharmedTwice(db, db', EventRun(db, ns, trace));
    }
  }

  /**
   Once a version was refused, the watch starts afresh whenever its stream ends: the flag is never taken back, so
   no stored version is used again and no event is skipped for having one.
   */
  lemma {:induction false} AfreshForEver(s: WatchState, ns: string, r: Resource, inputs: seq<Input>, losses: seq<nat>)
    requires AllUsable(inputs) && |losses| == |inputs|
    requires s.initialize && s.rv.None?
    ensures OnInputs(s, ns, r, inputs, losses).initialize && OnInputs(s, ns, r, inputs, losses).rv.None?
  {
    if inputs != [] {
      AfreshForEver(s, ns, r, inputs[..|inputs| - 1], losses[..|inputs| - 1]);
    }
  }
}
