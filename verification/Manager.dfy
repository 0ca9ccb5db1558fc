/**
 The MySQL-backed manager as an object: transactions run statement by statement on the tables, roll back on
 an error, absorb duplicate keys, and are retried.
 */
module Manager {
  import opened Tables
  import opened Matching
  import opened Operations

  /** What the server does to one attempt: nothing, or an error at that statement (the commit comes last). */
  datatype Fault = Healthy | FailAt(statement: nat, error: Error)

  /** A duplicate key comes from the tables alone, never from a fault. */
  ghost predicate Injectable(f: Fault) {
    f.FailAt? ==> f.error != DuplicateKey
  }

  /** Ids of the iscsi table lost to rolled-back inserts: AUTO_INCREMENT is not rolled back. */
  function LoseIds(db: DB, lost: nat): DB {
    db.(iscsi := Ids(db.iscsi.rows, db.iscsi.last + lost))
  }

  class MySQLManager {
    var pod: map<UID, PodRow>
    var container: seq<ContainerRow>
    var podMount: seq<MountRow>
    var pv: map<UID, PVRow>
    var pvc: map<UID, PVCRow>
    var nfs: Ids<NFSBackend>
    var iscsi: Ids<ISCSIBackend>
    var rv: map<RVKey, RV>

    // What the server will do to the coming attempts, and to the one that is running.
    var faults: seq<Fault>
    var pending: Fault

    constructor (faults: seq<Fault>)
      requires forall f :: f in faults ==> Injectable(f)
      ensures Valid() && Tables() == EMPTY_DB && this.faults == faults
    {
      pod, container, podMount, pv, pvc := map[], [], [], map[], map[];
      nfs, iscsi, rv := Ids([], 0), Ids([], 0), map[];
      this.faults := faults;
      pending := Healthy;
    }

    function Tables(): DB
      reads this
    {
      DB(pod, container, podMount, pv, pvc, nfs, iscsi, rv)
    }

    ghost predicate Valid()
      reads this
    {
      Injectable(pending) && forall f :: f in faults ==> Injectable(f)
    }

    /** Runs before each statement: the running attempt may be told to fail here. */
    method Statement() returns (err: Option<Error>)
      requires Valid()
      modifies this`pending
      ensures Valid() && pending.FailAt? == old(pending.FailAt?)
      ensures pending.FailAt? ==> pending.error == old(pending.error)
      ensures err == if old(pending).FailAt? && old(pending).statement == 0 then Some(pending.error) else None
      ensures err.None? && pending.FailAt? ==> pending.statement == old(pending.statement) - 1
    {
      err := None;
      if pending.FailAt? {
        if pending.statement == 0 {
          err := Some(pending.error);
        } else {
          pending := FailAt(pending.statement - 1, pending.error);
        }
      }
    }

    /** The three-tier insert of one mount. Its error is for the caller, who ignores it. */
    method InsertPodMount(uid: UID, container: string, m: VolumeMount, t: Time) returns (err: Option<Error>)
      modifies this`podMount
      ensures podMount == old(podMount) + RowsForMount(pvc, uid, container, m, t)
      ensures err.Some? <==> |Matches(pvc, m.name, t)| > 1
    {
      hide EarlierMatch, LaterMatch, ClaimedRows, Ascending;
      var claims := EarlierMatch(pvc, m.name, t);
      podMount := podMount + ClaimedRows(uid, container, m, Ascending(claims));
      if |claims| > 1 {
        return Some(OtherError);
      }
      if |claims| == 1 {
        return None;
      }
      claims := LaterMatch(pvc, m.name, t);
      podMount := podMount + ClaimedRows(uid, container, m, Ascending(claims));
      if |claims| > 1 {
        return Some(OtherError);
      }
      if |claims| == 1 {
        return None;
      }
      podMount := podMount + [UnclaimedRow(uid, container, m)];
      return None;
    }

    method InsertMounts(uid: UID, c: ContainerDesc, t: Time)
      modifies this`podMount
      ensures podMount == old(podMount) + RowsForMounts(pvc, uid, c.name, c.pvcMounts, t)
    {
      ghost var before := podMount;
      for j := 0 to |c.pvcMounts|
        invariant podMount == before + RowsForMounts(pvc, uid, c.name, c.pvcMounts[..j], t)
      {
        var _ := InsertPodMount(uid, c.name, c.pvcMounts[j], t);
        OneMoreMount(before, pvc, uid, c.name, c.pvcMounts, j, t);
      }
      assert c.pvcMounts[..|c.pvcMounts|] == c.pvcMounts;
    }

    method UpdateRV(resource: Resource, namespace: string, version: RV) returns (err: Option<Error>)
      requires Valid()
      modifies this`rv, this`pending
      ensures Valid() && pending.FailAt? == old(pending.FailAt?)
      ensures pending.FailAt? ==> pending.error == old(pending.error)
      ensures err.Some? ==> pending.FailAt? && err.value == pending.error
      ensures err.None? ==> rv == old(rv)[RVKey(resource, namespace) := version]
    {
      err := Statement();
      if err.None? {
        rv := rv[RVKey(resource, namespace) := version];
      }
    }

    method GetRV(resource: Resource, namespace: string) returns (version: Option<RV>)
      ensures version == Lookup(rv, RVKey(resource, namespace))
    {
      var key := RVKey(resource, namespace);
      version := if key in rv then Some(rv[key]) else None;
    }

    method InsertContainers(uid: UID, cs: seq<ContainerDesc>, t: Time) returns (err: Option<Error>)
      requires Valid()
      modifies this`container, this`podMount, this`pending
      ensures Valid() && pending.FailAt? == old(pending.FailAt?)
      ensures pending.FailAt? ==> pending.error == old(pending.error)
      ensures err.Some? ==> pending.FailAt? && err.value == pending.error
      ensures err.None? ==> container == old(container) + ContainerRows(uid, cs)
      ensures err.None? ==> podMount == old(podMount) + RowsForPod(pvc, uid, cs, t)
    {
      ghost var rows0, mounts0 := container, podMount;
      for i := 0 to |cs|
        invariant Valid() && pending.FailAt? == old(pending.FailAt?)
        invariant pending.FailAt? ==> pending.error == old(pending.error)
        invariant container == rows0 + ContainerRows(uid, cs[..i])
        invariant podMount == mounts0 + RowsForPod(pvc, uid, cs[..i], t)
      {
        err := Statement();
        if err.Some? { return; }
        container := container + [ContainerRow(uid, cs[i].name, cs[i].image, cs[i].command)];
        InsertMounts(uid, cs[i], t);
        OneMoreContainer(rows0, mounts0, pvc, uid, cs, i, t);
      }
      assert cs[..|cs|] == cs;
      err := None;
    }

    method ExecInsertPod(op: Op) returns (err: Option<Error>)
      requires Valid() && op.InsertPod?
      modifies this`pod, this`container, this`podMount, this`rv, this`pending
      ensures Valid() && pending.FailAt? == old(pending.FailAt?)
      ensures err.None? ==> Body(old(Tables()), op) == Done(Tables())
      ensures err.Some? ==> (pending.FailAt? && err.value == pending.error) || Body(old(Tables()), op) == Failed(err.value)
      ensures pending.FailAt? ==> pending.error == old(pending.error)
    {
      hide RowsForPod, ContainerRows;
      err := Statement();
      if err.Some? { return; }
      if op.uid in pod {
        return Some(DuplicateKey);
      }
      var row := PodRow(op.name, op.createTime, None, op.namespace, op.json);
      pod := pod[op.uid := row];
      err := InsertContainers(op.uid, op.containers, op.createTime);
      if err.Some? { return; }
      assert Tables() == WithPod(old(Tables()), op.uid, row, op.containers);
      err := UpdateRV(Pods, op.watcherNS, op.rv);
    }

    method ExecDeletePod(op: Op) returns (err: Option<Error>)
      requires Valid() && op.DeletePod?
      modifies this`pod, this`podMount, this`rv, this`pending
      ensures Valid() && pending.FailAt? == old(pending.FailAt?)
      ensures err.None? ==> Body(old(Tables()), op) == Done(Tables())
      ensures err.Some? ==> pending.FailAt? && err.value == pending.error
      ensures pending.FailAt? ==> pending.error == old(pending.error)
    {
      err := Statement();
      if err.Some? { return; }
      if op.uid in pod {
        pod := pod[op.uid := pod[op.uid].(deleteTime := Some(op.deleteTime))];
      }
      err := Statement();
      if err.Some? { return; }
      var good := Filter(GoodMount(pvc, op.uid, op.deleteTime), podMount);
      var rows := |podMount| - |good|;
      podMount := good;
      if rows > 0 {
        // The pod never came up with these claims, so none of its rows is right.
        err := Statement();
        if err.Some? { return; }
        podMount := Filter(MountNotOf(op.uid), podMount);
      }
      err := UpdateRV(Pods, op.watcherNS, op.rv);
    }

    method ExecClaim(op: Op) returns (err: Option<Error>)
      requires Valid() && op.OnClaim()
      modifies this`pvc, this`podMount, this`rv, this`pending
      ensures Valid() && pending.FailAt? == old(pending.FailAt?)
      ensures err.None? ==> Body(old(Tables()), op) == Done(Tables())
      ensures err.Some? ==> pending.FailAt? && err.value == pending.error
      ensures pending.FailAt? ==> pending.error == old(pending.error)
    {
      err := Statement();
      if err.Some? { return; }
      if op.InsertPVC? {
        pvc := pvc[op.uid := UpsertClaim(Lookup(pvc, op.uid), op)];
        err := Statement();
        if err.Some? { return; }
        podMount := AttachClaim(podMount, pod, op.uid, op.name);
      } else if op.uid in pvc {
        pvc := pvc[op.uid := if op.UpdatePVC? then UpdateClaim(pvc[op.uid], op)
                             else pvc[op.uid].(deleteTime := Some(op.deleteTime))];
      }
      err := UpdateRV(PVCs, op.watcherNS, op.rv);
    }

    method ExecVolume(op: Op) returns (err: Option<Error>)
      requires Valid() && (op.InsertPV? || op.UpdatePV? || op.DeletePV?)
      modifies this`pv, this`rv, this`pending
      ensures Valid() && pending.FailAt? == old(pending.FailAt?)
      ensures err.None? ==> Body(old(Tables()), op) == Done(Tables())
      ensures err.Some? ==> (pending.FailAt? && err.value == pending.error) || Body(old(Tables()), op) == Failed(err.value)
      ensures pending.FailAt? ==> pending.error == old(pending.error)
    {
      err := Statement();
      if err.Some? { return; }
      if op.InsertPV? {
        if op.uid in pv {
          return Some(DuplicateKey);
        }
        pv := pv[op.uid := PVRow(op.name, op.createTime, None, op.storage, op.accessModes, op.json,
                                 NfsId(op.backend, op.backendId), IscsiId(op.backend, op.backendId))];
      } else if op.uid in pv {
        if op.UpdatePV? {
          pv := pv[op.uid := pv[op.uid].(nfsId := NfsId(op.backend, op.backendId), iscsiId := IscsiId(op.backend, op.backendId),
                                         storage := op.storage, accessModes := op.accessModes, json := op.json)];
        } else {
          pv := pv[op.uid := pv[op.uid].(deleteTime := Some(op.deleteTime))];
        }
      }
      err := UpdateRV(PVs, PV_NAMESPACE, op.rv);
    }

    method ExecBind(op: Op) returns (err: Option<Error>)
      requires Valid() && op.BindPVC?
      modifies this`pvc, this`rv, this`pending
      ensures Valid() && pending.FailAt? == old(pending.FailAt?)
      ensures err.None? ==> Body(old(Tables()), op) == Done(Tables())
      ensures err.Some? ==> (pending.FailAt? && err.value == pending.error) || Body(old(Tables()), op) == Failed(err.value)
      ensures pending.FailAt? ==> pending.error == old(pending.error)
    {
      err := Statement();
      if err.Some? { return; }
      var row := UpsertBind(Lookup(pvc, op.uid), op.pvUid, op.bindTime);
      var rows := if op.uid !in pvc then 1 else if pvc[op.uid] == row then 0 else 2;
      if rows < 1 || rows > 2 {
        return Some(OtherError);
      }
      pvc := pvc[op.uid := row];
      // The version is that of the PV, which is where the bind was seen.
      err := UpdateRV(PVs, PV_NAMESPACE, op.rv);
    }

    method ExecInsertISCSI(op: Op) returns (err: Option<Error>)
      requires Valid() && op.InsertISCSI? && op.lost == 0
      modifies this`iscsi, this`pending
      ensures Valid() && pending.FailAt? == old(pending.FailAt?)
      ensures err.None? ==> Body(old(Tables()), op) == Done(Tables())
      ensures err.Some? ==> pending.FailAt? && err.value == pending.error
      ensures LosesOnlyNewIds(op, old(iscsi), iscsi)
      ensures pending.FailAt? ==> pending.error == old(pending.error)
    {
      err := Statement();
      if err.Some? { return; }
      if FindId(iscsi.rows, op.iscsi).Some? {
        return;
      }
      err := Statement();
      if err.Some? { return; }
      iscsi := Ids(iscsi.rows + [IdRow(iscsi.last + 1, op.iscsi)], iscsi.last + 1);
      err := Statement();  // SELECT LAST_INSERT_ID()
    }

    /** The body of the transaction of a call, as far as the server lets it run. */
    method Execute(op: Op) returns (err: Option<Error>)
      requires Valid() && Retried(op)
      modifies this`pod, this`container, this`podMount, this`pv, this`pvc, this`iscsi, this`rv, this`pending
      ensures Valid() && pending.FailAt? == old(pending.FailAt?)
      ensures err.None? ==> Body(old(Tables()), op) == Done(Tables())
      ensures err.Some? ==> (pending.FailAt? && err.value == pending.error) || Body(old(Tables()), op) == Failed(err.value)
      ensures LosesOnlyNewIds(op, old(iscsi), iscsi)
      ensures pending.FailAt? ==> pending.error == old(pending.error)
    {
      match op {
        case InsertPod(_, _, _, _, _, _, _, _) => err := ExecInsertPod(op);
        case DeletePod(_, _, _, _) => err := ExecDeletePod(op);
        case InsertPVC(_, _, _, _, _, _, _, _, _) => err := ExecClaim(op);
        case UpdatePVC(_, _, _, _, _, _) => err := ExecClaim(op);
        case DeletePVC(_, _, _, _) => err := ExecClaim(op);
        case InsertPV(_, _, _, _, _, _, _, _, _) => err := ExecVolume(op);
        case UpdatePV(_, _, _, _, _, _, _) => err := ExecVolume(op);
        case DeletePV(_, _, _) => err := ExecVolume(op);
        case BindPVC(_, _, _, _) => err := ExecBind(op);
        case InsertISCSI(_, _) => err := ExecInsertISCSI(op);
      }
    }

    method Begin()
      requires Valid()
      modifies this`faults, this`pending
      ensures Valid() && faults == if old(faults) == [] then [] else old(faults)[1..]
      ensures pending == if old(faults) == [] then Healthy else old(faults)[0]
    {
      if faults == [] {
        pending := Healthy;
      } else {
        pending, faults := faults[0], faults[1..];
      }
    }

    /** The body and, when it succeeds, the commit, which is the last thing that can fail. */
    method ExecuteAndCommit(op: Op) returns (err: Option<Error>)
      requires Valid() && Retried(op)
      modifies this`pod, this`container, this`podMount, this`pv, this`pvc, this`iscsi, this`rv, this`pending
      ensures Valid() && LosesOnlyNewIds(op, old(iscsi), iscsi)
      ensures err.None? ==> Body(old(Tables()), op) == Done(Tables())
      ensures err.Some? ==> (old(pending).FailAt? && err.value != DuplicateKey) || Body(old(Tables()), op) == Failed(err.value)
      ensures old(pending).FailAt? ==> err.Some?
    {
      err := Execute(op);
      if err.None? && pending.FailAt? {
        err := Some(pending.error);
      }
    }

    method Rollback(snapshot: DB)
      requires iscsi.last >= snapshot.iscsi.last
      modifies this`pod, this`container, this`podMount, this`pv, this`pvc, this`nfs, this`iscsi, this`rv
      ensures Tables() == LoseIds(snapshot, old(iscsi).last - snapshot.iscsi.last)
    {
      pod, container, podMount, pv, pvc := snapshot.pod, snapshot.container, snapshot.podMount, snapshot.pv, snapshot.pvc;
      nfs, iscsi, rv := snapshot.nfs, Ids(snapshot.iscsi.rows, iscsi.last), snapshot.rv;
    }

    /**
     One attempt: commit when the body succeeds, otherwise roll every table back; a duplicate key is no error.
     A bind that repeats the recorded one fails in every attempt and changes nothing.
     */
    method RunTxActual(op: Op) returns (err: Option<Error>, ghost lost: nat)
      requires Valid() && Retried(op)
      modifies this
      ensures Valid() && faults == if old(faults) == [] then [] else old(faults)[1..]
      ensures err.None? ==> Tables() == Apply(old(Tables()), op)
      ensures err.Some? ==> Tables() == LoseIds(old(Tables()), lost)
      ensures RepeatsBind(old(pvc), op) ==> err.Some?
      ensures err.Some? ==> (old(faults) != [] && old(faults)[0].FailAt?) || RepeatsBind(old(pvc), op)
      ensures old(faults) != [] && old(faults)[0].FailAt? ==> err.Some? || Body(old(Tables()), op) == Failed(DuplicateKey)
      ensures lost == 0 || MakesId(op, old(iscsi))
    {
      hide Body, Apply;
      BodyErrors(Tables(), op);
      BlockedIff(Tables(), op);
      var snapshot := Tables();
      Begin();
      lost := 0;
      err := ExecuteAndCommit(op);
      if err.Some? {
        lost := iscsi.last - snapshot.iscsi.last;
        Rollback(snapshot);
        if err.value == DuplicateKey {
          err := None;
        }
      }
    }

    /**
     Exactly once: however many attempts the server fails, the call ends as the body applied once to the tables
     it started from, or, for a duplicate key, with all of them unchanged, the resource version included.
     The source leaves the loop in no other way, hence the precondition.
     */
    method RunTx(op: Op) returns (ghost lost: nat)
      requires Valid() && Retried(op) && !RepeatsBind(pvc, op)
      modifies this
      ensures Valid()
      ensures Tables() == Apply(old(Tables()), WithLost(op, lost))
    {
      lost := 0;
      var success := false;
      while !success
        invariant Valid()
        invariant lost == 0 || MakesId(op, old(iscsi))
        invariant !success ==> Tables() == LoseIds(old(Tables()), lost)
        invariant success ==> Tables() == Apply(LoseIds(old(Tables()), lost), op)
        decreases !success, |faults|
      {
        var err, more := RunTxActual(op);
        if err.None? {
          success := true;
        } else {
          lost := lost + more;
        }
      }
      LostIdsAreSkipped(old(Tables()), lost, op);
    }

    /**
     The loop of RunTx, cut off after `passes` attempts: it gets out, once the server stops failing attempts, if
     and only if the call is not a bind that repeats the recorded one. Such a bind is attempted for ever.
     */
    method FirstPasses(op: Op, passes: nat) returns (success: bool, ghost lost: nat)
      requires Valid() && Retried(op)
      modifies this
      ensures Valid()
      ensures Tables() == if success then Apply(old(Tables()), WithLost(op, lost)) else LoseIds(old(Tables()), lost)
      ensures passes > old(|faults|) ==> (success <==> !RepeatsBind(old(pvc), op))
      ensures RepeatsBind(old(pvc), op) ==> !success
    {
      hide Body, Apply;
      success, lost := false, 0;
      var i := 0;
      while i < passes && !success
        invariant Valid() && i <= passes
        invariant |faults| == if |old(faults)| <= i then 0 else |old(faults)| - i
        invariant lost == 0 || MakesId(op, old(iscsi))
        invariant !success ==> Tables() == LoseIds(old(Tables()), lost)
        invariant success ==> Tables() == Apply(LoseIds(old(Tables()), lost), op)
        invariant RepeatsBind(old(pvc), op) ==> !success
        invariant i > |old(faults)| && !success ==> RepeatsBind(old(pvc), op)
      {
        var err, more := RunTxActual(op);
        if err.None? {
          success := true;
        } else {
          lost := lost + more;
        }
        i := i + 1;
      }
      LostIdsAreSkipped(old(Tables()), lost, op);
    }

    /** The id of the backend, from its row if there is one and newly made otherwise. */
    method InsertNFS(key: NFSBackend) returns (id: nat)
      modifies this`nfs
      ensures Tables() == Apply(old(Tables()), Op.InsertNFS(key, 0))
      ensures id == InternedId(old(nfs), key, 0)
    {
      var found := FindId(nfs.rows, key);
      if found.Some? {
        return found.value;
      }
      nfs := Ids(nfs.rows + [IdRow(nfs.last + 1, key)], nfs.last + 1);
      id := nfs.last;
    }

    method InsertISCSI(key: ISCSIBackend) returns (id: nat, ghost lost: nat)
      requires Valid()
      modifies this
      ensures Valid()
      ensures Tables() == Apply(old(Tables()), Op.InsertISCSI(key, lost))
      ensures id == InternedId(old(iscsi), key, lost)
    {
      lost := RunTx(Op.InsertISCSI(key, 0));
      FindAppended(old(iscsi), key, lost);
      id := FindId(iscsi.rows, key).value;
    }
  }

  /** The calls that go through the retrying wrapper; InsertNFS has a transaction of its own. */
  predicate Retried(op: Op) {
    !op.InsertNFS? && (op.InsertISCSI? ==> op.lost == 0)
  }

  /** The call inserts a new backend, so that a rolled-back attempt may use up an id. */
  predicate MakesId(op: Op, iscsi: Ids<ISCSIBackend>) {
    op.InsertISCSI? && FindId(iscsi.rows, op.iscsi).None?
  }

  predicate LosesOnlyNewIds(op: Op, before: Ids<ISCSIBackend>, after: Ids<ISCSIBackend>) {
    before.last <= after.last && (MakesId(op, before) || after == before)
  }

  function WithLost(op: Op, lost: nat): Op {
    if op.InsertISCSI? then op.(lost := lost) else op
  }

  lemma BodyErrors(db: DB, op: Op)
    ensures Body(db, op).Failed? ==> Body(db, op).error != Deadlock && !op.InsertISCSI? && Apply(db, op) == db
    ensures Body(db, op).Done? ==> Body(db, op) == Done(Apply(db, op))
  {
  }

  lemma LostIdsAreSkipped(db: DB, lost: nat, op: Op)
    requires Retried(op) && (lost == 0 || MakesId(op, db.iscsi))
    ensures Apply(LoseIds(db, lost), op) == Apply(db, WithLost(op, lost))
  {
    assert LoseIds(db, 0) == db;
  }

  lemma OneMoreMount(before: seq<MountRow>, pvc: map<UID, PVCRow>, pod: UID, c: string, ms: seq<VolumeMount>, j: nat, t: Time)
    requires j < |ms|
    ensures before + RowsForMounts(pvc, pod, c, ms[..j + 1], t)
      == before + RowsForMounts(pvc, pod, c, ms[..j], t) + RowsForMount(pvc, pod, c, ms[j], t)
  {
    hide RowsForMount;
    assert ms[..j + 1][..j] == ms[..j];
    assert RowsForMounts(pvc, pod, c, ms[..j + 1], t) == RowsForMounts(pvc, pod, c, ms[..j], t) + RowsForMount(pvc, pod, c, ms[j], t);
  }

  lemma OneMoreContainer(
    rows: seq<ContainerRow>, mounts: seq<MountRow>, pvc: map<UID, PVCRow>, pod: UID, cs: seq<ContainerDesc>, i: nat, t: Time)
    requires i < |cs|
    ensures rows + ContainerRows(pod, cs[..i + 1])
      == rows + ContainerRows(pod, cs[..i]) + [ContainerRow(pod, cs[i].name, cs[i].image, cs[i].command)]
    ensures mounts + RowsForPod(pvc, pod, cs[..i + 1], t)
      == mounts + RowsForPod(pvc, pod, cs[..i], t) + RowsForMounts(pvc, pod, cs[i].name, cs[i].pvcMounts, t)
  {
    assert cs[..i + 1][..i] == cs[..i];
  }
}
