/**
 What holds in every state that any run of calls reaches: mounts refer to claims of their name, a deleted pod
 refers to no claim made after its deletion, and every pod keeps exactly the rows that its description asks for.
 */
module Invariants {
  import opened Tables
  import opened Matching
  import opened Operations
  import opened Convergence

  // ------------------------------------------------------------------ assumptions on a log

  /** All inserts of one claim uid carry one name and one create time. */
  ghost predicate StableClaims(log: seq<Op>) {
    forall i, j | 0 <= i < |log| && 0 <= j < |log| && log[i].InsertPVC? && log[j].InsertPVC? ::
      log[i].uid == log[j].uid ==> log[i].name == log[j].name && log[i].createTime == log[j].createTime
  }

  /** No two claims share both name and create time. */
  ghost predicate NoTies(log: seq<Op>) {
    forall i, j | 0 <= i < |log| && 0 <= j < |log| && log[i].InsertPVC? && log[j].InsertPVC? ::
      log[i].name == log[j].name && log[i].createTime == log[j].createTime ==> log[i].uid == log[j].uid
  }

  ghost predicate IsInsertOf(op: Op, u: UID, r: PVCRow) {
    op.InsertPVC? && op.uid == u && r.name == Some(op.name) && r.createTime == Some(op.createTime)
  }

  /** A claim row is a stub, or has its identity from an insert in the log. */
  ghost predicate ClaimsFromLog(pvc: map<UID, PVCRow>, log: seq<Op>) {
    forall u :: u in pvc ==> (pvc[u].name.None? && pvc[u].createTime.None?) || exists op :: op in log && IsInsertOf(op, u, pvc[u])
  }

  lemma ClaimsFromLogStep(db: DB, log: seq<Op>, op: Op)
    requires ClaimsFromLog(db.pvc, log)
    ensures ClaimsFromLog(Apply(db, op).pvc, log + [op])
  {
    var pvc := Apply(db, op).pvc;
    forall u | u in pvc
      ensures (pvc[u].name.None? && pvc[u].createTime.None?) || exists o :: o in log + [op] && IsInsertOf(o, u, pvc[u])
    {
      if op.InsertPVC? && op.uid == u {
        assert op in log + [op] && IsInsertOf(op, u, pvc[u]);
      } else if u in db.pvc && db.pvc[u].name.Some? {
        var o :| o in log && IsInsertOf(o, u, db.pvc[u]);
        assert o in log + [op] && IsInsertOf(o, u, pvc[u]);
      }
    }
  }

  lemma {:induction false} ClaimsComeFromLog(log: seq<Op>)
    ensures ClaimsFromLog(Run(EMPTY_DB, log).pvc, log)
  {
    if log != [] {
      var front, op := log[..|log| - 1], log[|log| - 1];
      assert log == front + [op];
      ClaimsComeFromLog(front);
      ClaimsFromLogStep(Run(EMPTY_DB, front), front, op);
    }
  }

  /** Without ties in the log there are none in the table. */
  lemma NoTiesNoTies(log: seq<Op>, name: string)
    requires NoTies(log)
    ensures Untied(Run(EMPTY_DB, log).pvc, name)
  {
    ClaimsComeFromLog(log);
    var pvc := Run(EMPTY_DB, log).pvc;
    forall u, v | u in pvc && v in pvc && pvc[u].name == pvc[v].name == Some(name)
      ensures pvc[u].createTime.Some? && pvc[u].createTime == pvc[v].createTime ==> u == v
    {
      var a :| a in log && IsInsertOf(a, u, pvc[u]);
      var b :| b in log && IsInsertOf(b, v, pvc[v]);
    }
  }

  /** An insert in a stable log finds a row with its own identity, if it finds one that has any. */
  lemma InsertKeepsIdentity(log: seq<Op>, op: Op)
    requires StableClaims(log + [op]) && op.InsertPVC?
    ensures KeepsIdentity(Run(EMPTY_DB, log).pvc, op)
  {
    ClaimsComeFromLog(log);
    var pvc := Run(EMPTY_DB, log).pvc;
    if op.uid in pvc && pvc[op.uid].name.Some? {
      var o :| o in log && IsInsertOf(o, op.uid, pvc[op.uid]);
      var i :| 0 <= i < |log| && log[i] == o;
      assert (log + [op])[i] == o && (log + [op])[|log|] == op;
    }
  }

  // ------------------------------------------------------------------ references

  predicate KeepsIdentity(pvc: map<UID, PVCRow>, op: Op)
    requires op.InsertPVC?
  {
    op.uid in pvc && pvc[op.uid].name.Some? ==> pvc[op.uid].name.value == op.name && pvc[op.uid].createTime == Some(op.createTime)
  }

  /** The mount's pod is recorded, and its claim, if any, is one of that name, made no later than the pod's deletion. */
  predicate GoodReference(pod: map<UID, PodRow>, pvc: map<UID, PVCRow>, m: MountRow) {
    && m.podUid in pod
    && (m.pvcUid.Some? ==>
      && m.pvcUid.value in pvc
      && pvc[m.pvcUid.value].name == Some(m.pvcName)
      && pvc[m.pvcUid.value].createTime.Some?
      && (pod[m.podUid].deleteTime.Some? ==> pvc[m.pvcUid.value].createTime.value <= pod[m.podUid].deleteTime.value))
  }

  ghost predicate GoodReferences(db: DB) {
    forall m :: m in db.podMount ==> GoodReference(db.pod, db.pvc, m)
  }

  lemma ReferencesAfterPodInsert(db: DB, op: Op)
    requires GoodReferences(db) && op.InsertPod?
    ensures GoodReferences(Apply(db, op))
  {
    if op.uid !in db.pod {
      forall m | m in RowsForPod(db.pvc, op.uid, op.containers, op.createTime)
        ensures GoodReference(Apply(db, op).pod, db.pvc, m)
      {
        RowsForPodBelong(db.pvc, op.uid, op.containers, op.createTime, m);
        if m.pvcUid.Some? {
          StubsNeverMatch(db.pvc, m.pvcName, op.createTime, m.pvcUid.value);
        }
      }
    }
  }

  lemma ReferencesAfterPodDelete(db: DB, op: Op)
    requires GoodReferences(db) && op.DeletePod?
    ensures GoodReferences(Apply(db, op))
  {
    var db' := Apply(db, op);
    CleanMountsMeaning(db.podMount, db.pvc, op.uid, op.deleteTime);
    FilterMembers(MountNotOf(op.uid), db.podMount);
    forall m | m in db'.podMount ensures GoodReference(db'.pod, db'.pvc, m) {
      assert m in db.podMount;
      assert m.podUid == op.uid ==> !IsBadMount(db.pvc, op.uid, op.deleteTime, m);
    }
  }

  lemma ReferencesAfterClaimInsert(db: DB, op: Op)
    requires GoodReferences(db) && op.InsertPVC? && KeepsIdentity(db.pvc, op)
    ensures GoodReferences(Apply(db, op))
  {
    var db' := Apply(db, op);
    forall m | m in db'.podMount ensures GoodReference(db'.pod, db'.pvc, m) {
      var i :| 0 <= i < |db'.podMount| && db'.podMount[i] == m;
      assert db.podMount[i] in db.podMount;
    }
  }

  lemma ReferencesStep(db: DB, op: Op)
    requires GoodReferences(db) && (op.InsertPVC? ==> KeepsIdentity(db.pvc, op))
    ensures GoodReferences(Apply(db, op))
  {
    match op
    case InsertPod(_, _, _, _, _, _, _, _) => ReferencesAfterPodInsert(db, op);
    case DeletePod(_, _, _, _) => ReferencesAfterPodDelete(db, op);
    case InsertPVC(_, _, _, _, _, _, _, _, _) => ReferencesAfterClaimInsert(db, op);
    case _ =>
      forall m | m in db.podMount ensures GoodReference(Apply(db, op).pod, Apply(db, op).pvc, m) {
        assert GoodReference(db.pod, db.pvc, m);
      }
  }

  /**
   Deleted-pod safety, and the soundness of every claim reference, in every reachable state: the log may be any
   interleaving, with redelivered and out-of-order events.
   */
  lemma {:induction false} ReferencesAreGood(log: seq<Op>)
    requires StableClaims(log)
    ensures GoodReferences(Run(EMPTY_DB, log))
  {
    if log != [] {
      var front, op := log[..|log| - 1], log[|log| - 1];
      assert log == front + [op];
      assert StableClaims(front) by {
        assert forall i :: 0 <= i < |front| ==> front[i] == log[i];
      }
      ReferencesAreGood(front);
      if op.InsertPVC? {
        InsertKeepsIdentity(front, op);
      }
      ReferencesStep(Run(EMPTY_DB, front), op);
    }
  }

  // ------------------------------------------------------------------ a deleted pod is left alone

  predicate DeadPod(db: DB, pod: UID) {
    pod in db.pod && db.pod[pod].deleteTime.Some?
  }

  lemma {:induction false} FilterAttach(mounts: seq<MountRow>, pods: map<UID, PodRow>, claim: UID, name: string, pod: UID)
    ensures Filter(MountOf(pod), AttachClaim(mounts, pods, claim, name)) == AttachClaim(Filter(MountOf(pod), mounts), pods, claim, name)
  {
    if mounts != [] {
      var front := mounts[..|mounts| - 1];
      FilterAttach(front, pods, claim, name, pod);
      assert AttachClaim(mounts, pods, claim, name)[..|mounts| - 1] == AttachClaim(front, pods, claim, name);
    }
  }

  lemma FilterCleaned(mounts: seq<MountRow>, pvc: map<UID, PVCRow>, deleted: UID, t: Time, pod: UID)
    ensures Filter(MountOf(pod), CleanMounts(mounts, pvc, deleted, t)) == Filter(MountOf(pod), mounts)
      || (pod == deleted && Filter(MountOf(pod), CleanMounts(mounts, pvc, deleted, t)) == [])
  {
    CleanMountsMeaning(mounts, pvc, deleted, t);
    if pod != deleted {
      FilterFilter(MountOf(pod), MountNotOf(deleted), MountOf(pod), mounts);
    } else {
      FilterMembers(MountNotOf(deleted), mounts);
      FilterAll(MountOf(pod), Filter(MountNotOf(deleted), mounts));
    }
  }

  lemma FilterAdded(mounts: seq<MountRow>, pvc: map<UID, PVCRow>, added: UID, cs: seq<ContainerDesc>, t: Time, pod: UID)
    ensures Filter(MountOf(pod), mounts + RowsForPod(pvc, added, cs, t))
      == if pod == added then Filter(MountOf(pod), mounts) + RowsForPod(pvc, added, cs, t) else Filter(MountOf(pod), mounts)
  {
    var rows := RowsForPod(pvc, added, cs, t);
    FilterConcat(MountOf(pod), mounts, rows);
    forall m | m in rows ensures m.podUid == added {
      RowsForPodBelong(pvc, added, cs, t, m);
    }
    FilterAll(MountOf(pod), rows);
  }

  lemma DeadPodStep(db: DB, op: Op, pod: UID)
    requires DeadPod(db, pod) && (op.DeletePod? ==> op.uid != pod)
    ensures DeadPod(Apply(db, op), pod)
    ensures Filter(MountOf(pod), Apply(db, op).podMount) == Filter(MountOf(pod), db.podMount)
  {
    match op
    case InsertPod(uid, _, t, _, cs, _, _, _) =>
      FilterAdded(db.podMount, db.pvc, uid, cs, t, pod);
    case DeletePod(uid, t, _, _) =>
      FilterCleaned(db.podMount, db.pvc, uid, t, pod);
    case InsertPVC(uid, name, _, _, _, _, _, _, _) =>
      FilterAttach(db.podMount, db.pod, uid, name, pod);
      FilterMembers(MountOf(pod), db.podMount);
      var mine := Filter(MountOf(pod), db.podMount);
      assert forall i :: 0 <= i < |mine| ==> mine[i] in mine;
    case _ =>
  }

  /** Whatever arrives later, claims included, the mounts of a deleted pod stay what its deletion left. */
  lemma {:induction false} DeadPodsAreFrozen(db: DB, ops: seq<Op>, pod: UID)
    requires DeadPod(db, pod)
    requires forall op :: op in ops && op.DeletePod? ==> op.uid != pod
    ensures DeadPod(Run(db, ops), pod)
    ensures Filter(MountOf(pod), Run(db, ops).podMount) == Filter(MountOf(pod), db.podMount)
  {
    if ops != [] {
      DeadPodsAreFrozen(db, ops[..|ops| - 1], pod);
      DeadPodStep(Run(db, ops[..|ops| - 1]), ops[|ops| - 1], pod);
    }
  }

  // ------------------------------------------------------------------ conservation of mounts and containers

  /** What a mount row says apart from the claim that it is matched with. */
  datatype Shape = Shape(container: string, name: string, readOnly: bool)

  function Shapes(rows: seq<MountRow>): seq<Shape> {
    seq(|rows|, i requires 0 <= i < |rows| => Shape(rows[i].containerName, rows[i].pvcName, rows[i].readOnly))
  }

  function ShapesOfContainer(container: string, ms: seq<VolumeMount>): seq<Shape> {
    seq(|ms|, i requires 0 <= i < |ms| => Shape(container, ms[i].name, ms[i].readOnly))
  }

  /** The mounts that the description of a pod lists. */
  function ShapesOfPod(cs: seq<ContainerDesc>): seq<Shape> {
    if cs == [] then [] else
      ShapesOfPod(cs[..|cs| - 1]) + ShapesOfContainer(cs[|cs| - 1].name, cs[|cs| - 1].pvcMounts)
  }

  lemma ShapesConcat(rows: seq<MountRow>, a: seq<MountRow>, b: seq<MountRow>)
    requires rows == a + b
    ensures Shapes(rows) == Shapes(a) + Shapes(b)
  {
  }

  lemma ShapesForMount(pvc: map<UID, PVCRow>, pod: UID, container: string, m: VolumeMount, t: Time)
    requires Untied(pvc, m.name)
    ensures Shapes(RowsForMount(pvc, pod, container, m, t)) == [Shape(container, m.name, m.readOnly)]
  {
    var _ := OneRowPerMount(pvc, pod, container, m, t);
  }

  lemma ShapesOfContainerLast(container: string, ms: seq<VolumeMount>, m: VolumeMount)
    ensures ShapesOfContainer(container, ms + [m]) == ShapesOfContainer(container, ms) + [Shape(container, m.name, m.readOnly)]
  {
  }

  lemma {:induction false} ShapesForMounts(pvc: map<UID, PVCRow>, pod: UID, container: string, ms: seq<VolumeMount>, t: Time)
    requires forall name :: Untied(pvc, name)
    ensures Shapes(RowsForMounts(pvc, pod, container, ms, t)) == ShapesOfContainer(container, ms)
  {
    if ms != [] {
      hide RowsForMount, Shapes;
      var front, last := ms[..|ms| - 1], ms[|ms| - 1];
      assert ms == front + [last];
      ShapesOfContainerLast(container, front, last);
      ShapesForMounts(pvc, pod, container, front, t);
      ShapesForMount(pvc, pod, container, last, t);
      ShapesConcat(RowsForMounts(pvc, pod, container, ms, t), RowsForMounts(pvc, pod, container, front, t),
                   RowsForMount(pvc, pod, container, last, t));
    }
  }

  lemma {:induction false} ShapesForPod(pvc: map<UID, PVCRow>, pod: UID, cs: seq<ContainerDesc>, t: Time)
    requires forall name :: Untied(pvc, name)
    ensures Shapes(RowsForPod(pvc, pod, cs, t)) == ShapesOfPod(cs)
  {
    if cs != [] {
      hide RowsForMounts, Untied, Shapes;
      var front, c := cs[..|cs| - 1], cs[|cs| - 1];
      ShapesForPod(pvc, pod, front, t);
      ShapesForMounts(pvc, pod, c.name, c.pvcMounts, t);
      ShapesConcat(RowsForPod(pvc, pod, cs, t), RowsForPod(pvc, pod, front, t),
                   RowsForMounts(pvc, pod, c.name, c.pvcMounts, t));
    }
  }

  function ContainerOf(pod: UID): ContainerRow -> bool {
    (c: ContainerRow) => c.podUid == pod
  }

  lemma FilterContainers(rows: seq<ContainerRow>, added: UID, cs: seq<ContainerDesc>, pod: UID)
    ensures Filter(ContainerOf(pod), rows + ContainerRows(added, cs))
      == if pod == added then Filter(ContainerOf(pod), rows) + ContainerRows(added, cs) else Filter(ContainerOf(pod), rows)
  {
    FilterConcat(ContainerOf(pod), rows, ContainerRows(added, cs));
    FilterAll(ContainerOf(pod), ContainerRows(added, cs));
  }

  /** The insert that a pod's row comes from: the first one, since later ones hit its key. */
  function FirstInsert(log: seq<Op>, pod: UID): (r: Option<Op>)
    ensures r.Some? ==> r.value.InsertPod? && r.value.uid == pod
  {
    if log == [] then None else
      var earlier := FirstInsert(log[..|log| - 1], pod);
      var op := log[|log| - 1];
      if earlier.Some? then earlier else if op.InsertPod? && op.uid == pod then Some(op) else None
  }

  lemma FirstInsertLast(log: seq<Op>, op: Op, pod: UID)
    ensures FirstInsert(log + [op], pod)
      == if FirstInsert(log, pod).Some? then FirstInsert(log, pod) else if op.InsertPod? && op.uid == pod then Some(op) else None
  {
    assert (log + [op])[..|log|] == log;
  }

  /** One row per container of the description, in order, with what the description says of it. */
  ghost predicate RecordsContainers(rows: seq<ContainerRow>, pod: UID, cs: seq<ContainerDesc>) {
    && |rows| == |cs|
    && forall i :: 0 <= i < |cs| ==>
        && rows[i].podUid == pod && rows[i].name == cs[i].name
        && rows[i].image == cs[i].image && rows[i].command == cs[i].command
  }

  ghost predicate Conserved(db: DB, pod: UID, ins: Option<Op>) {
    var mounts, containers := Filter(MountOf(pod), db.podMount), Filter(ContainerOf(pod), db.container);
    match ins
    case None => pod !in db.pod && mounts == [] && containers == []
    case Some(op) =>
      && op.InsertPod? && pod in db.pod
      && RecordsContainers(containers, pod, op.containers)
      && (Shapes(mounts) == ShapesOfPod(op.containers) || (mounts == [] && db.pod[pod].deleteTime.Some?))
  }

  lemma RowsAfterPodInsert(db: DB, op: Op, pod: UID)
    requires op.InsertPod? && op.uid !in db.pod
    ensures Filter(MountOf(pod), Apply(db, op).podMount) == Filter(MountOf(pod), db.podMount)
      + if op.uid == pod then RowsForPod(db.pvc, pod, op.containers, op.createTime) else []
    ensures Filter(ContainerOf(pod), Apply(db, op).container) == Filter(ContainerOf(pod), db.container)
      + if op.uid == pod then ContainerRows(pod, op.containers) else []
    ensures op.uid in Apply(db, op).pod && (pod != op.uid ==> Lookup(Apply(db, op).pod, pod) == Lookup(db.pod, pod))
  {
    hide RowsForPod, Filter;
    FilterAdded(db.podMount, db.pvc, op.uid, op.containers, op.createTime, pod);
    FilterContainers(db.container, op.uid, op.containers, pod);
  }

  /** Nothing that concerns the pod has changed. */
  lemma ConservedStill(db: DB, db': DB, pod: UID, ins: Option<Op>)
    requires Conserved(db, pod, ins)
    requires Filter(MountOf(pod), db'.podMount) == Filter(MountOf(pod), db.podMount)
    requires Filter(ContainerOf(pod), db'.container) == Filter(ContainerOf(pod), db.container)
    requires Lookup(db'.pod, pod) == Lookup(db.pod, pod)
    ensures Conserved(db', pod, ins)
  {
    hide Filter, Shapes, ShapesOfPod, RecordsContainers;
  }

  lemma ConservedAtFirst(db: DB, op: Op)
    requires op.InsertPod? && op.uid !in db.pod && Conserved(db, op.uid, None)
    requires forall name :: Untied(db.pvc, name)
    ensures Conserved(Apply(db, op), op.uid, Some(op))
  {
    hide RowsForPod, Shapes, ShapesOfPod, Filter, ContainerRows, Apply;
    RowsAfterPodInsert(db, op, op.uid);
    assert [] + RowsForPod(db.pvc, op.uid, op.containers, op.createTime) == RowsForPod(db.pvc, op.uid, op.containers, op.createTime);
    assert [] + ContainerRows(op.uid, op.containers) == ContainerRows(op.uid, op.containers);
    ShapesForPod(db.pvc, op.uid, op.containers, op.createTime);
  }

  lemma ConservedAfterPodInsert(db: DB, op: Op, pod: UID, ins: Option<Op>)
    requires Conserved(db, pod, ins) && op.InsertPod?
    requires forall name :: Untied(db.pvc, name)
    ensures Conserved(Apply(db, op), pod, if ins.None? && op.uid == pod then Some(op) else ins)
  {
    hide Filter, Shapes, ShapesOfPod, RecordsContainers, RowsForPod, WithPod;
    if op.uid !in db.pod {
      if op.uid == pod {
        ConservedAtFirst(db, op);
      } else {
        RowsAfterPodInsert(db, op, pod);
        ConservedStill(db, Apply(db, op), pod, ins);
      }
    }
  }

  lemma ConservedStep(db: DB, op: Op, pod: UID, ins: Option<Op>)
    requires Conserved(db, pod, ins)
    requires forall name :: Untied(db.pvc, name)
    ensures Conserved(Apply(db, op), pod, if ins.None? && op.InsertPod? && op.uid == pod then Some(op) else ins)
  {
    match op
    case InsertPod(_, _, _, _, _, _, _, _) =>
      ConservedAfterPodInsert(db, op, pod, ins);
    case DeletePod(uid, t, _, _) =>
      FilterCleaned(db.podMount, db.pvc, uid, t, pod);
    case InsertPVC(uid, name, _, _, _, _, _, _, _) =>
      FilterAttach(db.podMount, db.pod, uid, name, pod);
      var mine := Filter(MountOf(pod), db.podMount);
      assert Shapes(AttachClaim(mine, db.pod, uid, name)) == Shapes(mine);
    case _ =>
  }

  /**
   Conservation: in every reachable state a pod has one `container` row per container of its first insert, and
   one `pod_mount` row per mount with its container, claim name and read-only flag, in order; only a deletion can
   drop the mount rows, and then all of them. Redelivered inserts add nothing.
   */
  lemma {:induction false} MountsAreConserved(log: seq<Op>, pod: UID)
    requires NoTies(log)
    ensures Conserved(Run(EMPTY_DB, log), pod, FirstInsert(log, pod))
  {
    if log != [] {
      var front, op := log[..|log| - 1], log[|log| - 1];
      assert log == front + [op];
      assert NoTies(front) by {
        assert forall i :: 0 <= i < |front| ==> front[i] == log[i];
      }
      MountsAreConserved(front, pod);
      forall name ensures Untied(Run(EMPTY_DB, front).pvc, name) {
        NoTiesNoTies(front, name);
      }
      ConservedStep(Run(EMPTY_DB, front), op, pod, FirstInsert(front, pod));
    }
  }
}
