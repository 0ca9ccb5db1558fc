/**
 What becomes of the mounts of a pod that is deleted. A deletion freezes them, so nothing that comes after it can
 correct them: this module says exactly when the order of the streams does not matter, and what is kept.
 */
module DeletedPods {
  import opened Tables
  import opened Matching
  import opened Operations
  import opened Streams
  import opened Convergence
  import opened Invariants

  function MountsOfPod(log: seq<Op>, pod: UID): seq<MountRow> {
    Filter(MountOf(pod), Run(EMPTY_DB, log).podMount)
  }

  /** Some claim with a name that the description mounts is inserted. */
  ghost predicate ClaimsOneOf(ops: seq<Op>, cs: seq<ContainerDesc>) {
    exists op :: op in ops && op.InsertPVC? && MountsName(cs, op.name)
  }

  // ------------------------------------------------------------------ without claims of their names

  /** No recorded claim has a name that the description mounts. */
  ghost predicate Unclaimed(pvc: map<UID, PVCRow>, cs: seq<ContainerDesc>) {
    forall u :: u in pvc && pvc[u].name.Some? ==> !MountsName(cs, pvc[u].name.value)
  }

  lemma NothingMatches(pvc: map<UID, PVCRow>, name: string, t: Time)
    requires forall u :: u in pvc ==> pvc[u].name != Some(name)
    ensures Matches(pvc, name, t) == {}
  {
  }

  lemma {:induction false} RowsForMountsUnclaimed(
    pvc: map<UID, PVCRow>, pod: UID, container: string, ms: seq<VolumeMount>, t: Time)
    requires forall u, j :: u in pvc && 0 <= j < |ms| ==> pvc[u].name != Some(ms[j].name)
    ensures RowsForMounts(pvc, pod, container, ms, t) == RowsForMounts(map[], pod, container, ms, t)
  {
    if ms != [] {
      var last := ms[|ms| - 1];
      RowsForMountsUnclaimed(pvc, pod, container, ms[..|ms| - 1], t);
      NothingMatches(pvc, last.name, t);
      NothingMatches(map[], last.name, t);
    }
  }

  /** The rows are then those of a database without any claims. */
  lemma {:induction false} RowsForPodUnclaimed(pvc: map<UID, PVCRow>, pod: UID, cs: seq<ContainerDesc>, t: Time)
    requires Unclaimed(pvc, cs)
    ensures RowsForPod(pvc, pod, cs, t) == RowsForPod(map[], pod, cs, t)
  {
    if cs != [] {
      var front, c := cs[..|cs| - 1], cs[|cs| - 1];
      forall u, j | u in pvc && 0 <= j < |c.pvcMounts| ensures pvc[u].name != Some(c.pvcMounts[j].name) {
        assert MountsName(cs, c.pvcMounts[j].name);
      }
      forall name | MountsName(front, name) ensures MountsName(cs, name) {
        var i, j :| 0 <= i < |front| && 0 <= j < |front[i].pvcMounts| && front[i].pvcMounts[j].name == name;
        assert cs[i].pvcMounts[j].name == name;
      }
      RowsForPodUnclaimed(pvc, pod, front, t);
      RowsForMountsUnclaimed(pvc, pod, c.name, c.pvcMounts, t);
    }
  }

  lemma RowsForPodBlank(pod: UID, cs: seq<ContainerDesc>, t: Time)
    ensures forall m :: m in RowsForPod(map[], pod, cs, t) ==> m.pvcUid.None?
  {
    forall m | m in RowsForPod(map[], pod, cs, t) ensures m.pvcUid.None? {
      RowsForPodBelong(map[], pod, cs, t, m);
      NothingMatches(map[], m.pvcName, t);
    }
  }

  lemma {:induction false} RowsForMountsNames(
    pvc: map<UID, PVCRow>, pod: UID, container: string, ms: seq<VolumeMount>, t: Time, m: MountRow)
    requires m in RowsForMounts(pvc, pod, container, ms, t)
    ensures exists j :: 0 <= j < |ms| && ms[j].name == m.pvcName
  {
    if m in RowsForMounts(pvc, pod, container, ms[..|ms| - 1], t) {
      RowsForMountsNames(pvc, pod, container, ms[..|ms| - 1], t, m);
      var j :| 0 <= j < |ms| - 1 && ms[..|ms| - 1][j].name == m.pvcName;
      assert ms[j].name == m.pvcName;
    } else {
      RowsForMountBelong(pvc, pod, container, ms[|ms| - 1], t, m);
      assert ms[|ms| - 1].name == m.pvcName;
    }
  }

  /** A pod's rows have only names that its description mounts. */
  lemma {:induction false} RowsForPodNames(pvc: map<UID, PVCRow>, pod: UID, cs: seq<ContainerDesc>, t: Time, m: MountRow)
    requires m in RowsForPod(pvc, pod, cs, t)
    ensures MountsName(cs, m.pvcName)
  {
    var front, c := cs[..|cs| - 1], cs[|cs| - 1];
    if m in RowsForPod(pvc, pod, front, t) {
      RowsForPodNames(pvc, pod, front, t, m);
      var i, j :| 0 <= i < |front| && 0 <= j < |front[i].pvcMounts| && front[i].pvcMounts[j].name == m.pvcName;
      assert cs[i].pvcMounts[j].name == m.pvcName;
    } else {
      RowsForMountsNames(pvc, pod, c.name, c.pvcMounts, t, m);
      var j :| 0 <= j < |c.pvcMounts| && c.pvcMounts[j].name == m.pvcName;
      assert cs[|cs| - 1].pvcMounts[j].name == m.pvcName;
    }
  }

  /** Before its insert the pod has no rows; from then on it has blank ones, whatever happens. */
  ghost predicate BlankSince(db: DB, pod: UID, ins: Option<Op>) {
    match ins
    case None => pod !in db.pod && Filter(MountOf(pod), db.podMount) == []
    case Some(op) =>
      && op.InsertPod? && pod in db.pod
      && Filter(MountOf(pod), db.podMount) == RowsForPod(map[], pod, op.containers, op.createTime)
  }

  lemma BlankAfterPodInsert(db: DB, op: Op, pod: UID, ins: Option<Op>)
    requires BlankSince(db, pod, ins) && op.InsertPod?
    requires ins.None? && op.uid == pod ==> Unclaimed(db.pvc, op.containers)
    ensures BlankSince(Apply(db, op), pod, if ins.None? && op.uid == pod then Some(op) else ins)
  {
    hide Filter, RowsForPod, Unclaimed, ContainerRows;
    if op.uid !in db.pod {
      RowsAfterPodInsert(db, op, pod);
      if op.uid == pod {
        RowsForPodUnclaimed(db.pvc, pod, op.containers, op.createTime);
        assert [] + RowsForPod(db.pvc, pod, op.containers, op.createTime) == RowsForPod(db.pvc, pod, op.containers, op.createTime);
      }
    }
  }

  /** Blank rows are never bad, so that a deletion keeps them. */
  lemma BlankAfterDelete(mounts: seq<MountRow>, pvc: map<UID, PVCRow>, deleted: UID, t: Time, pod: UID)
    requires forall m :: m in Filter(MountOf(pod), mounts) ==> m.pvcUid.None?
    ensures Filter(MountOf(pod), CleanMounts(mounts, pvc, deleted, t)) == Filter(MountOf(pod), mounts)
  {
    FilterCleaned(mounts, pvc, deleted, t, pod);
    FilterMembers(MountOf(pod), mounts);
    if pod == deleted {
      CleanMountsMeaning(mounts, pvc, pod, t);
      assert forall m :: m in mounts && IsBadMount(pvc, pod, t, m) ==> m in Filter(MountOf(pod), mounts);
    }
  }

  /** A claim of another name does not touch them. */
  lemma BlankAfterClaim(mounts: seq<MountRow>, pods: map<UID, PodRow>, claim: UID, name: string, pod: UID)
    requires forall m :: m in Filter(MountOf(pod), mounts) ==> m.pvcName != name
    ensures Filter(MountOf(pod), AttachClaim(mounts, pods, claim, name)) == Filter(MountOf(pod), mounts)
  {
    FilterAttach(mounts, pods, claim, name, pod);
    var mine := Filter(MountOf(pod), mounts);
    assert forall i :: 0 <= i < |mine| ==> mine[i] in mine;
  }

  lemma BlankStep(db: DB, op: Op, pod: UID, ins: Option<Op>)
    requires BlankSince(db, pod, ins)
    requires ins.None? && op.InsertPod? && op.uid == pod ==> Unclaimed(db.pvc, op.containers)
    requires ins.Some? && ins.value.InsertPod? && op.InsertPVC? ==> !MountsName(ins.value.containers, op.name)
    ensures BlankSince(Apply(db, op), pod, if ins.None? && op.InsertPod? && op.uid == pod then Some(op) else ins)
  {
    hide Filter, RowsForPod, Unclaimed;
    if op.InsertPod? {
      BlankAfterPodInsert(db, op, pod, ins);
    } else {
      if ins.Some? {
        RowsForPodBlank(pod, ins.value.containers, ins.value.createTime);
        forall m | m in RowsForPod(map[], pod, ins.value.containers, ins.value.createTime)
          ensures MountsName(ins.value.containers, m.pvcName)
        {
          RowsForPodNames(map[], pod, ins.value.containers, ins.value.createTime, m);
        }
      }
      if op.DeletePod? {
        BlankAfterDelete(db.podMount, db.pvc, op.uid, op.deleteTime, pod);
      } else if op.InsertPVC? {
        BlankAfterClaim(db.podMount, db.pod, op.uid, op.name, pod);
      }
    }
  }

  lemma UnclaimedInLog(log: seq<Op>, cs: seq<ContainerDesc>)
    requires !ClaimsOneOf(log, cs)
    ensures Unclaimed(Run(EMPTY_DB, log).pvc, cs)
  {
    ClaimsComeFromLog(log);
    var pvc := Run(EMPTY_DB, log).pvc;
    forall u | u in pvc && pvc[u].name.Some? ensures !MountsName(cs, pvc[u].name.value) {
      var op :| op in log && IsInsertOf(op, u, pvc[u]);
    }
  }

  /** While no claim of their names is inserted, a pod's mounts are blank, in every interleaving. */
  lemma {:induction false} BlankMounts(log: seq<Op>, pod: UID, cs: seq<ContainerDesc>)
    requires !ClaimsOneOf(log, cs)
    requires FirstInsert(log, pod).Some? ==> FirstInsert(log, pod).value.containers == cs
    ensures BlankSince(Run(EMPTY_DB, log), pod, FirstInsert(log, pod))
  {
    if log != [] {
      var front, op := log[..|log| - 1], log[|log| - 1];
      assert log == front + [op];
      assert !ClaimsOneOf(front, cs);
      BlankMounts(front, pod, cs);
      UnclaimedInLog(front, cs);
      BlankStep(Run(EMPTY_DB, front), op, pod, FirstInsert(front, pod));
    }
  }

  // ------------------------------------------------------------------ with a claim of one of their names

  /** The pod's mounts of that name are all on some claim. */
  ghost predicate Named(mounts: seq<MountRow>, pod: UID, name: string) {
    forall m :: m in mounts && m.podUid == pod && m.pvcName == name ==> m.pvcUid.Some?
  }

  /** Once they are, they stay so: no call takes a mount off every claim, and the pod is not inserted again. */
  lemma NamedStep(db: DB, op: Op, pod: UID, name: string)
    requires pod in db.pod && Named(db.podMount, pod, name)
    ensures pod in Apply(db, op).pod && Named(Apply(db, op).podMount, pod, name)
  {
    match op
    case InsertPod(uid, _, t, _, cs, _, _, _) =>
      if uid !in db.pod {
        forall m | m in RowsForPod(db.pvc, uid, cs, t) ensures m.podUid != pod {
          RowsForPodBelong(db.pvc, uid, cs, t, m);
        }
      }
    case DeletePod(uid, t, _, _) =>
      CleanMountsKeepsOthers(db.podMount, db.pvc, uid, t);
    case InsertPVC(uid, other, _, _, _, _, _, _, _) =>
      var mounts := AttachClaim(db.podMount, db.pod, uid, other);
      forall m | m in mounts && m.podUid == pod && m.pvcName == name ensures m.pvcUid.Some? {
        var i :| 0 <= i < |mounts| && m == mounts[i];
        assert db.podMount[i] in db.podMount;
      }
    case _ =>
  }

  lemma {:induction false} NamedRun(db: DB, ops: seq<Op>, pod: UID, name: string)
    requires pod in db.pod && Named(db.podMount, pod, name)
    ensures pod in Run(db, ops).pod && Named(Run(db, ops).podMount, pod, name)
  {
    if ops != [] {
      NamedRun(db, ops[..|ops| - 1], pod, name);
      NamedStep(Run(db, ops[..|ops| - 1]), ops[|ops| - 1], pod, name);
    }
  }

  lemma {:induction false} ClaimsKeepPods(db: DB, claims: seq<Op>)
    requires forall op :: op in claims ==> op.OnClaim()
    ensures Run(db, claims).pod == db.pod
  {
    if claims != [] {
      ClaimsKeepPods(db, claims[..|claims| - 1]);
      assert claims[|claims| - 1].OnClaim();
    }
  }

  lemma ClaimArrives(db: DB, op: Op, pod: UID)
    requires LivePod(db.pod, pod) && op.InsertPVC?
    ensures pod in Apply(db, op).pod && Named(Apply(db, op).podMount, pod, op.name)
  {
    NewestArrives(db, op, pod, true);
  }

  /** Claims that arrive while the pod lives leave none of its mounts of their names blank. */
  lemma ClaimsReachLivePod(db: DB, claims: seq<Op>, i: nat, after: seq<Op>, pod: UID)
    requires LivePod(db.pod, pod) && i < |claims| && claims[i].InsertPVC?
    requires forall op :: op in claims ==> op.OnClaim()
    ensures Named(Run(db, claims + after).podMount, pod, claims[i].name)
  {
    hide Apply, LivePod, Named, AllOn;
    var before, op, rest := claims[..i], claims[i], claims[i + 1..] + after;
    ClaimsKeepPods(db, before);
    ClaimArrives(Run(db, before), op, pod);
    RunLast(db, before, op);
    NamedRun(Apply(Run(db, before), op), rest, pod, op.name);
    RunConcat(db, before + [op], rest);
    assert before + [op] + rest == claims + after;
  }

  // ------------------------------------------------------------------ when the order does not matter

  lemma {:induction false} FirstInsertOfStream(log: seq<Op>, pod: UID)
    ensures FirstInsert(log, pod) == FirstInsert(Filter(PodOps(), log), pod)
  {
    if log != [] {
      var front, op := log[..|log| - 1], log[|log| - 1];
      assert log == front + [op];
      FirstInsertOfStream(front, pod);
      hide Filter, FirstInsert;
      FilterLast(PodOps(), front, op);
      FirstInsertLast(front, op, pod);
      FirstInsertLast(Filter(PodOps(), front), op, pod);
    }
  }

  lemma {:induction false} FirstInsertFound(pods: seq<Op>, k: nat, n: nat)
    requires FirstInsertAt(pods, k) && n <= |pods|
    ensures FirstInsert(pods[..n], pods[k].uid) == if k < n then Some(pods[k]) else None
  {
    if n > 0 {
      FirstInsertFound(pods, k, n - 1);
      assert pods[..n][..n - 1] == pods[..n - 1];
    }
  }

  /** Without claims, the mounts of the pod are blank after any prefix of its stream. */
  lemma PodsAreBlank(pods: seq<Op>, k: nat, n: nat)
    requires FirstInsertAt(pods, k) && n <= |pods|
    requires forall op :: op in pods ==> op.OnPod()
    ensures BlankSince(Run(EMPTY_DB, pods[..n]), pods[k].uid, if k < n then Some(pods[k]) else None)
  {
    FirstInsertFound(pods, k, n);
    forall op | op in pods[..n] ensures !op.InsertPVC? {
      assert op.OnPod();
    }
    BlankMounts(pods[..n], pods[k].uid, pods[k].containers);
  }

  lemma RecordedOnceInserted(pods: seq<Op>, k: nat, n: nat)
    requires FirstInsertAt(pods, k) && k < n <= |pods|
    requires forall op :: op in pods ==> op.OnPod()
    ensures pods[k].uid in Run(EMPTY_DB, pods[..n]).pod
  {
    PodsAreBlank(pods, k, n);
  }

  lemma DeadStaysDead(db: DB, op: Op, pod: UID)
    requires DeadPod(db, pod)
    ensures DeadPod(Apply(db, op), pod)
  {
  }

  lemma DeadOnceDeleted(db: DB, op: Op)
    requires op.DeletePod? && op.uid in db.pod
    ensures DeadPod(Apply(db, op), op.uid)
  {
  }

  /** The pod is recorded after its insert, and dead after its deletion. */
  lemma {:induction false} DeadByEnd(pods: seq<Op>, k: nat, j: nat, n: nat)
    requires FirstInsertAt(pods, k) && k < j < n <= |pods| && pods[j].DeletePod? && pods[j].uid == pods[k].uid
    requires forall op :: op in pods ==> op.OnPod()
    ensures DeadPod(Run(EMPTY_DB, pods[..n]), pods[k].uid)
  {
    hide Apply, DeadPod, BlankSince;
    var db := Run(EMPTY_DB, pods[..n - 1]);
    assert pods[..n][..n - 1] == pods[..n - 1];
    if n == j + 1 {
      RecordedOnceInserted(pods, k, j);
      DeadOnceDeleted(db, pods[j]);
    } else {
      DeadByEnd(pods, k, j, n - 1);
      DeadStaysDead(db, pods[n - 1], pods[k].uid);
    }
  }

  /** All pods before all claims: the mounts stay blank for good. */
  lemma PodsFirst(pods: seq<Op>, claims: seq<Op>, volumes: seq<Op>, k: nat, j: nat)
    requires ThreeStreams(pods, claims, volumes)
    requires FirstInsertAt(pods, k) && k < j < |pods| && pods[j].DeletePod? && pods[j].uid == pods[k].uid
    ensures MountsOfPod(pods + claims + volumes, pods[k].uid)
      == RowsForPod(map[], pods[k].uid, pods[k].containers, pods[k].createTime)
  {
    forall op | op in pods ensures op.OnPod() {
      assert PodOps()(op);
    }
    assert pods[..|pods|] == pods;
    DeadByEnd(pods, k, j, |pods|);
    PodsAreBlank(pods, k, |pods|);
    forall op | op in claims + volumes ensures !op.DeletePod? {
      assert op in claims ==> ClaimOps()(op);
      assert op in volumes ==> VolumeOps()(op);
    }
    DeadPodsAreFrozen(Run(EMPTY_DB, pods), claims + volumes, pods[k].uid);
    RunConcat(EMPTY_DB, pods, claims + volumes);
    assert pods + (claims + volumes) == pods + claims + volumes;
  }

  /** All claims right after the pod's insert: no mount with the name of one of them is blank. */
  lemma ClaimsAfterInsert(pods: seq<Op>, claims: seq<Op>, volumes: seq<Op>, k: nat, i: nat)
    requires ThreeStreams(pods, claims, volumes)
    requires FirstInsertAt(pods, k) && i < |claims| && claims[i].InsertPVC?
    ensures Named(Run(EMPTY_DB, pods[..k + 1] + claims + volumes + pods[k + 1..]).podMount, pods[k].uid, claims[i].name)
  {
    var before, pod, after := pods[..k + 1], pods[k].uid, volumes + pods[k + 1..];
    forall op | op in pods ensures op.OnPod() {
      assert PodOps()(op);
    }
    forall op | op in claims ensures op.OnClaim() {
      assert ClaimOps()(op);
    }
    PodsAreBlank(pods, k, k);
    assert before[..k] == pods[..k];
    assert LivePod(Run(EMPTY_DB, before).pod, pod);
    ClaimsReachLivePod(Run(EMPTY_DB, before), claims, i, after, pod);
    RunConcat(EMPTY_DB, before, claims + after);
    assert before + (claims + after) == before + claims + volumes + pods[k + 1..];
  }

  /** With a claim of one of its names, the two orders differ. */
  lemma OrderMatters(pods: seq<Op>, claims: seq<Op>, volumes: seq<Op>, k: nat, j: nat)
    requires ThreeStreams(pods, claims, volumes)
    requires FirstInsertAt(pods, k) && k < j < |pods| && pods[j].DeletePod? && pods[j].uid == pods[k].uid
    requires ClaimsOneOf(claims, pods[k].containers)
    ensures MountsOfPod(pods + claims + volumes, pods[k].uid)
      != MountsOfPod(pods[..k + 1] + claims + volumes + pods[k + 1..], pods[k].uid)
  {
    var pod, cs, t := pods[k].uid, pods[k].containers, pods[k].createTime;
    var op :| op in claims && op.InsertPVC? && MountsName(cs, op.name);
    var i :| 0 <= i < |claims| && claims[i] == op;
    var a, b :| 0 <= a < |cs| && 0 <= b < |cs[a].pvcMounts| && cs[a].pvcMounts[b].name == op.name;
    PodsFirst(pods, claims, volumes, k, j);
    ClaimsAfterInsert(pods, claims, volumes, k, i);
    RowsForPodCover(map[], pod, cs, t, a, b);
    var m :| m in RowsForPod(map[], pod, cs, t) && m.pvcName == op.name;
    RowsForPodBlank(pod, cs, t);
    RowsForPodBelong(map[], pod, cs, t, m);
    FilterMembers(MountOf(pod), Run(EMPTY_DB, pods[..k + 1] + claims + volumes + pods[k + 1..]).podMount);
  }

  lemma OrderDoesNotMatter(log: seq<Op>, pods: seq<Op>, claims: seq<Op>, volumes: seq<Op>, k: nat)
    requires Interleaving(log, pods, claims, volumes) && FirstInsertAt(pods, k)
    requires !ClaimsOneOf(claims, pods[k].containers)
    ensures MountsOfPod(log, pods[k].uid) == RowsForPod(map[], pods[k].uid, pods[k].containers, pods[k].createTime)
  {
    assert pods[..|pods|] == pods;
    FirstInsertFound(pods, k, |pods|);
    FirstInsertOfStream(log, pods[k].uid);
    FilterMembers(ClaimOps(), log);
    assert !ClaimsOneOf(log, pods[k].containers) by {
      assert forall op :: op in log && op.InsertPVC? ==> op in claims;
    }
    BlankMounts(log, pods[k].uid, pods[k].containers);
  }

  /**
   The mounts of a pod that is deleted are the same in all interleavings if and only if no claim is inserted under
   a name that its containers mount. So a deleted pod converges only when it uses no claim: whatever arrives after
   its deletion comes too late.
   */
  lemma DeletedPodAgreesIff(pods: seq<Op>, claims: seq<Op>, volumes: seq<Op>, k: nat, j: nat)
    requires ThreeStreams(pods, claims, volumes)
    requires FirstInsertAt(pods, k) && k < j < |pods| && pods[j].DeletePod? && pods[j].uid == pods[k].uid
    ensures (forall log1, log2 :: Interleaving(log1, pods, claims, volumes) && Interleaving(log2, pods, claims, volumes) ==>
      MountsOfPod(log1, pods[k].uid) == MountsOfPod(log2, pods[k].uid)) <==> !ClaimsOneOf(claims, pods[k].containers)
  {
    if ClaimsOneOf(claims, pods[k].containers) {
      OrderMatters(pods, claims, volumes, k, j);
      ClaimsAmidPods(pods, claims, volumes, k + 1);
      ClaimsAmidPods(pods, claims, volumes, |pods|);
      assert pods[..|pods|] + claims + volumes + pods[|pods|..] == pods + claims + volumes;
    } else {
      forall log1, log2 | Interleaving(log1, pods, claims, volumes) && Interleaving(log2, pods, claims, volumes)
        ensures MountsOfPod(log1, pods[k].uid) == MountsOfPod(log2, pods[k].uid)
      {
        OrderDoesNotMatter(log1, pods, claims, volumes, k);
        OrderDoesNotMatter(log2, pods, claims, volumes, k);
      }
    }
  }

  // ------------------------------------------------------------------ what a deletion keeps

  /** A dead pod's mounts are not moved off a claim, and not put back. */
  lemma {:induction false} DeadKeepsOn(db: DB, ops: seq<Op>, pod: UID, name: string, c: UID)
    requires DeadPod(db, pod) && AllOn(db.podMount, pod, name, c)
    ensures DeadPod(Run(db, ops), pod) && AllOn(Run(db, ops).podMount, pod, name, c)
  {
    if ops != [] {
      hide Apply, AllOn, DeadPod;
      DeadKeepsOn(db, ops[..|ops| - 1], pod, name, c);
      DeadKeepsOnStep(Run(db, ops[..|ops| - 1]), ops[|ops| - 1], pod, name, c);
    }
  }

  lemma DeadKeepsOnStep(db: DB, op: Op, pod: UID, name: string, c: UID)
    requires DeadPod(db, pod) && AllOn(db.podMount, pod, name, c)
    ensures DeadPod(Apply(db, op), pod) && AllOn(Apply(db, op).podMount, pod, name, c)
  {
    DeadStaysDead(db, op, pod);
    if op.DeletePod? {
      CleanMountsKeepsOthers(db.podMount, db.pvc, op.uid, op.deleteTime);
    } else {
      DeadPodStep(db, op, pod);
      FilterMembers(MountOf(pod), db.podMount);
      FilterMembers(MountOf(pod), Apply(db, op).podMount);
      assert forall m :: m in Apply(db, op).podMount && m.podUid == pod ==> m in Filter(MountOf(pod), Apply(db, op).podMount);
    }
  }

  /**
   What a deleted pod does converge on: if it was settled on the claims recorded when its deletion was handled, its
   mounts are and stay on the newest of those, in every interleaving before and after.
   */
  lemma SettledBeforeDeletion(before: seq<Op>, delete: Op, after: seq<Op>, k: nat, name: string, c: UID)
    requires Scene(before, k, name, c)
    requires Settled(Run(EMPTY_DB, Filter(ClaimOps(), before)).pvc, name, c, Filter(PodOps(), before)[k].createTime)
    requires delete.DeletePod? && delete.uid == Filter(PodOps(), before)[k].uid
    ensures AllOn(Run(EMPTY_DB, before + [delete] + after).podMount, delete.uid, name, c)
  {
    var db, pod := Run(EMPTY_DB, before), delete.uid;
    SettledConverges(before, k, name, c);
    assert before + [] == before;
    PhaseAfter(before, [], k, name, c);
    CleanMountsKeepsOthers(db.podMount, db.pvc, pod, delete.deleteTime);
    RunLast(EMPTY_DB, before, delete);
    DeadKeepsOn(Apply(db, delete), after, pod, name, c);
    RunConcat(EMPTY_DB, before + [delete], after);
  }

  // ------------------------------------------------------------------ examples

  /** The pod has a mount of that name. */
  ghost predicate HasMount(mounts: seq<MountRow>, pod: UID, name: string) {
    exists m :: m in mounts && m.podUid == pod && m.pvcName == name
  }

  lemma PodHasMount(db: DB, p: Op, name: string)
    requires p.InsertPod? && p.uid !in db.pod && MountsName(p.containers, name)
    ensures HasMount(Apply(db, p).podMount, p.uid, name)
  {
    var i, j :| 0 <= i < |p.containers| && 0 <= j < |p.containers[i].pvcMounts| && p.containers[i].pvcMounts[j].name == name;
    RowsForPodCover(db.pvc, p.uid, p.containers, p.createTime, i, j);
    var m :| m in RowsForPod(db.pvc, p.uid, p.containers, p.createTime) && m.pvcName == name;
    RowsForPodBelong(db.pvc, p.uid, p.containers, p.createTime, m);
    assert m in Apply(db, p).podMount;
  }

  lemma ClaimKeepsMount(db: DB, op: Op, pod: UID, name: string)
    requires op.OnClaim() && HasMount(db.podMount, pod, name)
    ensures HasMount(Apply(db, op).podMount, pod, name)
  {
    var m :| m in db.podMount && m.podUid == pod && m.pvcName == name;
    var i :| 0 <= i < |db.podMount| && db.podMount[i] == m;
    assert Apply(db, op).podMount[i].podUid == pod && Apply(db, op).podMount[i].pvcName == name;
  }

  lemma OneClaimIsLegal(a: Op)
    requires a.InsertPVC?
    ensures ClaimStream([a]) && Newest(Run(EMPTY_DB, [a]).pvc, a.name, a.uid)
    ensures Run(EMPTY_DB, [a]).pvc == map[a.uid := UpsertClaim(None, a)]
  {
    RunOne(EMPTY_DB, a);
    assert [a][..0] == [];
  }

  /** A pod that lived while its only claim existed, settled on it. */
  ghost predicate Overlaps(a: Op, p: Op, d: Op) {
    && a.InsertPVC? && p.InsertPod? && d.DeletePod? && d.uid == p.uid
    && MountsName(p.containers, a.name) && a.createTime <= p.createTime <= d.deleteTime
  }

  /** In the one order the pod keeps its claim. */
  lemma ClaimInTime(a: Op, p: Op, d: Op)
    requires Overlaps(a, p, d)
    ensures HasMount(Run(EMPTY_DB, [a, p, d]).podMount, p.uid, a.name)
    ensures AllOn(Run(EMPTY_DB, [a, p, d]).podMount, p.uid, a.name, a.uid)
  {
    var db := Run(EMPTY_DB, [a]);
    OneClaimIsLegal(a);
    RunOne(EMPTY_DB, a);
    RunTwo(EMPTY_DB, a, p);
    RunLast(EMPTY_DB, [a, p], d);
    assert [a, p] + [d] == [a, p, d];
    MatchIsPreferred(db.pvc, a.name, p.createTime, Some(a.uid));
    PodArrives(db, p, a.name, a.uid);
    PodHasMount(db, p, a.name);
    DeletionDropsOrKeeps(Apply(db, p), d);
  }

  /**
   Missed: the pod and its only claim are settled, yet if the claim's event comes after the pod's deletion the
   mounts stay without a claim for good, where in the other order they are on it.
   */
  lemma MissedByDeletion(a: Op, p: Op, d: Op)
    requires Overlaps(a, p, d)
    ensures ClaimStream([a]) && Newest(Run(EMPTY_DB, [a]).pvc, a.name, a.uid)
    ensures Settled(Run(EMPTY_DB, [a]).pvc, a.name, a.uid, p.createTime)
    ensures Interleaving([a, p, d], [p, d], [a], []) && Interleaving([p, d, a], [p, d], [a], [])
    ensures AllOn(Run(EMPTY_DB, [a, p, d]).podMount, p.uid, a.name, a.uid)
    ensures HasMount(Run(EMPTY_DB, [p, d, a]).podMount, p.uid, a.name)
    ensures forall m :: m in Run(EMPTY_DB, [p, d, a]).podMount && m.podUid == p.uid ==> m.pvcUid.None?
  {
    OneClaimIsLegal(a);
    assert Settled(Run(EMPTY_DB, [a]).pvc, a.name, a.uid, p.createTime);
    ClaimInTime(a, p, d);
    hide *;
    MissedInterleaves(a, p, d);
    LateClaim(a, p, d);
  }

  lemma MissedInterleaves(a: Op, p: Op, d: Op)
    requires a.OnClaim() && p.OnPod() && d.OnPod()
    ensures Interleaving([a, p, d], [p, d], [a], []) && Interleaving([p, d, a], [p, d], [a], [])
  {
    var pods := [p, d];
    ClaimsAmidPods(pods, [a], [], 0);
    ClaimsAmidPods(pods, [a], [], 2);
    assert pods[..0] + [a] + [] + pods[0..] == [a, p, d] && pods[..2] + [a] + [] + pods[2..] == [p, d, a];
  }

  lemma LateClaim(a: Op, p: Op, d: Op)
    requires Overlaps(a, p, d)
    ensures HasMount(Run(EMPTY_DB, [p, d, a]).podMount, p.uid, a.name)
    ensures forall m :: m in Run(EMPTY_DB, [p, d, a]).podMount && m.podUid == p.uid ==> m.pvcUid.None?
  {
    var pods := [p, d];
    PodsFirst(pods, [a], [], 0, 1);
    assert pods + [a] + [] == [p, d, a];
    BlankHasMount(Run(EMPTY_DB, [p, d, a]).podMount, p, a.name);
  }

  /** What blank rows of the pod say about its mounts. */
  lemma BlankHasMount(mounts: seq<MountRow>, p: Op, name: string)
    requires p.InsertPod? && MountsName(p.containers, name)
    requires Filter(MountOf(p.uid), mounts) == RowsForPod(map[], p.uid, p.containers, p.createTime)
    ensures HasMount(mounts, p.uid, name)
    ensures forall m :: m in mounts && m.podUid == p.uid ==> m.pvcUid.None?
  {
    var i, j :| 0 <= i < |p.containers| && 0 <= j < |p.containers[i].pvcMounts| && p.containers[i].pvcMounts[j].name == name;
    RowsForPodCover(map[], p.uid, p.containers, p.createTime, i, j);
    RowsForPodBlank(p.uid, p.containers, p.createTime);
    FilterMembers(MountOf(p.uid), mounts);
  }

  /**
   Stuck: an old claim is gone before the new one and the pod are made, so the pod is settled on the new one. When
   the pod's own events are handled around the insert of the old claim, before the rest of the claims, its mounts
   are on the dead claim for good.
   */
  lemma StuckOnTheDead(a: Op, b: Op, c: Op, p: Op, d: Op, name: string)
    requires Replaced(a, b, c, name)
    requires p.InsertPod? && MountsName(p.containers, name) && d.DeletePod? && d.uid == p.uid
    requires c.createTime <= p.createTime <= d.deleteTime
    ensures ClaimStream([a, b, c]) && Newest(Run(EMPTY_DB, [a, b, c]).pvc, name, c.uid)
    ensures Settled(Run(EMPTY_DB, [a, b, c]).pvc, name, c.uid, p.createTime)
    ensures Interleaving([p, a, d, b, c], [p, d], [a, b, c], [])
    ensures HasMount(Run(EMPTY_DB, [p, a, d, b, c]).podMount, p.uid, name)
    ensures AllOn(Run(EMPTY_DB, [p, a, d, b, c]).podMount, p.uid, name, a.uid)
  {
    ReplacedIsLegal(a, b, c, name);
    ReplacedRows(a, b, c, name);
    StuckInterleaves(a, b, c, p, d);
    OnDeadClaim(a, p, d);
    var db := Run(EMPTY_DB, [p, a, d]);
    assert forall op :: op in [b, c] ==> !op.DeletePod?;
    DeadPodsAreFrozen(db, [b, c], p.uid);
    RunConcat(EMPTY_DB, [p, a, d], [b, c]);
    assert [p, a, d] + [b, c] == [p, a, d, b, c];
    FilterMembers(MountOf(p.uid), db.podMount);
    FilterMembers(MountOf(p.uid), Run(db, [b, c]).podMount);
    SameMounts(db.podMount, Run(db, [b, c]).podMount, p.uid, name, a.uid);
  }

  lemma SameMounts(mounts: seq<MountRow>, mounts': seq<MountRow>, pod: UID, name: string, c: UID)
    requires Filter(MountOf(pod), mounts) == Filter(MountOf(pod), mounts')
    ensures HasMount(mounts, pod, name) ==> HasMount(mounts', pod, name)
    ensures AllOn(mounts, pod, name, c) ==> AllOn(mounts', pod, name, c)
  {
    FilterMembers(MountOf(pod), mounts);
    FilterMembers(MountOf(pod), mounts');
    forall m | m in mounts && m.podUid == pod ensures m in mounts' {
      assert m in Filter(MountOf(pod), mounts');
    }
    forall m | m in mounts' && m.podUid == pod ensures m in mounts {
      assert m in Filter(MountOf(pod), mounts);
    }
  }

  lemma FilterFive<T>(f: T -> bool, v: T, w: T, x: T, y: T, z: T)
    ensures Filter(f, [v, w, x, y, z]) == (if f(v) then [v] else []) + (if f(w) then [w] else [])
      + (if f(x) then [x] else []) + (if f(y) then [y] else []) + (if f(z) then [z] else [])
  {
    hide Filter;
    FilterConcat(f, [v, w] + [x, y], [z]);
    FilterConcat(f, [v, w], [x, y]);
    FilterPair(f, v, w);
    FilterPair(f, x, y);
    FilterOne(f, z);
    assert [v, w] + [x, y] + [z] == [v, w, x, y, z];
    assert (if f(x) then [x] else []) + (if f(y) then [y] else []) == Filter(f, [x, y]);
  }

  lemma FilterOne<T>(f: T -> bool, x: T)
    ensures Filter(f, [x]) == if f(x) then [x] else []
  {
    FilterLast(f, [], x);
    assert [] + [x] == [x];
  }

  lemma StuckInterleaves(a: Op, b: Op, c: Op, p: Op, d: Op)
    requires a.OnClaim() && b.OnClaim() && c.OnClaim() && p.OnPod() && d.OnPod()
    ensures Interleaving([p, a, d, b, c], [p, d], [a, b, c], [])
  {
    hide Filter;
    FilterFive(PodOps(), p, a, d, b, c);
    FilterFive(ClaimOps(), p, a, d, b, c);
    FilterFive(VolumeOps(), p, a, d, b, c);
  }

  /** The pod, its claim, and the pod's deletion, in this order. */
  lemma OnDeadClaim(a: Op, p: Op, d: Op)
    requires a.InsertPVC? && p.InsertPod? && d.DeletePod? && d.uid == p.uid
    requires MountsName(p.containers, a.name) && a.createTime <= d.deleteTime
    ensures DeadPod(Run(EMPTY_DB, [p, a, d]), p.uid)
    ensures HasMount(Run(EMPTY_DB, [p, a, d]).podMount, p.uid, a.name)
    ensures AllOn(Run(EMPTY_DB, [p, a, d]).podMount, p.uid, a.name, a.uid)
  {
    var db1 := Apply(EMPTY_DB, p);
    var db2 := Apply(db1, a);
    RunTwo(EMPTY_DB, p, a);
    RunLast(EMPTY_DB, [p, a], d);
    assert [p, a] + [d] == [p, a, d];
    PodHasMount(EMPTY_DB, p, a.name);
    ClaimKeepsMount(db1, a, p.uid, a.name);
    NewestArrives(db1, a, p.uid, true);
    DeletionDropsOrKeeps(db2, d);
  }

  /** An unsettled pod: it was made while the old claim still existed, so it does not converge on the new one. */
  lemma UnsettledOccurs(a: Op, b: Op, c: Op, p: Op, name: string)
    requires Replaced(a, b, c, name)
    requires p.InsertPod? && MountsName(p.containers, name) && p.createTime <= b.deleteTime
    ensures ClaimStream([a, b, c]) && Newest(Run(EMPTY_DB, [a, b, c]).pvc, name, c.uid)
    ensures !Settled(Run(EMPTY_DB, [a, b, c]).pvc, name, c.uid, p.createTime)
    ensures Interleaving([a, b, c, p], [p], [a, b, c], [])
    ensures !AllOn(Run(EMPTY_DB, [a, b, c, p]).podMount, p.uid, name, c.uid)
  {
    ReplacedIsLegal(a, b, c, name);
    ReplacedRows(a, b, c, name);
    var pvc := Run(EMPTY_DB, [a, b, c]).pvc;
    assert pvc[a.uid].deleteTime == Some(b.deleteTime) && pvc[a.uid].name == Some(name) && a.uid != c.uid;
    assert !Settled(pvc, name, c.uid, p.createTime);
    InSequence([p], [a, b, c], []);
    UnsettledDiverges([p], [a, b, c], [], 0, name, c.uid);
    assert [a, b, c] + [] + [p] == [a, b, c, p];
  }
}
