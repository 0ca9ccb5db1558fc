/**
 Eventual convergence of `pod_mount`: pods name claims, not uids, so a mount may point to a wrong incarnation of
 its claim, or to none, while the streams catch up. This module says exactly when every interleaving ends with
 the mounts of a pod on the newest incarnation.
 */
module Convergence {
  import opened Tables
  import opened Matching
  import opened Operations
  import opened Streams

  // ------------------------------------------------------------------ the claim stream

  /**
   What the API server guarantees of one claim event, given the claims so far: names are unique among the claims
   that exist, and a claim is updated or deleted only while it exists.
   */
  ghost predicate LegalClaimOp(pvc: map<UID, PVCRow>, op: Op) {
    match op
    case InsertPVC(uid, name, t, _, _, _, _, _, _) =>
      uid !in pvc && forall v :: v in pvc && pvc[v].name == Some(name) ==> DeletedRow(pvc[v]) && BornBefore(pvc[v], t)
    case UpdatePVC(uid, _, _, _, _, _) => uid in pvc
    case DeletePVC(uid, t, _, _) => uid in pvc && !DeletedRow(pvc[uid]) && BornBefore(pvc[uid], t + 1)
    case _ => false
  }

  predicate DeletedRow(r: PVCRow) { r.deleteTime.Some? }

  predicate BornBefore(r: PVCRow, t: Time) { r.createTime.Some? && r.createTime.value < t }

  ghost predicate ClaimStream(claims: seq<Op>) {
    forall i :: 0 <= i < |claims| ==> LegalClaimOp(Run(EMPTY_DB, claims[..i]).pvc, claims[i])
  }

  /** What every legal claim stream has: claims of one name follow one another and never overlap. */
  ghost predicate Serial(pvc: map<UID, PVCRow>) {
    && (forall u :: u in pvc ==> pvc[u].name.Some? && pvc[u].createTime.Some?)
    && (forall u :: u in pvc && DeletedRow(pvc[u]) ==> pvc[u].createTime.value <= pvc[u].deleteTime.value)
    && (forall u, v :: u in pvc && v in pvc && u != v && pvc[u].name == pvc[v].name ==> InOrder(pvc[u], pvc[v]))
  }

  predicate InOrder(r: PVCRow, s: PVCRow)
    requires r.createTime.Some? && s.createTime.Some?
  {
    || (r.createTime.value < s.createTime.value && DeletedRow(r))
    || (s.createTime.value < r.createTime.value && DeletedRow(s))
  }

  /** `later` is what the claims of `earlier` have become: identities are kept and a recorded deletion is final. */
  ghost predicate Evolves(earlier: map<UID, PVCRow>, later: map<UID, PVCRow>) {
    forall u :: u in earlier ==> u in later && SameClaim(earlier[u], later[u])
  }

  predicate SameClaim(r: PVCRow, s: PVCRow) {
    r.name == s.name && r.createTime == s.createTime && (r.deleteTime.Some? ==> r.deleteTime == s.deleteTime)
  }

  predicate SameIdentity(r: PVCRow, s: PVCRow) {
    r.name == s.name && r.createTime == s.createTime && r.deleteTime == s.deleteTime
  }

  /** `c` is the newest claim of that name. */
  ghost predicate Newest(pvc: map<UID, PVCRow>, name: string, c: UID) {
    && c in pvc && pvc[c].name == Some(name) && pvc[c].createTime.Some?
    && forall v :: v in pvc && v != c && pvc[v].name == Some(name) ==> BornBefore(pvc[v], pvc[c].createTime.value)
  }

  /** The condition, on the recorded claims alone: see ConvergesIff. */
  predicate Settled(pvc: map<UID, PVCRow>, name: string, c: UID, t: Time)
    requires c in pvc && pvc[c].createTime.Some?
  {
    if pvc[c].createTime.value <= t then
      pvc[c].deleteTime.None? || pvc[c].deleteTime.value >= t
    else
      forall v | v in pvc && v != c && pvc[v].name == Some(name) :: pvc[v].deleteTime.Some? && pvc[v].deleteTime.value < t
  }

  lemma ClaimStreamPrefix(claims: seq<Op>, op: Op)
    requires ClaimStream(claims + [op])
    ensures ClaimStream(claims) && LegalClaimOp(Run(EMPTY_DB, claims).pvc, op)
  {
    var all := claims + [op];
    forall i | 0 <= i < |claims| ensures LegalClaimOp(Run(EMPTY_DB, claims[..i]).pvc, claims[i]) {
      assert all[i] == claims[i] && all[..i] == claims[..i];
    }
    assert all[|claims|] == op && all[..|claims|] == claims;
  }

  lemma ClaimStreamInsertsFirst(claims: seq<Op>)
    requires ClaimStream(claims)
    ensures InsertedFirst(claims)
  {
    forall i | 0 <= i < |claims| && (claims[i].UpdatePVC? || claims[i].DeletePVC?)
      ensures claims[i].uid in Run(EMPTY_DB, claims[..i]).pvc
    {
      assert LegalClaimOp(Run(EMPTY_DB, claims[..i]).pvc, claims[i]);
    }
  }

  /** A legal claim event changes only its own claim. */
  lemma OnlyOwnClaim(db: DB, op: Op)
    requires LegalClaimOp(db.pvc, op)
    ensures op.OnClaim()
    ensures op.uid in Apply(db, op).pvc && forall u :: u != op.uid ==> Lookup(Apply(db, op).pvc, u) == Lookup(db.pvc, u)
    ensures op.uid in db.pvc ==> !op.InsertPVC? && SameClaim(db.pvc[op.uid], Apply(db, op).pvc[op.uid])
  {
  }

  lemma LegalEvolves(db: DB, op: Op)
    requires LegalClaimOp(db.pvc, op)
    ensures Evolves(db.pvc, Apply(db, op).pvc)
  {
    hide Apply, LegalClaimOp, SameClaim;
    OnlyOwnClaim(db, op);
    forall u | u in db.pvc ensures u in Apply(db, op).pvc && SameClaim(db.pvc[u], Apply(db, op).pvc[u]) {
      if u != op.uid {
        assert Lookup(Apply(db, op).pvc, u) == Lookup(db.pvc, u);
        SameAsItself(db.pvc[u]);
      }
    }
  }

  lemma SameAsItself(r: PVCRow)
    ensures SameClaim(r, r)
  {
  }

  /** What one legal claim event does to the recorded claims. */
  lemma LegalStep(db: DB, op: Op)
    requires LegalClaimOp(db.pvc, op) && Serial(db.pvc)
    ensures Serial(Apply(db, op).pvc) && Evolves(db.pvc, Apply(db, op).pvc)
  {
    LegalEvolves(db, op);
    var pvc := Apply(db, op).pvc;
    assert forall u :: u in pvc && u != op.uid ==> u in db.pvc && pvc[u] == db.pvc[u];
  }

  lemma {:induction false} ClaimStreamIsSerial(claims: seq<Op>)
    requires ClaimStream(claims)
    ensures Serial(Run(EMPTY_DB, claims).pvc)
  {
    if claims != [] {
      var front, op := claims[..|claims| - 1], claims[|claims| - 1];
      assert claims == front + [op];
      ClaimStreamPrefix(front, op);
      ClaimStreamIsSerial(front);
      LegalStep(Run(EMPTY_DB, front), op);
    }
  }

  lemma {:induction false} ClaimStreamEvolves(first: seq<Op>, rest: seq<Op>)
    requires ClaimStream(first + rest)
    ensures ClaimStream(first)
    ensures Evolves(Run(EMPTY_DB, first).pvc, Run(EMPTY_DB, first + rest).pvc)
  {
    if rest == [] {
      assert first + rest == first;
    } else {
      var front, op := rest[..|rest| - 1], rest[|rest| - 1];
      assert first + rest == (first + front) + [op];
      ClaimStreamPrefix(first + front, op);
      ClaimStreamEvolves(first, front);
      ClaimStreamIsSerial(first + front);
      LegalStep(Run(EMPTY_DB, first + front), op);
      RunLast(EMPTY_DB, first + front, op);
    }
  }

  // ------------------------------------------------------------------ the match when the newest claim is in

  /** The claim columns that the matching reads are those of the claims alone. */
  lemma MergedReads(pvc: map<UID, PVCRow>, claims: map<UID, PVCRow>, stubs: map<UID, PVCRow>, u: UID)
    requires MergedClaims(pvc, claims, stubs)
    ensures u in claims ==> u in pvc && SameIdentity(pvc[u], claims[u])
    ensures u in pvc && u !in claims ==> pvc[u].name.None? && pvc[u].createTime.None?
  {
    assert Lookup(pvc, u) == MergeRow(Lookup(claims, u), Lookup(stubs, u));
  }

  lemma MergedUntied(pvc: map<UID, PVCRow>, claims: map<UID, PVCRow>, stubs: map<UID, PVCRow>, name: string)
    requires MergedClaims(pvc, claims, stubs) && Serial(claims)
    ensures Untied(pvc, name)
  {
    forall u, v | u in pvc && v in pvc && pvc[u].name == pvc[v].name == Some(name)
      ensures pvc[u].createTime.Some? && pvc[u].createTime == pvc[v].createTime ==> u == v
    {
      MergedReads(pvc, claims, stubs, u);
      MergedReads(pvc, claims, stubs, v);
    }
  }

  /** Once the newest claim is in, a settled pod's mounts are matched with it. */
  lemma SettledMatches(pvc: map<UID, PVCRow>, claims: map<UID, PVCRow>, stubs: map<UID, PVCRow>,
                       final: map<UID, PVCRow>, name: string, c: UID, t: Time)
    requires MergedClaims(pvc, claims, stubs) && Serial(claims) && Serial(final) && Evolves(claims, final)
    requires c in claims && Newest(final, name, c) && Settled(final, name, c, t)
    ensures Matches(pvc, name, t) == {c}
  {
    MergedUntied(pvc, claims, stubs, name);
    MergedReads(pvc, claims, stubs, c);
    forall v | v in pvc && v != c && pvc[v].name == Some(name)
      ensures v in claims && BornBefore(pvc[v], pvc[c].createTime.value) && DeletedRow(pvc[v])
      ensures final[c].createTime.value > t ==> pvc[v].deleteTime.value < t
    {
      MergedReads(pvc, claims, stubs, v);
      assert SameClaim(claims[v], final[v]) && SameClaim(claims[c], final[c]);
      assert InOrder(claims[v], claims[c]);
    }
    assert SameClaim(claims[c], final[c]);
    if final[c].createTime.value <= t {
      assert LatestAlive(pvc, name, t, c);
    } else {
      assert forall v :: v in pvc ==> !AliveAt(pvc[v], name, t);
      assert EarliestLater(pvc, name, t, c);
    }
    MatchIsPreferred(pvc, name, t, Some(c));
  }

  /** When the pod is not settled, the final claims do not match it with the newest one. */
  lemma UnsettledDiffers(pvc: map<UID, PVCRow>, final: map<UID, PVCRow>, stubs: map<UID, PVCRow>,
                         name: string, c: UID, t: Time)
    requires MergedClaims(pvc, final, stubs) && Serial(final)
    requires Newest(final, name, c) && !Settled(final, name, c, t)
    ensures c !in Matches(pvc, name, t)
  {
    MergedUntied(pvc, final, stubs, name);
    MergedReads(pvc, final, stubs, c);
    if final[c].createTime.value > t {
      var v :| v in final && v != c && final[v].name == Some(name)
        && !(final[v].deleteTime.Some? && final[v].deleteTime.value < t);
      MergedReads(pvc, final, stubs, v);
      assert InOrder(final[v], final[c]);
      assert AliveAt(pvc[v], name, t) || LaterThan(pvc[v], name, t);
    }
    assert !Preferred(pvc, name, t, Some(c));
    var claim := PreferredExists(pvc, name, t);
  }

  // ------------------------------------------------------------------ the mounts of one pod

  /** Every mount that this pod has under this name is on this claim. */
  ghost predicate AllOn(mounts: seq<MountRow>, pod: UID, name: string, c: UID) {
    forall m :: m in mounts && m.podUid == pod && m.pvcName == name ==> m.pvcUid == Some(c)
  }

  ghost predicate SomeOff(mounts: seq<MountRow>, pod: UID, name: string, c: UID) {
    exists m :: m in mounts && m.podUid == pod && m.pvcName == name && m.pvcUid != Some(c)
  }

  ghost predicate NoMountsOf(mounts: seq<MountRow>, pod: UID) {
    forall m :: m in mounts ==> m.podUid != pod
  }

  lemma RowsForMountBelong(pvc: map<UID, PVCRow>, pod: UID, container: string, vm: VolumeMount, t: Time, m: MountRow)
    requires m in RowsForMount(pvc, pod, container, vm, t)
    ensures m.podUid == pod && m.pvcName == vm.name
    ensures m.pvcUid.Some? ==> m.pvcUid.value in Matches(pvc, vm.name, t)
    ensures Matches(pvc, vm.name, t) != {} ==> m.pvcUid.Some?
  {
    var claims := Matches(pvc, vm.name, t);
    if claims != {} {
      var i :| 0 <= i < |Ascending(claims)| && m == ClaimedRows(pod, container, vm, Ascending(claims))[i];
      assert Ascending(claims)[i] in Ascending(claims);
    }
  }

  lemma {:induction false} RowsForMountsBelong(
    pvc: map<UID, PVCRow>, pod: UID, container: string, ms: seq<VolumeMount>, t: Time, m: MountRow)
    requires m in RowsForMounts(pvc, pod, container, ms, t)
    ensures m.podUid == pod
    ensures m.pvcUid.Some? ==> m.pvcUid.value in Matches(pvc, m.pvcName, t)
    ensures Matches(pvc, m.pvcName, t) != {} ==> m.pvcUid.Some?
  {
    if m in RowsForMounts(pvc, pod, container, ms[..|ms| - 1], t) {
      RowsForMountsBelong(pvc, pod, container, ms[..|ms| - 1], t, m);
    } else {
      RowsForMountBelong(pvc, pod, container, ms[|ms| - 1], t, m);
    }
  }

  /** Every row that a pod adds is its own, and names a match of its claim name whenever there is one. */
  lemma {:induction false} RowsForPodBelong(pvc: map<UID, PVCRow>, pod: UID, cs: seq<ContainerDesc>, t: Time, m: MountRow)
    requires m in RowsForPod(pvc, pod, cs, t)
    ensures m.podUid == pod
    ensures m.pvcUid.Some? ==> m.pvcUid.value in Matches(pvc, m.pvcName, t)
    ensures Matches(pvc, m.pvcName, t) != {} ==> m.pvcUid.Some?
  {
    if m in RowsForPod(pvc, pod, cs[..|cs| - 1], t) {
      RowsForPodBelong(pvc, pod, cs[..|cs| - 1], t, m);
    } else {
      var c := cs[|cs| - 1];
      RowsForMountsBelong(pvc, pod, c.name, c.pvcMounts, t, m);
    }
  }

  lemma {:induction false} RowsForMountsCover(
    pvc: map<UID, PVCRow>, pod: UID, container: string, ms: seq<VolumeMount>, t: Time, j: nat)
    requires j < |ms|
    ensures exists m :: m in RowsForMounts(pvc, pod, container, ms, t) && m.pvcName == ms[j].name
  {
    if j == |ms| - 1 {
      var rows := RowsForMount(pvc, pod, container, ms[j], t);
      assert |rows| > 0;
      RowsForMountBelong(pvc, pod, container, ms[j], t, rows[0]);
      assert rows[0] in RowsForMounts(pvc, pod, container, ms, t);
    } else {
      RowsForMountsCover(pvc, pod, container, ms[..|ms| - 1], t, j);
    }
  }

  lemma {:induction false} RowsForPodCover(pvc: map<UID, PVCRow>, pod: UID, cs: seq<ContainerDesc>, t: Time, i: nat, j: nat)
    requires i < |cs| && j < |cs[i].pvcMounts|
    ensures exists m :: m in RowsForPod(pvc, pod, cs, t) && m.pvcName == cs[i].pvcMounts[j].name
  {
    if i == |cs| - 1 {
      RowsForMountsCover(pvc, pod, cs[i].name, cs[i].pvcMounts, t, j);
    } else {
      RowsForPodCover(pvc, pod, cs[..|cs| - 1], t, i, j);
    }
  }

  lemma CleanMountsKeepsOthers(mounts: seq<MountRow>, pvc: map<UID, PVCRow>, pod: UID, t: Time)
    ensures forall m :: m in CleanMounts(mounts, pvc, pod, t) ==> m in mounts
    ensures forall m :: m in mounts && m.podUid != pod ==> m in CleanMounts(mounts, pvc, pod, t)
    ensures NoMountsOf(mounts, pod) ==> CleanMounts(mounts, pvc, pod, t) == mounts
  {
    CleanMountsMeaning(mounts, pvc, pod, t);
    FilterMembers(MountNotOf(pod), mounts);
  }

  // ------------------------------------------------------------------ runs

  /** The k-th event of the pod stream is the first insert of its pod. */
  ghost predicate FirstInsertAt(pods: seq<Op>, k: nat) {
    && k < |pods| && pods[k].InsertPod?
    && forall i :: 0 <= i < k && pods[i].InsertPod? ==> pods[i].uid != pods[k].uid
  }

  /** And the pod is never deleted after it. */
  ghost predicate Outlives(pods: seq<Op>, k: nat) {
    && FirstInsertAt(pods, k)
    && forall i :: k < i < |pods| && pods[i].DeletePod? ==> pods[i].uid != pods[k].uid
  }

  /** Before its insert the pod has no rows; from then on it is live. */
  ghost predicate Phase(db: DB, pod: UID, inserted: bool) {
    if inserted then LivePod(db.pod, pod) else pod !in db.pod && NoMountsOf(db.podMount, pod)
  }

  lemma PhaseStep(db: DB, op: Op, pod: UID, inserted: bool)
    requires Phase(db, pod, inserted)
    requires op.DeletePod? && op.uid == pod ==> !inserted
    ensures Phase(Apply(db, op), pod, inserted || (op.InsertPod? && op.uid == pod))
  {
    match op
    case InsertPod(uid, _, t, _, cs, _, _, _) =>
      if uid != pod && !inserted && uid !in db.pod {
        forall m | m in RowsForPod(db.pvc, uid, cs, t) ensures m.podUid != pod {
          RowsForPodBelong(db.pvc, uid, cs, t, m);
        }
      }
    case DeletePod(uid, t, _, _) =>
      CleanMountsKeepsOthers(db.podMount, db.pvc, uid, t);
    case InsertPVC(uid, name, _, _, _, _, _, _, _) =>
      var mounts := AttachClaim(db.podMount, db.pod, uid, name);
      if !inserted {
        forall m | m in mounts ensures m.podUid != pod {
          var i :| 0 <= i < |mounts| && m == mounts[i];
          assert db.podMount[i] in db.podMount;
        }
      }
    case _ =>
  }

  /** An event that is neither the pod's first insert nor a claim of that name leaves its mounts as good as they were. */
  lemma OtherOpsKeep(db: DB, op: Op, pod: UID, name: string, c: UID)
    requires AllOn(db.podMount, pod, name, c)
    requires op.InsertPod? ==> op.uid != pod || op.uid in db.pod
    requires op.InsertPVC? ==> op.name != name
    ensures AllOn(Apply(db, op).podMount, pod, name, c)
  {
    match op
    case InsertPod(uid, _, t, _, cs, _, _, _) =>
      if uid !in db.pod {
        forall m | m in RowsForPod(db.pvc, uid, cs, t) ensures m.podUid != pod {
          RowsForPodBelong(db.pvc, uid, cs, t, m);
        }
      }
    case DeletePod(uid, t, _, _) =>
      CleanMountsKeepsOthers(db.podMount, db.pvc, uid, t);
    case InsertPVC(uid, other, _, _, _, _, _, _, _) =>
      var mounts := AttachClaim(db.podMount, db.pod, uid, other);
      forall m | m in mounts && m.podUid == pod && m.pvcName == name ensures m.pvcUid == Some(c) {
        var i :| 0 <= i < |mounts| && m == mounts[i];
        assert db.podMount[i] in db.podMount;
      }
    case _ =>
  }

  /** The arrival of the newest claim puts every mount of a live pod on it, whatever they held before. */
  lemma NewestArrives(db: DB, op: Op, pod: UID, inserted: bool)
    requires op.InsertPVC? && Phase(db, pod, inserted)
    ensures AllOn(Apply(db, op).podMount, pod, op.name, op.uid)
  {
    var mounts := AttachClaim(db.podMount, db.pod, op.uid, op.name);
    forall m | m in mounts && m.podUid == pod && m.pvcName == op.name ensures m.pvcUid == Some(op.uid) {
      var i :| 0 <= i < |mounts| && m == mounts[i];
      assert db.podMount[i] in db.podMount;
    }
  }

  /** The pod's arrival, when its matches are exactly the newest claim. */
  lemma PodArrives(db: DB, op: Op, name: string, c: UID)
    requires op.InsertPod? && op.uid !in db.pod && NoMountsOf(db.podMount, op.uid)
    requires Matches(db.pvc, name, op.createTime) == {c}
    ensures AllOn(Apply(db, op).podMount, op.uid, name, c)
  {
    var rows := RowsForPod(db.pvc, op.uid, op.containers, op.createTime);
    forall m | m in rows && m.pvcName == name ensures m.pvcUid == Some(c) {
      RowsForPodBelong(db.pvc, op.uid, op.containers, op.createTime, m);
    }
  }

  /** In the claim stream the newest claim of a name is the last of that name to be inserted. */
  lemma NewestIsLast(before: seq<Op>, op: Op, after: seq<Op>, name: string, c: UID)
    requires ClaimStream(before + [op] + after) && op.InsertPVC?
    requires Newest(Run(EMPTY_DB, before + [op] + after).pvc, name, c)
    ensures op.uid == c ==> op.name == name
    ensures op.name == name && op.uid != c ==> c !in Run(EMPTY_DB, before).pvc
  {
    var final := Run(EMPTY_DB, before + [op] + after).pvc;
    ClaimStreamEvolves(before + [op], after);
    ClaimStreamPrefix(before, op);
    RunLast(EMPTY_DB, before, op);
    var now := Run(EMPTY_DB, before + [op]).pvc;
    assert SameClaim(now[op.uid], final[op.uid]);
    if c in Run(EMPTY_DB, before).pvc && op.uid != c {
      assert SameClaim(now[c], final[c]);
    }
  }

  /** The position of an event of a log in its own stream. */
  lemma FilterAround<T>(f: T -> bool, front: seq<T>, x: T, rest: seq<T>)
    requires f(x)
    ensures Filter(f, front + [x] + rest) == Filter(f, front) + [x] + Filter(f, rest)
    ensures Filter(f, front + [x] + rest)[|Filter(f, front)|] == x
  {
    FilterConcat(f, front + [x], rest);
    FilterLast(f, front, x);
  }

  /** The facts about one log, its streams and one mounted name that the induction carries along unchanged. */
  ghost predicate Scene(log: seq<Op>, k: nat, name: string, c: UID) {
    var pods, claims := Filter(PodOps(), log), Filter(ClaimOps(), log);
    && Outlives(pods, k) && ClaimStream(claims)
    && Newest(Run(EMPTY_DB, claims).pvc, name, c)
  }

  /** How far the pod has come after a prefix of the log. */
  lemma {:induction false} PhaseAfter(done: seq<Op>, rest: seq<Op>, k: nat, name: string, c: UID)
    requires Scene(done + rest, k, name, c)
    ensures Phase(Run(EMPTY_DB, done), Filter(PodOps(), done + rest)[k].uid, |Filter(PodOps(), done)| > k)
  {
    if done != [] {
      var front, op := done[..|done| - 1], done[|done| - 1];
      assert done == front + [op];
      assert front + [op] + rest == done + rest == front + ([op] + rest);
      var pods := Filter(PodOps(), done + rest);
      PhaseAfter(front, [op] + rest, k, name, c);
      FilterLast(PodOps(), front, op);
      if op.OnPod() {
        FilterAround(PodOps(), front, op, rest);
        assert pods[|Filter(PodOps(), front)|] == op;
      }
      PhaseStep(Run(EMPTY_DB, front), op, pods[k].uid, |Filter(PodOps(), front)| > k);
    }
  }

  /** Once the newest claim is in, the settled pod's mounts are and stay on it. */
  lemma {:induction false} OnNewestAfter(done: seq<Op>, rest: seq<Op>, k: nat, name: string, c: UID)
    requires Scene(done + rest, k, name, c)
    requires Settled(Run(EMPTY_DB, Filter(ClaimOps(), done + rest)).pvc, name, c, Filter(PodOps(), done + rest)[k].createTime)
    requires c in Run(EMPTY_DB, Filter(ClaimOps(), done)).pvc
    ensures AllOn(Run(EMPTY_DB, done).podMount, Filter(PodOps(), done + rest)[k].uid, name, c)
  {
    if done != [] {
      var front, op := done[..|done| - 1], done[|done| - 1];
      assert done == front + [op];
      assert front + [op] + rest == done + rest == front + ([op] + rest);
      var pods, pod := Filter(PodOps(), done + rest), Filter(PodOps(), done + rest)[k].uid;
      var db := Run(EMPTY_DB, front);
      PhaseAfter(front, [op] + rest, k, name, c);
      if op.OnPod() {
        FilterAround(PodOps(), front, op, rest);
        assert pods[|Filter(PodOps(), front)|] == op;
      }
      if op.InsertPVC? {
        FilterAround(ClaimOps(), front, op, rest);
        NewestIsLast(Filter(ClaimOps(), front), op, Filter(ClaimOps(), rest), name, c);
      }
      FilterLast(ClaimOps(), front, op);
      if op.InsertPVC? && op.uid == c {
        NewestArrives(db, op, pod, |Filter(PodOps(), front)| > k);
      } else {
        ClaimsOnlyByInsert(Filter(ClaimOps(), front), op, c);
        if op.InsertPod? && op.uid == pod && op.uid !in db.pod {
          MatchInScene(front, [op] + rest, k, name, c);
          PodArrives(db, op, name, c);
        } else {
          OnNewestAfter(front, [op] + rest, k, name, c);
          OtherOpsKeep(db, op, pod, name, c);
        }
      }
    }
  }

  /** Only its own insert makes a claim appear. */
  lemma ClaimsOnlyByInsert(claims: seq<Op>, op: Op, c: UID)
    requires !(op.InsertPVC? && op.uid == c)
    requires c in Run(EMPTY_DB, if op.OnClaim() then claims + [op] else claims).pvc
    ensures c in Run(EMPTY_DB, claims).pvc
  {
    RunLast(EMPTY_DB, claims, op);
  }

  /** With the newest claim in, what the pod's insert selects is that claim. */
  lemma MatchInScene(done: seq<Op>, rest: seq<Op>, k: nat, name: string, c: UID)
    requires Scene(done + rest, k, name, c)
    requires Settled(Run(EMPTY_DB, Filter(ClaimOps(), done + rest)).pvc, name, c, Filter(PodOps(), done + rest)[k].createTime)
    requires c in Run(EMPTY_DB, Filter(ClaimOps(), done)).pvc
    ensures Matches(Run(EMPTY_DB, done).pvc, name, Filter(PodOps(), done + rest)[k].createTime) == {c}
  {
    var t := Filter(PodOps(), done + rest)[k].createTime;
    var first, all := Filter(ClaimOps(), done), Filter(ClaimOps(), done + rest);
    FilterConcat(ClaimOps(), done, rest);
    ClaimStreamEvolves(first, Filter(ClaimOps(), rest));
    ClaimStreamIsSerial(first);
    ClaimStreamIsSerial(all);
    ClaimStreamInsertsFirst(first);
    StreamsAreIndependent(done);
    SettledMatches(Run(EMPTY_DB, done).pvc, Run(EMPTY_DB, first).pvc, Run(EMPTY_DB, Filter(VolumeOps(), done)).pvc,
                   Run(EMPTY_DB, all).pvc, name, c, t);
  }

  /** If the pod is settled, every interleaving ends with its mounts on the newest claim. */
  lemma SettledConverges(log: seq<Op>, k: nat, name: string, c: UID)
    requires Scene(log, k, name, c)
    requires Settled(Run(EMPTY_DB, Filter(ClaimOps(), log)).pvc, name, c, Filter(PodOps(), log)[k].createTime)
    ensures AllOn(Run(EMPTY_DB, log).podMount, Filter(PodOps(), log)[k].uid, name, c)
  {
    assert log + [] == log;
    OnNewestAfter(log, [], k, name, c);
  }

  // ------------------------------------------------------------------ the other direction

  lemma PodOpKeepsOff(db: DB, op: Op, pod: UID, name: string, c: UID)
    requires op.OnPod() && SomeOff(db.podMount, pod, name, c)
    requires op.DeletePod? ==> op.uid != pod
    ensures SomeOff(Apply(db, op).podMount, pod, name, c)
  {
    var m :| m in db.podMount && m.podUid == pod && m.pvcName == name && m.pvcUid != Some(c);
    if op.DeletePod? {
      CleanMountsKeepsOthers(db.podMount, db.pvc, op.uid, op.deleteTime);
    }
    assert m in Apply(db, op).podMount;
  }

  lemma {:induction false} PodOpsKeepOff(db: DB, pods: seq<Op>, pod: UID, name: string, c: UID)
    requires SomeOff(db.podMount, pod, name, c)
    requires forall op :: op in pods ==> op.OnPod() && (op.DeletePod? ==> op.uid != pod)
    ensures SomeOff(Run(db, pods).podMount, pod, name, c)
  {
    if pods != [] {
      PodOpsKeepOff(db, pods[..|pods| - 1], pod, name, c);
      PodOpKeepsOff(Run(db, pods[..|pods| - 1]), pods[|pods| - 1], pod, name, c);
    }
  }

  lemma {:induction false} PodOpsKeepClaims(db: DB, pods: seq<Op>)
    requires forall op :: op in pods ==> op.OnPod()
    ensures Run(db, pods).pvc == db.pvc
  {
    if pods != [] {
      PodOpsKeepClaims(db, pods[..|pods| - 1]);
      assert pods[|pods| - 1].OnPod();
    }
  }

  /** A pod that arrives when the claim does not match it is off that claim. */
  lemma PodArrivesOff(db: DB, op: Op, name: string, c: UID)
    requires op.InsertPod? && op.uid !in db.pod && MountsName(op.containers, name)
    requires c !in Matches(db.pvc, name, op.createTime)
    ensures SomeOff(Apply(db, op).podMount, op.uid, name, c)
  {
    var cs := op.containers;
    var i, j :| 0 <= i < |cs| && 0 <= j < |cs[i].pvcMounts| && cs[i].pvcMounts[j].name == name;
    RowsForPodCover(db.pvc, op.uid, cs, op.createTime, i, j);
    var m :| m in RowsForPod(db.pvc, op.uid, cs, op.createTime) && m.pvcName == name;
    RowsForPodBelong(db.pvc, op.uid, cs, op.createTime, m);
    assert m in Apply(db, op).podMount;
  }

  /** Before the pod arrives, with all claims in, the newest claim does not match it. */
  lemma NoMatchBeforeArrival(pods: seq<Op>, claims: seq<Op>, volumes: seq<Op>, k: nat, name: string, c: UID)
    requires ThreeStreams(pods, claims, volumes)
    requires Outlives(pods, k)
    requires ClaimStream(claims) && Newest(Run(EMPTY_DB, claims).pvc, name, c)
    requires !Settled(Run(EMPTY_DB, claims).pvc, name, c, pods[k].createTime)
    ensures c !in Matches(Run(EMPTY_DB, claims + volumes + pods[..k]).pvc, name, pods[k].createTime)
  {
    var start, before := claims + volumes, pods[..k];
    InSequence([], claims, volumes);
    assert start + [] == start;
    ClaimStreamInsertsFirst(claims);
    ClaimStreamIsSerial(claims);
    StreamsAreIndependent(start);
    RunConcat(EMPTY_DB, start, before);
    assert forall op :: op in before ==> PodOps()(op);
    PodOpsKeepClaims(Run(EMPTY_DB, start), before);
    UnsettledDiffers(Run(EMPTY_DB, start).pvc, Run(EMPTY_DB, claims).pvc, Run(EMPTY_DB, volumes).pvc, name, c, pods[k].createTime);
  }

  /** Nor has the pod been recorded before its first insert. */
  lemma NotYetRecorded(pods: seq<Op>, claims: seq<Op>, volumes: seq<Op>, k: nat, name: string, c: UID)
    requires ThreeStreams(pods, claims, volumes)
    requires Outlives(pods, k)
    requires ClaimStream(claims) && Newest(Run(EMPTY_DB, claims).pvc, name, c)
    ensures pods[k].uid !in Run(EMPTY_DB, claims + volumes + pods[..k]).pod
  {
    var start, before, rest := claims + volumes, pods[..k], pods[k..];
    assert pods == before + rest && start + pods == (start + before) + rest;
    InSequence(pods, claims, volumes);
    InSequence(before, claims, volumes);
    PhaseAfter(start + before, rest, k, name, c);
  }

  /** A pod that arrives off the claim and is not deleted stays off it while the rest of the pods arrive. */
  lemma StaysOff(db: DB, ins: Op, after: seq<Op>, name: string, c: UID)
    requires ins.InsertPod? && ins.uid !in db.pod && MountsName(ins.containers, name)
    requires c !in Matches(db.pvc, name, ins.createTime)
    requires forall op :: op in after ==> op.OnPod() && (op.DeletePod? ==> op.uid != ins.uid)
    ensures !AllOn(Run(db, [ins] + after).podMount, ins.uid, name, c)
  {
    PodArrivesOff(db, ins, name, c);
    RunConcat(db, [ins], after);
    RunLast(db, [], ins);
    assert [] + [ins] == [ins];
    PodOpsKeepOff(Apply(db, ins), after, ins.uid, name, c);
  }

  lemma SplitAt(first: seq<Op>, pods: seq<Op>, k: nat)
    requires k < |pods|
    ensures first + pods == (first + pods[..k]) + ([pods[k]] + pods[k + 1..])
  {
  }

  /** If the pod is not settled, delivering the claims before the pods leaves one of its mounts off the newest claim. */
  lemma UnsettledDiverges(pods: seq<Op>, claims: seq<Op>, volumes: seq<Op>, k: nat, name: string, c: UID)
    requires ThreeStreams(pods, claims, volumes)
    requires Outlives(pods, k) && MountsName(pods[k].containers, name)
    requires ClaimStream(claims) && Newest(Run(EMPTY_DB, claims).pvc, name, c)
    requires !Settled(Run(EMPTY_DB, claims).pvc, name, c, pods[k].createTime)
    ensures !AllOn(Run(EMPTY_DB, claims + volumes + pods).podMount, pods[k].uid, name, c)
  {
    var first := claims + volumes;
    NoMatchBeforeArrival(pods, claims, volumes, k, name, c);
    NotYetRecorded(pods, claims, volumes, k, name, c);
    forall op | op in pods[k + 1..] ensures op.OnPod() && (op.DeletePod? ==> op.uid != pods[k].uid) {
      assert PodOps()(op);
    }
    StaysOff(Run(EMPTY_DB, first + pods[..k]), pods[k], pods[k + 1..], name, c);
    SplitAt(first, pods, k);
    RunConcat(EMPTY_DB, first + pods[..k], [pods[k]] + pods[k + 1..]);
  }

  /**
   Convergence, exactly: all interleavings of the streams end with every mount of that name, of a pod that is
   never deleted, on the newest claim of the name if and only if the pod and the recorded claims are settled. A
   claim that existed when the pod was created only has to outlast that moment; for a claim created later, every
   earlier one must have been recorded deleted strictly before the pod's creation.
   */
  lemma ConvergesIff(pods: seq<Op>, claims: seq<Op>, volumes: seq<Op>, k: nat, name: string, c: UID)
    requires ThreeStreams(pods, claims, volumes)
    requires Outlives(pods, k) && MountsName(pods[k].containers, name)
    requires ClaimStream(claims) && Newest(Run(EMPTY_DB, claims).pvc, name, c)
    ensures (forall log :: Interleaving(log, pods, claims, volumes) ==> AllOn(Run(EMPTY_DB, log).podMount, pods[k].uid, name, c))
      <==> Settled(Run(EMPTY_DB, claims).pvc, name, c, pods[k].createTime)
  {
    if Settled(Run(EMPTY_DB, claims).pvc, name, c, pods[k].createTime) {
      forall log | Interleaving(log, pods, claims, volumes)
        ensures AllOn(Run(EMPTY_DB, log).podMount, pods[k].uid, name, c)
      {
        SettledConverges(log, k, name, c);
      }
    } else {
      InSequence(pods, claims, volumes);
      UnsettledDiverges(pods, claims, volumes, k, name, c);
    }
  }

  /** The case that the design describes: the newest claim still exists and its predecessors were gone in time. */
  lemma ConvergesWhenPredecessorsAreGone(log: seq<Op>, k: nat, name: string, c: UID)
    requires Scene(log, k, name, c)
    requires var pvc, t := Run(EMPTY_DB, Filter(ClaimOps(), log)).pvc, Filter(PodOps(), log)[k].createTime;
      && pvc[c].deleteTime.None?
      && forall v :: v in pvc && v != c && pvc[v].name == Some(name) ==> pvc[v].deleteTime.Some? && pvc[v].deleteTime.value < t
    ensures AllOn(Run(EMPTY_DB, log).podMount, Filter(PodOps(), log)[k].uid, name, c)
  {
    SettledConverges(log, k, name, c);
  }

  // ------------------------------------------------------------------ an example

  /** A claim, its deletion, and a later claim of the same name. */
  ghost predicate Replaced(a: Op, b: Op, c: Op, name: string) {
    && a.InsertPVC? && b.DeletePVC? && c.InsertPVC?
    && a.name == c.name == name && b.uid == a.uid && c.uid != a.uid
    && a.createTime <= b.deleteTime < c.createTime
  }

  lemma ReplacedRows(a: Op, b: Op, c: Op, name: string)
    requires Replaced(a, b, c, name)
    ensures Run(EMPTY_DB, [a]).pvc == map[a.uid := UpsertClaim(None, a)]
    ensures Run(EMPTY_DB, [a, b]).pvc == map[a.uid := UpsertClaim(None, a).(deleteTime := Some(b.deleteTime))]
    ensures Run(EMPTY_DB, [a, b, c]).pvc
      == map[a.uid := UpsertClaim(None, a).(deleteTime := Some(b.deleteTime)), c.uid := UpsertClaim(None, c)]
  {
    RunOne(EMPTY_DB, a);
    RunTwo(EMPTY_DB, a, b);
    RunLast(EMPTY_DB, [a, b], c);
    assert [a, b] + [c] == [a, b, c];
  }

  lemma ReplacedIsLegal(a: Op, b: Op, c: Op, name: string)
    requires Replaced(a, b, c, name)
    ensures ClaimStream([a, b, c]) && Newest(Run(EMPTY_DB, [a, b, c]).pvc, name, c.uid)
  {
    var claims := [a, b, c];
    ReplacedRows(a, b, c, name);
    forall i | 0 <= i < |claims| ensures LegalClaimOp(Run(EMPTY_DB, claims[..i]).pvc, claims[i]) {
      assert claims[..0] == [] && claims[..1] == [a] && claims[..2] == [a, b];
    }
  }

  lemma ReplacedStreams(a: Op, p: Op, b: Op, c: Op, name: string)
    requires Replaced(a, b, c, name) && p.InsertPod?
    ensures Filter(ClaimOps(), [a, p, b, c]) == [a, b, c] && Filter(PodOps(), [a, p, b, c]) == [p]
  {
    FilterConcat(ClaimOps(), [a, p], [b, c]);
    FilterConcat(PodOps(), [a, p], [b, c]);
    FilterPair(ClaimOps(), a, p);
    FilterPair(ClaimOps(), b, c);
    FilterPair(PodOps(), a, p);
    FilterPair(PodOps(), b, c);
    assert [a, p] + [b, c] == [a, p, b, c];
  }

  /**
   Wrong for a while: a pod that arrives before the deletion of an old claim and the insert of the new one is put
   on the old claim, although the old one was gone when the pod was made; in the end it is on the new one.
   */
  lemma WrongForAWhile(a: Op, p: Op, b: Op, c: Op, name: string)
    requires Replaced(a, b, c, name)
    requires p.InsertPod? && MountsName(p.containers, name) && b.deleteTime < p.createTime
    ensures SomeOff(Run(EMPTY_DB, [a, p]).podMount, p.uid, name, c.uid)
    ensures AllOn(Run(EMPTY_DB, [a, p, b, c]).podMount, p.uid, name, c.uid)
  {
    ReplacedStreams(a, p, b, c, name);
    ReplacedIsLegal(a, b, c, name);
    ReplacedRows(a, b, c, name);
    SettledConverges([a, p, b, c], 0, name, c.uid);
    RunTwo(EMPTY_DB, a, p);
    RunOne(EMPTY_DB, a);
    PodArrivesOff(Run(EMPTY_DB, [a]), p, name, c.uid);
  }
}
