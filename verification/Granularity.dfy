/**
 The handler of a volume event runs several transactions, between which the other watches may run theirs; those of
 pods and claims run one. This module says that where the volume transactions fall makes no difference at all.
 */
module Granularity {
  import opened Tables
  import opened Matching
  import opened Operations
  import opened Streams

  function OthersOps(): Op -> bool { (op: Op) => !op.OnVolume() }

  /** What the matching and the clean-up read of a claim row; a stub reads like no row. */
  datatype Identity = Identity(name: Option<string>, createTime: Option<Time>, deleteTime: Option<Time>)

  function IdentityOf(pvc: map<UID, PVCRow>, u: UID): Identity {
    if u in pvc then Identity(pvc[u].name, pvc[u].createTime, pvc[u].deleteTime) else Identity(None, None, None)
  }

  ghost predicate ReadsAlike(pvc: map<UID, PVCRow>, pvc': map<UID, PVCRow>) {
    forall u :: IdentityOf(pvc, u) == IdentityOf(pvc', u)
  }

  lemma SameMatches(pvc: map<UID, PVCRow>, pvc': map<UID, PVCRow>, name: string, t: Time)
    requires ReadsAlike(pvc, pvc')
    ensures Matches(pvc, name, t) == Matches(pvc', name, t)
  {
    SameTimes(pvc, pvc', name, t);
    SameTimes(pvc', pvc, name, t);
    assert AliveTimes(pvc, name, t) == AliveTimes(pvc', name, t);
    assert LaterTimes(pvc, name, t) == LaterTimes(pvc', name, t);
    var alive, later := Greatest(AliveTimes(pvc, name, t)), Least(LaterTimes(pvc, name, t));
    SameCreated(pvc, pvc', name, alive);
    SameCreated(pvc, pvc', name, later);
  }

  lemma SameTimes(pvc: map<UID, PVCRow>, pvc': map<UID, PVCRow>, name: string, t: Time)
    requires ReadsAlike(pvc, pvc')
    ensures AliveTimes(pvc, name, t) <= AliveTimes(pvc', name, t)
    ensures LaterTimes(pvc, name, t) <= LaterTimes(pvc', name, t)
  {
    forall time | time in AliveTimes(pvc, name, t) ensures time in AliveTimes(pvc', name, t) {
      var u :| u in pvc && AliveAt(pvc[u], name, t) && pvc[u].createTime.value == time;
      assert IdentityOf(pvc, u) == IdentityOf(pvc', u);
    }
    forall time | time in LaterTimes(pvc, name, t) ensures time in LaterTimes(pvc', name, t) {
      var u :| u in pvc && LaterThan(pvc[u], name, t) && pvc[u].createTime.value == time;
      assert IdentityOf(pvc, u) == IdentityOf(pvc', u);
    }
  }

  lemma SameCreated(pvc: map<UID, PVCRow>, pvc': map<UID, PVCRow>, name: string, t: Option<Time>)
    requires ReadsAlike(pvc, pvc')
    ensures CreatedAt(pvc, name, t) == CreatedAt(pvc', name, t)
  {
    forall u ensures u in CreatedAt(pvc, name, t) <==> u in CreatedAt(pvc', name, t) {
      assert IdentityOf(pvc, u) == IdentityOf(pvc', u);
    }
  }

  lemma {:induction false} SameRowsForMounts(
    pvc: map<UID, PVCRow>, pvc': map<UID, PVCRow>, pod: UID, container: string, ms: seq<VolumeMount>, t: Time)
    requires ReadsAlike(pvc, pvc')
    ensures RowsForMounts(pvc, pod, container, ms, t) == RowsForMounts(pvc', pod, container, ms, t)
  {
    if ms != [] {
      hide ReadsAlike, Matches;
      SameRowsForMounts(pvc, pvc', pod, container, ms[..|ms| - 1], t);
      SameMatches(pvc, pvc', ms[|ms| - 1].name, t);
    }
  }

  lemma {:induction false} SameRowsForPod(
    pvc: map<UID, PVCRow>, pvc': map<UID, PVCRow>, pod: UID, cs: seq<ContainerDesc>, t: Time)
    requires ReadsAlike(pvc, pvc')
    ensures RowsForPod(pvc, pod, cs, t) == RowsForPod(pvc', pod, cs, t)
  {
    if cs != [] {
      hide ReadsAlike, RowsForMounts;
      SameRowsForPod(pvc, pvc', pod, cs[..|cs| - 1], t);
      SameRowsForMounts(pvc, pvc', pod, cs[|cs| - 1].name, cs[|cs| - 1].pvcMounts, t);
    }
  }

  lemma SameCleaned(mounts: seq<MountRow>, pvc: map<UID, PVCRow>, pvc': map<UID, PVCRow>, pod: UID, t: Time)
    requires ReadsAlike(pvc, pvc')
    ensures CleanMounts(mounts, pvc, pod, t) == CleanMounts(mounts, pvc', pod, t)
  {
    CleanMountsMeaning(mounts, pvc, pod, t);
    CleanMountsMeaning(mounts, pvc', pod, t);
    forall m ensures IsBadMount(pvc, pod, t, m) <==> IsBadMount(pvc', pod, t, m) {
      if m.pvcUid.Some? {
        assert IdentityOf(pvc, m.pvcUid.value) == IdentityOf(pvc', m.pvcUid.value);
      }
    }
  }

  /** A call on a pod or a claim does the same to mounts that read the claims alike. */
  lemma SameMountsStep(db: DB, db': DB, op: Op)
    requires op.OnPod() || op.OnClaim()
    requires db.pod == db'.pod && db.podMount == db'.podMount && ReadsAlike(db.pvc, db'.pvc)
    ensures Apply(db, op).podMount == Apply(db', op).podMount
  {
    hide CleanMounts, RowsForPod, AttachClaim, ReadsAlike;
    match op
    case InsertPod(uid, _, t, _, cs, _, _, _) => SameRowsForPod(db.pvc, db'.pvc, uid, cs, t);
    case DeletePod(uid, t, _, _) => SameCleaned(db.podMount, db.pvc, db'.pvc, uid, t);
    case _ =>
  }

  lemma VolumesSpareMounts(db: DB, op: Op)
    requires op.OnVolume()
    ensures Apply(db, op).podMount == db.podMount
  {
  }

  lemma MergedReadAlike(pvc: map<UID, PVCRow>, pvc': map<UID, PVCRow>, claims: map<UID, PVCRow>,
                        stubs: map<UID, PVCRow>, stubs': map<UID, PVCRow>)
    requires MergedClaims(pvc, claims, stubs) && MergedClaims(pvc', claims, stubs')
    ensures ReadsAlike(pvc, pvc')
  {
    forall u ensures IdentityOf(pvc, u) == IdentityOf(pvc', u) {
      assert Lookup(pvc, u) == MergeRow(Lookup(claims, u), Lookup(stubs, u));
      assert Lookup(pvc', u) == MergeRow(Lookup(claims, u), Lookup(stubs', u));
    }
  }

  /** Leaving the volumes out leaves the streams of pods and claims. */
  lemma StreamsOfOthers(log: seq<Op>)
    ensures Filter(PodOps(), Filter(OthersOps(), log)) == Filter(PodOps(), log)
    ensures Filter(ClaimOps(), Filter(OthersOps(), log)) == Filter(ClaimOps(), log)
  {
    FilterFilter(PodOps(), OthersOps(), PodOps(), log);
    FilterFilter(ClaimOps(), OthersOps(), ClaimOps(), log);
  }

  /** With and without the volumes, pods and what the mounts read of the claims are the same. */
  lemma AlikeWithoutVolumes(log: seq<Op>)
    requires InsertedFirst(Filter(ClaimOps(), log))
    ensures var db, db' := Run(EMPTY_DB, log), Run(EMPTY_DB, Filter(OthersOps(), log));
      db.pod == db'.pod && ReadsAlike(db.pvc, db'.pvc)
  {
    hide Run, Filter, MergedClaims, MergedVersions, ReadsAlike;
    var others := Filter(OthersOps(), log);
    StreamsOfOthers(log);
    StreamsAreIndependent(log);
    StreamsAreIndependent(others);
    MergedReadAlike(Run(EMPTY_DB, log).pvc, Run(EMPTY_DB, others).pvc, Run(EMPTY_DB, Filter(ClaimOps(), log)).pvc,
                    Run(EMPTY_DB, Filter(VolumeOps(), log)).pvc, Run(EMPTY_DB, Filter(VolumeOps(), others)).pvc);
  }

  lemma FrontInsertedFirst(front: seq<Op>, op: Op)
    requires InsertedFirst(Filter(ClaimOps(), front + [op]))
    ensures InsertedFirst(Filter(ClaimOps(), front))
  {
    FilterLast(ClaimOps(), front, op);
    if op.OnClaim() {
      InsertedFirstPrefix(Filter(ClaimOps(), front), op);
    }
  }

  /** The mounts are those that the pods and the claims make, as if there were no volumes. */
  lemma {:induction false} MountsIgnoreVolumes(log: seq<Op>)
    requires InsertedFirst(Filter(ClaimOps(), log))
    ensures Run(EMPTY_DB, log).podMount == Run(EMPTY_DB, Filter(OthersOps(), log)).podMount
  {
    if log != [] {
      hide Apply, ReadsAlike, InsertedFirst, Filter;
      var front, op := log[..|log| - 1], log[|log| - 1];
      assert log == front + [op];
      FrontInsertedFirst(front, op);
      MountsIgnoreVolumes(front);
      AlikeWithoutVolumes(front);
      FilterLast(OthersOps(), front, op);
      RunLast(EMPTY_DB, Filter(OthersOps(), front), op);
      if op.OnVolume() {
        VolumesSpareMounts(Run(EMPTY_DB, front), op);
      } else {
        SameMountsStep(Run(EMPTY_DB, front), Run(EMPTY_DB, Filter(OthersOps(), front)), op);
      }
    }
  }

  /**
   Two runs with the same calls on pods and claims in the same order, and the same calls on volumes in the same order,
   end in the same tables, all of them: it does not matter where the transactions of a volume event fall between those
   of the other watches. So treating a handler as one step loses nothing.
   */
  lemma VolumesFallAnywhere(log1: seq<Op>, log2: seq<Op>)
    requires Filter(OthersOps(), log1) == Filter(OthersOps(), log2) && Filter(VolumeOps(), log1) == Filter(VolumeOps(), log2)
    requires InsertedFirst(Filter(ClaimOps(), log1))
    ensures Run(EMPTY_DB, log1) == Run(EMPTY_DB, log2)
  {
    hide Run, Filter, InsertedFirst;
    StreamsOfOthers(log1);
    StreamsOfOthers(log2);
    MountsIgnoreVolumes(log1);
    MountsIgnoreVolumes(log2);
    Confluence(log1, log2, Filter(PodOps(), log1), Filter(ClaimOps(), log1), Filter(VolumeOps(), log1));
    SameDB(Run(EMPTY_DB, log1), Run(EMPTY_DB, log2));
  }

  lemma SameDB(a: DB, b: DB)
    requires a.(podMount := []) == b.(podMount := []) && a.podMount == b.podMount
    ensures a == b
  {
    assert a == a.(podMount := []).(podMount := a.podMount);
    assert b == b.(podMount := []).(podMount := b.podMount);
  }
}
