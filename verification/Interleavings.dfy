/**
 Exactly when the interleaving of the streams does not matter outside `pod_mount`.
 */
module Interleavings {
  import opened Tables
  import opened Operations
  import opened Streams
  import opened History

  // ------------------------------------------------------------------ the condition

  ghost predicate Has(kind: Op -> bool, ops: seq<Op>) {
    exists op :: op in ops && kind(op)
  }

  /** Some call of the second kind comes after one of the first kind. */
  ghost predicate HasAfter(first: Op -> bool, second: Op -> bool, ops: seq<Op>) {
    exists i, j :: 0 <= i < j < |ops| && first(ops[i]) && second(ops[j])
  }

  function UpdatesClaim(u: UID): Op -> bool { (op: Op) => op.UpdatePVC? && op.uid == u }

  /**
   What the claim stream says of the claim is not lost when a bind comes late: it is deleted, if at all, after it
   was inserted, and updated, if at all, only if it is inserted.
   */
  ghost predicate Robust(claims: seq<Op>, u: UID) {
    && (Has(EndsClaim(u), claims) ==> HasAfter(NamesClaim(u), EndsClaim(u), claims))
    && (Has(UpdatesClaim(u), claims) ==> Has(NamesClaim(u), claims))
  }

  // ------------------------------------------------------------------ histories and their streams

  lemma {:induction false} LastConcat(f: Op -> bool, a: seq<Op>, b: seq<Op>)
    ensures Last(f, a + b) == if Last(f, b).Some? then Last(f, b) else Last(f, a)
  {
    if b == [] {
      assert a + b == a;
    } else {
      LastConcat(f, a, b[..|b| - 1]);
      assert (a + b)[..|a + b| - 1] == a + b[..|b| - 1];
    }
  }

  lemma {:induction false} SinceConcat(f: Op -> bool, a: seq<Op>, b: seq<Op>)
    ensures Since(f, a + b) == if Since(f, a) != [] then Since(f, a) + b else Since(f, b)
  {
    if b == [] {
      assert a + b == a && Since(f, a) + [] == Since(f, a);
    } else {
      SinceConcat(f, a, b[..|b| - 1]);
      assert (a + b)[..|a + b| - 1] == a + b[..|b| - 1];
      assert Since(f, a) + b == (Since(f, a) + b[..|b| - 1]) + [b[|b| - 1]];
    }
  }

  /** The last call of a kind is the last in its stream. */
  lemma {:induction false} LastOfStream(f: Op -> bool, kind: Op -> bool, log: seq<Op>)
    requires forall op :: f(op) ==> kind(op)
    ensures Last(f, log) == Last(f, Filter(kind, log))
  {
    if log != [] {
      var front, op := log[..|log| - 1], log[|log| - 1];
      assert log == front + [op];
      LastOfStream(f, kind, front);
      FilterLast(kind, front, op);
      LastOf(f, Filter(kind, front), op);
    }
  }

  /** Whether a call of a kind has come yet can be seen in its stream. */
  lemma SinceOfStream(f: Op -> bool, kind: Op -> bool, log: seq<Op>)
    requires forall op :: f(op) ==> kind(op)
    ensures Since(f, log) != [] <==> Since(f, Filter(kind, log)) != []
  {
    FilterMembers(kind, log);
    SinceMeans(f, log);
    SinceMeans(f, Filter(kind, log));
  }

  lemma {:induction false} SinceMeans(f: Op -> bool, log: seq<Op>)
    ensures Since(f, log) != [] <==> exists op :: op in log && f(op)
    ensures forall op :: op in Since(f, log) ==> op in log
  {
    if log != [] {
      SinceMeans(f, log[..|log| - 1]);
      assert log == log[..|log| - 1] + [log[|log| - 1]];
    }
  }

  lemma HasAfterLast(first: Op -> bool, second: Op -> bool, ops: seq<Op>, op: Op)
    ensures HasAfter(first, second, ops + [op]) <==> HasAfter(first, second, ops) || (second(op) && Has(first, ops))
  {
    var all := ops + [op];
    if HasAfter(first, second, ops) {
      var i, j :| 0 <= i < j < |ops| && first(ops[i]) && second(ops[j]);
      assert first(all[i]) && second(all[j]);
    }
    if second(op) && Has(first, ops) {
      var o :| o in ops && first(o);
      var i :| 0 <= i < |ops| && ops[i] == o;
      assert first(all[i]) && second(all[|ops|]);
    }
    if HasAfter(first, second, all) {
      var i, j :| 0 <= i < j < |all| && first(all[i]) && second(all[j]);
      assert all[i] == ops[i] && (j < |ops| ==> all[j] == ops[j]);
    }
  }

  /** A call after another, as the last one of the life that the first one begins. */
  lemma {:induction false} HasAfterMeans(first: Op -> bool, second: Op -> bool, ops: seq<Op>)
    requires forall op :: !(first(op) && second(op))
    ensures HasAfter(first, second, ops) <==> Last(second, Since(first, ops)).Some?
  {
    if ops != [] {
      hide HasAfter;
      var front, op := ops[..|ops| - 1], ops[|ops| - 1];
      assert ops == front + [op];
      HasAfterMeans(first, second, front);
      HasAfterLast(first, second, front, op);
      SinceMeans(first, front);
      SinceOf(first, front, op);
      LastOf(second, Since(first, front), op);
      LastOfOne(second, op);
    }
  }

  lemma HasMeans(f: Op -> bool, ops: seq<Op>)
    ensures Has(f, ops) <==> Last(f, ops).Some?
  {
  }

  // ------------------------------------------------------------------ a claim's row

  /**
   The last claim event of a kind in the life of the row. It is the last since the claim's insert if there is one;
   otherwise only a bind can have made the row early enough for an event of that kind.
   */
  lemma {:induction false} LifeAndStream(f: Op -> bool, log: seq<Op>, u: UID)
    requires forall op :: f(op) ==> op.OnClaim()
    ensures var live, own := Last(f, Since(MakesClaim(u), log)), Last(f, Since(NamesClaim(u), Filter(ClaimOps(), log)));
      && (own.Some? ==> live == own)
      && (live.Some? ==> live == Last(f, Filter(ClaimOps(), log)))
      && (Last(BindsClaim(u), log).None? ==> live == own)
  {
    if log != [] {
      var front, op := log[..|log| - 1], log[|log| - 1];
      var claims := Filter(ClaimOps(), front);
      assert log == front + [op];
      LifeAndStream(f, front, u);
      LivesBegin(front, u);
      FilterLast(ClaimOps(), front, op);
      SinceOf(NamesClaim(u), claims, op);
      SinceOf(MakesClaim(u), front, op);
      LastOf(f, claims, op);
      LastOf(f, Since(NamesClaim(u), claims), op);
      LastOf(f, Since(MakesClaim(u), front), op);
      LastOfOne(f, op);
      LastOf(BindsClaim(u), front, op);
    }
  }

  /** A claim has a row exactly when its insert or a bind has come. */
  lemma LivesBegin(log: seq<Op>, u: UID)
    ensures Since(MakesClaim(u), log) != []
      <==> Since(NamesClaim(u), Filter(ClaimOps(), log)) != [] || Last(BindsClaim(u), log).Some?
  {
    SinceOfStream(NamesClaim(u), ClaimOps(), log);
    SinceMeans(MakesClaim(u), log);
    SinceMeans(NamesClaim(u), log);
  }

  /** The row that the claim stream and the binds make apart from each other. */
  function ClaimApart(claims: seq<Op>, volumes: seq<Op>, u: UID): Option<PVCRow> {
    var life, bind := Since(NamesClaim(u), claims), Last(BindsClaim(u), volumes);
    if life == [] && bind.None? then None else
      var name, text := Last(NamesClaim(u), claims), Last(DescribesClaim(u), life);
      Some(PVCRow(
        if name.Some? then Some(name.value.name) else None,
        if name.Some? then Some(name.value.createTime) else None,
        DeleteTimeIn(Last(EndsClaim(u), life)),
        if bind.Some? then Some(bind.value.bindTime) else None,
        if name.Some? then Some(name.value.namespace) else None,
        if text.Some? then Some(text.value.storage) else None,
        if text.Some? then Some(text.value.accessModes) else None,
        if text.Some? then Some(text.value.json) else None,
        if bind.Some? then Some(bind.value.pvUid) else None))
  }

  /** For a robust claim, events before its insert leave nothing in any interleaving. */
  lemma RobustLife(log: seq<Op>, u: UID)
    requires Last(BindsClaim(u), log).Some? ==> Robust(Filter(ClaimOps(), log), u)
    ensures var life, own := Since(MakesClaim(u), log), Since(NamesClaim(u), Filter(ClaimOps(), log));
      Last(EndsClaim(u), life) == Last(EndsClaim(u), own) && Last(DescribesClaim(u), life) == Last(DescribesClaim(u), own)
  {
    hide Last, Since, Filter, Has, HasAfter;
    var claims := Filter(ClaimOps(), log);
    LifeAndStream(EndsClaim(u), log, u);
    LifeAndStream(DescribesClaim(u), log, u);
    HasMeans(EndsClaim(u), claims);
    HasAfterMeans(NamesClaim(u), EndsClaim(u), claims);
    DescribedSinceInsert(claims, u);
  }

  /** A claim is described since its insert, if it has one, and otherwise only by updates. */
  lemma DescribedSinceInsert(claims: seq<Op>, u: UID)
    ensures Has(NamesClaim(u), claims) ==> Last(DescribesClaim(u), Since(NamesClaim(u), claims)).Some?
    ensures Last(DescribesClaim(u), claims).Some? ==> Has(NamesClaim(u), claims) || Has(UpdatesClaim(u), claims)
  {
    SinceMeans(NamesClaim(u), claims);
    var life := Since(NamesClaim(u), claims);
    if life != [] {
      assert life[0] in life && DescribesClaim(u)(life[0]);
    }
    var last := Last(DescribesClaim(u), claims);
    if last.Some? {
      assert last.value in claims;
      assert NamesClaim(u)(last.value) || UpdatesClaim(u)(last.value);
    }
  }

  lemma ClaimStandsApart(log: seq<Op>, u: UID)
    requires Last(BindsClaim(u), log).Some? ==> Robust(Filter(ClaimOps(), log), u)
    ensures ClaimFrom(log, u) == ClaimApart(Filter(ClaimOps(), log), Filter(VolumeOps(), log), u)
  {
    hide Last, Since, Filter, Robust;
    LivesBegin(log, u);
    RobustLife(log, u);
    MakersAreAlive(NamesClaim(u), log, u);
    LastOfStream(NamesClaim(u), ClaimOps(), log);
    MakersAreAlive(BindsClaim(u), log, u);
    LastOfStream(BindsClaim(u), VolumeOps(), log);
  }

  // ------------------------------------------------------------------ the other tables

  /** Pods and volumes are what their own streams make of them, whatever the claims do. */
  lemma {:induction false} OwnTables(log: seq<Op>)
    ensures SamePods(Run(EMPTY_DB, log), Run(EMPTY_DB, Filter(PodOps(), log)))
    ensures SameVolumes(Run(EMPTY_DB, log), Run(EMPTY_DB, Filter(VolumeOps(), log)))
  {
    if log != [] {
      var front, op := log[..|log| - 1], log[|log| - 1];
      assert log == front + [op];
      OwnTables(front);
      FilterLast(PodOps(), front, op);
      FilterLast(VolumeOps(), front, op);
      var db := Run(EMPTY_DB, front);
      hide Apply;
      if op.OnPod() {
        PodsStep(db, Run(EMPTY_DB, Filter(PodOps(), front)), op);
        RunLast(EMPTY_DB, Filter(PodOps(), front), op);
      } else if op.OnVolume() {
        VolumesStep(db, Run(EMPTY_DB, Filter(VolumeOps(), front)), op);
        RunLast(EMPTY_DB, Filter(VolumeOps(), front), op);
      } else {
        ClaimsElsewhere(db, op);
      }
    }
  }

  lemma ClaimsElsewhere(db: DB, op: Op)
    requires op.OnClaim()
    ensures SamePods(Apply(db, op), db) && SameVolumes(Apply(db, op), db)
  {
  }

  function StreamOf(r: Resource): Op -> bool {
    match r
    case Pods => PodOps()
    case PVCs => ClaimOps()
    case PVs => VolumeOps()
  }

  /** Whether a call is refused can be seen in its own stream. */
  lemma RefusedInStream(log: seq<Op>, op: Op, key: RVKey)
    requires StoresUnder(op) == Some(key)
    ensures Refused(log, op) <==> Refused(Filter(StreamOf(key.resource), log), op)
  {
    hide Last, Since, Filter;
    match op
    case InsertPod(uid, _, _, _, _, _, _, _) => SinceOfStream(MakesPod(uid), PodOps(), log);
    case InsertPV(uid, _, _, _, _, _, _, _, _) => SinceOfStream(MakesPV(uid), VolumeOps(), log);
    case BindPVC(_, uid, _, _) => LastOfStream(BindsClaim(uid), VolumeOps(), log);
    case _ =>
  }

  /** A version is that of its own stream. */
  lemma {:induction false} VersionsApart(log: seq<Op>, key: RVKey)
    ensures VersionFrom(log, key) == VersionFrom(Filter(StreamOf(key.resource), log), key)
  {
    if log != [] {
      hide Refused;
      var front, op := log[..|log| - 1], log[|log| - 1];
      var own := Filter(StreamOf(key.resource), front);
      assert log == front + [op];
      VersionsApart(front, key);
      FilterLast(StreamOf(key.resource), front, op);
      assert (own + [op])[..|own|] == own;
      if StoresUnder(op) == Some(key) {
        RefusedInStream(front, op, key);
      }
    }
  }

  // ------------------------------------------------------------------ the theorem

  /** The tables, `pod_mount` apart. */
  function ButMounts(log: seq<Op>): DB {
    Run(EMPTY_DB, log).(podMount := [])
  }

  /** Some volume event binds the claim. */
  ghost predicate Bound(volumes: seq<Op>, u: UID) {
    Has(BindsClaim(u), volumes)
  }

  lemma SameClaims(log1: seq<Op>, log2: seq<Op>, pods: seq<Op>, claims: seq<Op>, volumes: seq<Op>, u: UID)
    requires Interleaving(log1, pods, claims, volumes) && Interleaving(log2, pods, claims, volumes)
    requires Bound(volumes, u) ==> Robust(claims, u)
    ensures Lookup(Run(EMPTY_DB, log1).pvc, u) == Lookup(Run(EMPTY_DB, log2).pvc, u)
  {
    hide ClaimFrom, ClaimApart, Robust, PodFrom, PVFrom, VersionFrom;
    HasMeans(BindsClaim(u), volumes);
    LastOfStream(BindsClaim(u), VolumeOps(), log1);
    LastOfStream(BindsClaim(u), VolumeOps(), log2);
    ClaimStandsApart(log1, u);
    ClaimStandsApart(log2, u);
    TablesAreTheirHistory(log1);
    TablesAreTheirHistory(log2);
  }

  lemma RobustAgrees(log1: seq<Op>, log2: seq<Op>, pods: seq<Op>, claims: seq<Op>, volumes: seq<Op>)
    requires Interleaving(log1, pods, claims, volumes) && Interleaving(log2, pods, claims, volumes)
    requires forall u :: Bound(volumes, u) ==> Robust(claims, u)
    ensures ButMounts(log1) == ButMounts(log2)
  {
    hide Robust, Bound, Run;
    var db1, db2 := Run(EMPTY_DB, log1), Run(EMPTY_DB, log2);
    OwnTables(log1);
    OwnTables(log2);
    forall u ensures Lookup(db1.pvc, u) == Lookup(db2.pvc, u) {
      SameClaims(log1, log2, pods, claims, volumes, u);
    }
    SameLookups(db1.pvc, db2.pvc);
    forall key ensures Lookup(db1.rv, key) == Lookup(db2.rv, key) {
      SameVersion(log1, log2, pods, claims, volumes, key);
    }
    SameLookups(db1.rv, db2.rv);
  }

  lemma SameVersion(log1: seq<Op>, log2: seq<Op>, pods: seq<Op>, claims: seq<Op>, volumes: seq<Op>, key: RVKey)
    requires Interleaving(log1, pods, claims, volumes) && Interleaving(log2, pods, claims, volumes)
    ensures Lookup(Run(EMPTY_DB, log1).rv, key) == Lookup(Run(EMPTY_DB, log2).rv, key)
  {
    hide VersionFrom, PodFrom, PVFrom, ClaimFrom;
    VersionsApart(log1, key);
    VersionsApart(log2, key);
    TablesAreTheirHistory(log1);
    TablesAreTheirHistory(log2);
  }

  /** With the volumes first the claim's event finds its row; with the claims first it does not. */
  lemma BindDecides(f: Op -> bool, pods: seq<Op>, claims: seq<Op>, volumes: seq<Op>, u: UID)
    requires ThreeStreams(pods, claims, volumes) && Bound(volumes, u)
    requires forall op :: f(op) ==> op.OnClaim()
    requires Last(f, claims).Some? && Last(f, Since(NamesClaim(u), claims)).None?
    ensures Last(f, Since(MakesClaim(u), volumes + claims + pods)).Some?
    ensures Last(f, Since(MakesClaim(u), claims + volumes + pods)).None?
  {
    hide Last, Since;
    var makes := MakesClaim(u);
    assert Last(f, pods).None? && Last(f, volumes).None? by {
      assert forall op :: op in pods ==> PodOps()(op);
      assert forall op :: op in volumes ==> VolumeOps()(op);
    }
    assert Since(makes, volumes) != [] by {
      SinceMeans(makes, volumes);
    }
    SinceConcat(makes, volumes, claims + pods);
    LastConcat(f, Since(makes, volumes), claims + pods);
    LastConcat(f, claims, pods);
    assert volumes + (claims + pods) == volumes + claims + pods;
    assert claims + (volumes + pods) == claims + volumes + pods;
    SinceConcat(makes, claims, volumes + pods);
    SinceConcat(makes, volumes, pods);
    LastConcat(f, Since(makes, claims), volumes + pods);
    LastConcat(f, volumes, pods);
    LastConcat(f, Since(makes, volumes), pods);
    LifeAndStream(f, claims, u);
    AllOf(ClaimOps(), claims);
    assert Last(BindsClaim(u), claims).None? by {
      assert forall op :: op in claims ==> ClaimOps()(op);
    }
    SinceMeans(makes, volumes);
    assert Last(f, Since(makes, volumes)).None?;
  }

  /** A claim that is bound and not robust ends differently in the two orders. */
  lemma FragileDiffers(pods: seq<Op>, claims: seq<Op>, volumes: seq<Op>, u: UID)
    requires ThreeStreams(pods, claims, volumes) && Bound(volumes, u) && !Robust(claims, u)
    ensures ButMounts(volumes + claims + pods) != ButMounts(claims + volumes + pods)
  {
    var log1, log2 := volumes + claims + pods, claims + volumes + pods;
    HasMeans(EndsClaim(u), claims);
    HasAfterMeans(NamesClaim(u), EndsClaim(u), claims);
    if Has(EndsClaim(u), claims) && !HasAfter(NamesClaim(u), EndsClaim(u), claims) {
      BindDecides(EndsClaim(u), pods, claims, volumes, u);
    } else {
      DescribesAny(claims, u);
      BindDecides(DescribesClaim(u), pods, claims, volumes, u);
    }
    assert ClaimFrom(log1, u) != ClaimFrom(log2, u);
    RowsDiffer(log1, log2, u);
  }

  /** Without its insert, a claim that is updated is described in its stream, but not since its insert. */
  lemma DescribesAny(claims: seq<Op>, u: UID)
    requires Has(UpdatesClaim(u), claims) && !Has(NamesClaim(u), claims)
    ensures Last(DescribesClaim(u), claims).Some? && Last(DescribesClaim(u), Since(NamesClaim(u), claims)).None?
  {
    SinceMeans(NamesClaim(u), claims);
    var op :| op in claims && UpdatesClaim(u)(op);
    assert DescribesClaim(u)(op);
  }

  lemma RowsDiffer(log1: seq<Op>, log2: seq<Op>, u: UID)
    requires ClaimFrom(log1, u) != ClaimFrom(log2, u)
    ensures ButMounts(log1) != ButMounts(log2)
  {
    hide ClaimFrom, PodFrom, PVFrom, VersionFrom;
    TablesAreTheirHistory(log1);
    TablesAreTheirHistory(log2);
    assert Lookup(Run(EMPTY_DB, log1).pvc, u) != Lookup(Run(EMPTY_DB, log2).pvc, u);
  }

  /**
   Confluence, exactly: all interleavings of three streams agree on every table but `pod_mount` if and only if each
   claim that some volume event binds is deleted, if at all, after its insert too, and updated, if at all, only
   when it is inserted somewhere.
   */
  lemma ConfluenceIff(pods: seq<Op>, claims: seq<Op>, volumes: seq<Op>)
    requires ThreeStreams(pods, claims, volumes)
    ensures (forall log1, log2 :: Interleaving(log1, pods, claims, volumes) && Interleaving(log2, pods, claims, volumes) ==>
      ButMounts(log1) == ButMounts(log2)) <==> forall u :: Bound(volumes, u) ==> Robust(claims, u)
  {
    hide Robust, Bound, ButMounts;
    if forall u :: Bound(volumes, u) ==> Robust(claims, u) {
      forall log1, log2 | Interleaving(log1, pods, claims, volumes) && Interleaving(log2, pods, claims, volumes)
        ensures ButMounts(log1) == ButMounts(log2)
      {
        RobustAgrees(log1, log2, pods, claims, volumes);
      }
    } else {
      var u :| Bound(volumes, u) && !Robust(claims, u);
      FragileDiffers(pods, claims, volumes, u);
      VolumesFirst(pods, claims, volumes);
      InSequence(pods, claims, volumes);
    }
  }

  /** A deletion alone, of a claim that nothing binds, breaks no order, although the claim is never inserted. */
  lemma LoneDeletionIsHarmless(pods: seq<Op>, delete: Op, log1: seq<Op>, log2: seq<Op>)
    requires delete.DeletePVC? && Interleaving(log1, pods, [delete], []) && Interleaving(log2, pods, [delete], [])
    ensures !InsertedFirst([delete]) && ButMounts(log1) == ButMounts(log2)
  {
    assert [delete][..0] == [] && [delete][0] == delete;
    RobustAgrees(log1, log2, pods, [delete], []);
  }
}
