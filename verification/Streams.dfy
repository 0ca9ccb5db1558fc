/**
 The three event streams, and which tables depend on which of them.

 The streams are not synchronised: the database sees some interleaving. Every table but `pod_mount` turns out
 to be a merge of what each stream would have produced alone, so the interleaving does not matter for them.
 */
module Streams {
  import opened Tables
  import opened Operations

  function PodOps(): Op -> bool { (op: Op) => op.OnPod() }

  function ClaimOps(): Op -> bool { (op: Op) => op.OnClaim() }

  function VolumeOps(): Op -> bool { (op: Op) => op.OnVolume() }

  /** `log` is an interleaving of the three streams. */
  ghost predicate Interleaving(log: seq<Op>, pods: seq<Op>, claims: seq<Op>, volumes: seq<Op>) {
    && Filter(PodOps(), log) == pods
    && Filter(ClaimOps(), log) == claims
    && Filter(VolumeOps(), log) == volumes
  }

  /** A claim is updated or deleted only after it was inserted, as its own stream has it. */
  ghost predicate InsertedFirst(claims: seq<Op>) {
    forall i :: 0 <= i < |claims| && (claims[i].UpdatePVC? || claims[i].DeletePVC?) ==>
      claims[i].uid in Run(EMPTY_DB, claims[..i]).pvc
  }

  /** A claim row: the claim's own columns from one row, the bind columns from the other. */
  function MergeRow(claim: Option<PVCRow>, stub: Option<PVCRow>): Option<PVCRow> {
    if claim.None? && stub.None? then None else
      var own := if claim.Some? then claim.value else EMPTY_CLAIM;
      var bind := if stub.Some? then stub.value else EMPTY_CLAIM;
      Some(own.(bindTime := bind.bindTime, pvUid := bind.pvUid))
  }

  function PartFor(r: Resource, p: DB, c: DB, v: DB): DB {
    match r
    case Pods => p
    case PVCs => c
    case PVs => v
  }

  ghost predicate MergedClaims(pvc: map<UID, PVCRow>, claims: map<UID, PVCRow>, stubs: map<UID, PVCRow>) {
    forall u :: Lookup(pvc, u) == MergeRow(Lookup(claims, u), Lookup(stubs, u))
  }

  ghost predicate MergedVersions(db: DB, p: DB, c: DB, v: DB) {
    forall key :: Lookup(db.rv, key) == Lookup(PartFor(key.resource, p, c, v).rv, key)
  }

  ghost predicate SamePods(db: DB, p: DB) {
    db.pod == p.pod && db.container == p.container
  }

  ghost predicate SameVolumes(db: DB, v: DB) {
    db.pv == v.pv && db.nfs == v.nfs && db.iscsi == v.iscsi
  }

  /** `db` is the merge of what pods, claims and volumes left in databases of their own. */
  ghost predicate Merged(db: DB, p: DB, c: DB, v: DB) {
    && SamePods(db, p)
    && SameVolumes(db, v)
    && MergedClaims(db.pvc, c.pvc, v.pvc)
    && MergedVersions(db, p, c, v)
  }

  /** A call that has the same outcome on its own stream's tables stores its version on both or on neither. */
  lemma SameVersions(db: DB, p: DB, c: DB, v: DB, op: Op, own: DB)
    requires MergedVersions(db, p, c, v)
    requires own == if op.OnPod() then p else if op.OnClaim() then c else v
    requires Body(db, op).Done? <==> Body(own, op).Done?
    ensures var own' := Apply(own, op);
      MergedVersions(Apply(db, op), if op.OnPod() then own' else p, if op.OnClaim() then own' else c, if op.OnVolume() then own' else v)
  {
    hide Body, Apply;
    var own' := Apply(own, op);
    var p', c', v' := if op.OnPod() then own' else p, if op.OnClaim() then own' else c, if op.OnVolume() then own' else v;
    forall key ensures Lookup(Apply(db, op).rv, key) == Lookup(PartFor(key.resource, p', c', v').rv, key) {
      VersionAfter(db, op, key);
      VersionAfter(own, op, key);
    }
  }

  /** A bind that changes nothing is refused on the merged row exactly when it is refused on the stub. */
  lemma SameBindOutcome(db: DB, c: DB, v: DB, op: Op)
    requires op.BindPVC? && MergedClaims(db.pvc, c.pvc, v.pvc)
    ensures Body(db, op).Done? <==> Body(v, op).Done?
  {
    assert Lookup(db.pvc, op.uid) == MergeRow(Lookup(c.pvc, op.uid), Lookup(v.pvc, op.uid));
  }

  lemma PodsStep(db: DB, p: DB, op: Op)
    requires op.OnPod() && SamePods(db, p)
    ensures SamePods(Apply(db, op), Apply(p, op))
    ensures SameVolumes(Apply(db, op), db) && Apply(db, op).pvc == db.pvc
  {
  }

  lemma PodStep(db: DB, p: DB, c: DB, v: DB, op: Op)
    requires op.OnPod() && Merged(db, p, c, v)
    ensures Merged(Apply(db, op), Apply(p, op), c, v)
  {
    PodsStep(db, p, op);
    SameVersions(db, p, c, v, op, p);
  }

  lemma MergedAt(pvc: map<UID, PVCRow>, claims: map<UID, PVCRow>, stubs: map<UID, PVCRow>, u: UID, claim: PVCRow, merged: PVCRow)
    requires MergedClaims(pvc, claims, stubs)
    requires Some(merged) == MergeRow(Some(claim), Lookup(stubs, u))
    ensures MergedClaims(pvc[u := merged], claims[u := claim], stubs)
  {
    forall w ensures Lookup(pvc[u := merged], w) == MergeRow(Lookup(claims[u := claim], w), Lookup(stubs, w)) {
      assert Lookup(pvc, w) == MergeRow(Lookup(claims, w), Lookup(stubs, w));
    }
  }

  lemma StubAt(pvc: map<UID, PVCRow>, claims: map<UID, PVCRow>, stubs: map<UID, PVCRow>, u: UID, stub: PVCRow, merged: PVCRow)
    requires MergedClaims(pvc, claims, stubs)
    requires Some(merged) == MergeRow(Lookup(claims, u), Some(stub))
    ensures MergedClaims(pvc[u := merged], claims, stubs[u := stub])
  {
    forall w ensures Lookup(pvc[u := merged], w) == MergeRow(Lookup(claims, w), Lookup(stubs[u := stub], w)) {
      assert Lookup(pvc, w) == MergeRow(Lookup(claims, w), Lookup(stubs, w));
    }
  }

  lemma ClaimsStep(db: DB, c: DB, v: DB, op: Op)
    requires op.OnClaim() && MergedClaims(db.pvc, c.pvc, v.pvc)
    requires op.UpdatePVC? || op.DeletePVC? ==> op.uid in c.pvc
    ensures MergedClaims(Apply(db, op).pvc, Apply(c, op).pvc, v.pvc)
    ensures SamePods(Apply(db, op), db) && SameVolumes(Apply(db, op), db)
  {
    var u := op.uid;
    assert Lookup(db.pvc, u) == MergeRow(Lookup(c.pvc, u), Lookup(v.pvc, u));
    MergedAt(db.pvc, c.pvc, v.pvc, u, Apply(c, op).pvc[u], Apply(db, op).pvc[u]);
  }

  lemma ClaimStep(db: DB, p: DB, c: DB, v: DB, op: Op)
    requires op.OnClaim() && Merged(db, p, c, v)
    requires op.UpdatePVC? || op.DeletePVC? ==> op.uid in c.pvc
    ensures Merged(Apply(db, op), p, Apply(c, op), v)
  {
    ClaimsStep(db, c, v, op);
    SameVersions(db, p, c, v, op, c);
  }

  lemma BindStep(db: DB, c: DB, v: DB, op: Op)
    requires op.BindPVC? && MergedClaims(db.pvc, c.pvc, v.pvc)
    ensures MergedClaims(Apply(db, op).pvc, c.pvc, Apply(v, op).pvc)
  {
    var u := op.uid;
    SameBindOutcome(db, c, v, op);
    assert Lookup(db.pvc, u) == MergeRow(Lookup(c.pvc, u), Lookup(v.pvc, u));
    if Body(v, op).Done? {
      StubAt(db.pvc, c.pvc, v.pvc, u, Apply(v, op).pvc[u], Apply(db, op).pvc[u]);
    }
  }

  lemma VolumesStep(db: DB, v: DB, op: Op)
    requires op.OnVolume() && SameVolumes(db, v)
    ensures SameVolumes(Apply(db, op), Apply(v, op))
    ensures SamePods(Apply(db, op), db)
    ensures !op.BindPVC? ==> Apply(db, op).pvc == db.pvc && Apply(v, op).pvc == v.pvc
    ensures !op.BindPVC? ==> (Body(db, op).Done? <==> Body(v, op).Done?)
  {
  }

  lemma VolumeStep(db: DB, p: DB, c: DB, v: DB, op: Op)
    requires op.OnVolume() && Merged(db, p, c, v)
    ensures Merged(Apply(db, op), p, c, Apply(v, op))
  {
    hide Body, Apply;
    VolumesStep(db, v, op);
    if op.BindPVC? {
      SameBindOutcome(db, c, v, op);
      BindStep(db, c, v, op);
    }
    SameVersions(db, p, c, v, op, v);
  }

  lemma FilterLast<T>(f: T -> bool, s: seq<T>, x: T)
    ensures Filter(f, s + [x]) == if f(x) then Filter(f, s) + [x] else Filter(f, s)
  {
    assert (s + [x])[..|s|] == s;
  }

  lemma RunLast(db: DB, log: seq<Op>, op: Op)
    ensures Run(db, log + [op]) == Apply(Run(db, log), op)
  {
    assert (log + [op])[..|log|] == log;
  }

  lemma InsertedFirstPrefix(claims: seq<Op>, op: Op)
    requires InsertedFirst(claims + [op])
    ensures InsertedFirst(claims)
    ensures op.UpdatePVC? || op.DeletePVC? ==> op.uid in Run(EMPTY_DB, claims).pvc
  {
    var all := claims + [op];
    forall i | 0 <= i < |claims| && (claims[i].UpdatePVC? || claims[i].DeletePVC?)
      ensures claims[i].uid in Run(EMPTY_DB, claims[..i]).pvc
    {
      assert all[i] == claims[i] && all[..i] == claims[..i];
    }
    assert all[|claims|] == op && all[..|claims|] == claims;
  }

  /**
   Independence: after any interleaving, every table but `pod_mount` is the merge of the three streams run alone.
   */
  lemma {:induction false} StreamsAreIndependent(log: seq<Op>)
    requires InsertedFirst(Filter(ClaimOps(), log))
    ensures Merged(Run(EMPTY_DB, log), Run(EMPTY_DB, Filter(PodOps(), log)), Run(EMPTY_DB, Filter(ClaimOps(), log)),
                   Run(EMPTY_DB, Filter(VolumeOps(), log)))
  {
    if log != [] {
      var front, op := log[..|log| - 1], log[|log| - 1];
      assert log == front + [op];
      var ps, cs, vs := Filter(PodOps(), front), Filter(ClaimOps(), front), Filter(VolumeOps(), front);
      var db, p, c, v := Run(EMPTY_DB, front), Run(EMPTY_DB, ps), Run(EMPTY_DB, cs), Run(EMPTY_DB, vs);
      FilterLast(PodOps(), front, op);
      FilterLast(ClaimOps(), front, op);
      FilterLast(VolumeOps(), front, op);
      if op.OnClaim() {
        InsertedFirstPrefix(cs, op);
      }
      StreamsAreIndependent(front);
      RunLast(EMPTY_DB, front, op);
      if op.OnPod() {
        PodStep(db, p, c, v, op);
        RunLast(EMPTY_DB, ps, op);
      } else if op.OnClaim() {
        ClaimStep(db, p, c, v, op);
        RunLast(EMPTY_DB, cs, op);
      } else {
        VolumeStep(db, p, c, v, op);
        RunLast(EMPTY_DB, vs, op);
      }
    }
  }

  lemma SameLookups<K, V>(m: map<K, V>, n: map<K, V>)
    requires forall k :: Lookup(m, k) == Lookup(n, k)
    ensures m == n
  {
    forall k ensures k in m <==> k in n {
      assert Lookup(m, k) == Lookup(n, k);
    }
    forall k | k in m ensures m[k] == n[k] {
      assert Lookup(m, k) == Lookup(n, k);
    }
  }

  /** Confluence: two interleavings of the same streams agree on every table but `pod_mount`. */
  lemma Confluence(log1: seq<Op>, log2: seq<Op>, pods: seq<Op>, claims: seq<Op>, volumes: seq<Op>)
    requires Interleaving(log1, pods, claims, volumes) && Interleaving(log2, pods, claims, volumes)
    requires InsertedFirst(claims)
    ensures Run(EMPTY_DB, log1).(podMount := []) == Run(EMPTY_DB, log2).(podMount := [])
  {
    StreamsAreIndependent(log1);
    StreamsAreIndependent(log2);
    SameLookups(Run(EMPTY_DB, log1).pvc, Run(EMPTY_DB, log2).pvc);
    SameLookups(Run(EMPTY_DB, log1).rv, Run(EMPTY_DB, log2).rv);
  }

  lemma FilterPair<T>(f: T -> bool, x: T, y: T)
    ensures Filter(f, [x, y]) == (if f(x) then [x] else []) + (if f(y) then [y] else [])
  {
    FilterLast(f, [x], y);
    FilterLast(f, [], x);
    assert [] + [x] == [x] && [x] + [y] == [x, y];
  }

  /** Two single-event streams, of a claim and of a volume, have these two interleavings. */
  lemma PairInterleaves(bind: Op, claim: Op)
    requires bind.BindPVC? && claim.OnClaim()
    ensures Interleaving([bind, claim], [], [claim], [bind]) && Interleaving([claim, bind], [], [claim], [bind])
  {
    FilterPair(PodOps(), bind, claim);
    FilterPair(ClaimOps(), bind, claim);
    FilterPair(VolumeOps(), bind, claim);
    FilterPair(PodOps(), claim, bind);
    FilterPair(ClaimOps(), claim, bind);
    FilterPair(VolumeOps(), claim, bind);
  }

  /**
   That claims are inserted first is needed: a claim whose deletion is all that its stream still shows keeps no
   delete time, unless a bind happened to make its row before.
   */
  lemma OrderMattersWithoutInserts(bind: Op, delete: Op)
    requires bind.BindPVC? && delete.DeletePVC? && bind.uid == delete.uid
    ensures Interleaving([bind, delete], [], [delete], [bind]) && Interleaving([delete, bind], [], [delete], [bind])
    ensures Run(EMPTY_DB, [bind, delete]).pvc != Run(EMPTY_DB, [delete, bind]).pvc
  {
    PairInterleaves(bind, delete);
    RunTwo(EMPTY_DB, bind, delete);
    RunTwo(EMPTY_DB, delete, bind);
    var u := bind.uid;
    assert Apply(Apply(EMPTY_DB, bind), delete).pvc[u].deleteTime.Some?;
    assert Apply(Apply(EMPTY_DB, delete), bind).pvc[u].deleteTime.None?;
  }

  ghost predicate All(kind: Op -> bool, ops: seq<Op>) {
    forall op :: op in ops ==> kind(op)
  }

  /** The three streams consist of events of their own kind. */
  ghost predicate ThreeStreams(pods: seq<Op>, claims: seq<Op>, volumes: seq<Op>) {
    All(PodOps(), pods) && All(ClaimOps(), claims) && All(VolumeOps(), volumes)
  }

  lemma FilterFour(f: Op -> bool, a: seq<Op>, b: seq<Op>, c: seq<Op>, d: seq<Op>)
    ensures Filter(f, a + b + c + d) == Filter(f, a) + Filter(f, b) + Filter(f, c) + Filter(f, d)
  {
    FilterConcat(f, a + b + c, d);
    FilterConcat(f, a + b, c);
    FilterConcat(f, a, b);
  }

  lemma NoneOf(f: Op -> bool, kind: Op -> bool, ops: seq<Op>)
    requires All(kind, ops) && forall op :: kind(op) ==> !f(op)
    ensures Filter(f, ops) == []
  {
    FilterAll(f, ops);
  }

  lemma AllOf(kind: Op -> bool, ops: seq<Op>)
    requires All(kind, ops)
    ensures Filter(kind, ops) == ops
  {
    FilterAll(kind, ops);
  }

  lemma ThreeOf(p: seq<Op>, c: seq<Op>, v: seq<Op>, q: seq<Op>)
    requires All(PodOps(), p) && All(ClaimOps(), c) && All(VolumeOps(), v) && All(PodOps(), q)
    ensures Filter(PodOps(), p + c + v + q) == p + q
    ensures Filter(ClaimOps(), p + c + v + q) == c
    ensures Filter(VolumeOps(), p + c + v + q) == v
  {
    hide Filter, All;
    assert Filter(PodOps(), p + c + v + q) == p + q by {
      FilterFour(PodOps(), p, c, v, q);
      AllOf(PodOps(), p);
      AllOf(PodOps(), q);
      NoneOf(PodOps(), ClaimOps(), c);
      NoneOf(PodOps(), VolumeOps(), v);
      assert p + [] + [] + q == p + q;
    }
    assert Filter(ClaimOps(), p + c + v + q) == c by {
      FilterFour(ClaimOps(), p, c, v, q);
      AllOf(ClaimOps(), c);
      NoneOf(ClaimOps(), PodOps(), p);
      NoneOf(ClaimOps(), PodOps(), q);
      NoneOf(ClaimOps(), VolumeOps(), v);
      assert [] + c + [] + [] == c;
    }
    assert Filter(VolumeOps(), p + c + v + q) == v by {
      FilterFour(VolumeOps(), p, c, v, q);
      AllOf(VolumeOps(), v);
      NoneOf(VolumeOps(), PodOps(), p);
      NoneOf(VolumeOps(), PodOps(), q);
      NoneOf(VolumeOps(), ClaimOps(), c);
      assert [] + [] + v + [] == v;
    }
  }

  /** All claims, then all volumes, at one point of the pod stream. */
  lemma ClaimsAmidPods(pods: seq<Op>, claims: seq<Op>, volumes: seq<Op>, n: nat)
    requires ThreeStreams(pods, claims, volumes) && n <= |pods|
    ensures Interleaving(pods[..n] + claims + volumes + pods[n..], pods, claims, volumes)
  {
    ThreeOf(pods[..n], claims, volumes, pods[n..]);
    assert pods[..n] + pods[n..] == pods;
  }

  /** One stream after the other is an interleaving. */
  lemma InSequence(pods: seq<Op>, claims: seq<Op>, volumes: seq<Op>)
    requires ThreeStreams(pods, claims, volumes)
    ensures Interleaving(claims + volumes + pods, pods, claims, volumes)
  {
    ClaimsAmidPods(pods, claims, volumes, 0);
    assert pods[..0] + claims + volumes + pods[0..] == claims + volumes + pods;
  }

  /** The volumes, then the claims, then the pods. */
  lemma VolumesFirst(pods: seq<Op>, claims: seq<Op>, volumes: seq<Op>)
    requires ThreeStreams(pods, claims, volumes)
    ensures Interleaving(volumes + claims + pods, pods, claims, volumes)
  {
    hide Filter, All;
    var none: seq<Op> := [];
    assert none + volumes + claims + pods == volumes + claims + pods;
    assert Filter(PodOps(), volumes + claims + pods) == pods by {
      FilterFour(PodOps(), none, volumes, claims, pods);
      AllOf(PodOps(), pods);
      NoneOf(PodOps(), ClaimOps(), claims);
      NoneOf(PodOps(), VolumeOps(), volumes);
      FilterNone(PodOps());
    }
    assert Filter(ClaimOps(), volumes + claims + pods) == claims by {
      FilterFour(ClaimOps(), none, volumes, claims, pods);
      AllOf(ClaimOps(), claims);
      NoneOf(ClaimOps(), PodOps(), pods);
      NoneOf(ClaimOps(), VolumeOps(), volumes);
      FilterNone(ClaimOps());
    }
    assert Filter(VolumeOps(), volumes + claims + pods) == volumes by {
      FilterFour(VolumeOps(), none, volumes, claims, pods);
      AllOf(VolumeOps(), volumes);
      NoneOf(VolumeOps(), PodOps(), pods);
      NoneOf(VolumeOps(), ClaimOps(), claims);
      FilterNone(VolumeOps());
    }
  }

  lemma FilterNone(f: Op -> bool)
    ensures Filter(f, []) == []
  {
  }
}
