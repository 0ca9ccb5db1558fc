/**
 How a pod's mount of a claim name is matched with a claim row: the two INSERT ... SELECT statements with
 their nested MAX and MIN, and the fallback that inserts a row without a claim.
 */
module Matching {
  import opened Tables

  predicate IsLeast(s: set<int>, m: int) {
    m in s && forall x :: x in s ==> m <= x
  }

  lemma {:induction false} LeastExists(s: set<int>)
    requires s != {}
    ensures exists m :: IsLeast(s, m)
  {
    var a := SomeMember(s);
    if s == {a} {
      assert IsLeast(s, a);
    } else {
      LeastExists(s - {a});
      var b :| IsLeast(s - {a}, b);
      assert forall x :: x in s ==> x == a || x in s - {a};
      assert IsLeast(s, if a <= b then a else b);
    }
  }

  /** SELECT MIN over the times; NULL when there are none. */
  function Least(s: set<int>): (m: Option<int>)
    ensures m.None? <==> s == {}
    ensures m.Some? ==> IsLeast(s, m.value)
  {
    if s == {} then None else
      LeastExists(s);
      var m :| IsLeast(s, m);
      Some(m)
  }

  /** SELECT MAX over the times; NULL when there are none. */
  function Greatest(s: set<int>): (m: Option<int>)
    ensures m.None? <==> s == {}
    ensures m.Some? ==> m.value in s && forall x :: x in s ==> x <= m.value
  {
    var negated := set x | x in s :: -x;
    assert forall x :: x in s ==> -x in negated;
    match Least(negated)
    case None => None
    case Some(m) => Some(-m)
  }

  /** The members of `s` in primary-key order. */
  function Ascending(s: set<UID>): (r: seq<UID>)
    ensures forall u :: u in r <==> u in s
    ensures |r| == |s|
  {
    if s == {} then [] else
      var u := Least(s).value;
      [u] + Ascending(s - {u})
  }

  lemma {:induction false} AscendingIsSorted(s: set<UID>)
    ensures forall i, j :: 0 <= i < j < |Ascending(s)| ==> Ascending(s)[i] < Ascending(s)[j]
  {
    if s != {} {
      var u := Least(s).value;
      var rest := Ascending(s - {u});
      AscendingIsSorted(s - {u});
      assert Ascending(s) == [u] + rest;
      assert forall i :: 0 <= i < |rest| ==> rest[i] in rest && rest[i] in s && rest[i] != u;
    }
  }

  /** WHERE create_time <= ? AND (delete_time IS NULL OR delete_time >= ?) AND name LIKE ? */
  predicate AliveAt(r: PVCRow, name: string, t: Time) {
    && r.name == Some(name)
    && r.createTime.Some? && r.createTime.value <= t
    && (r.deleteTime.None? || r.deleteTime.value >= t)
  }

  /** WHERE create_time >= ? AND (delete_time IS NULL OR delete_time > ?) AND name LIKE ? */
  predicate LaterThan(r: PVCRow, name: string, t: Time) {
    && r.name == Some(name)
    && r.createTime.Some? && r.createTime.value >= t
    && (r.deleteTime.None? || r.deleteTime.value > t)
  }

  function AliveTimes(pvc: map<UID, PVCRow>, name: string, t: Time): set<Time> {
    set u | u in pvc && AliveAt(pvc[u], name, t) :: pvc[u].createTime.value
  }

  function LaterTimes(pvc: map<UID, PVCRow>, name: string, t: Time): set<Time> {
    set u | u in pvc && LaterThan(pvc[u], name, t) :: pvc[u].createTime.value
  }

  /** WHERE create_time = (...) AND name LIKE ?: a comparison with NULL selects nothing. */
  function CreatedAt(pvc: map<UID, PVCRow>, name: string, t: Option<Time>): set<UID> {
    set u | u in pvc && t.Some? && pvc[u].createTime == t && pvc[u].name == Some(name)
  }

  function EarlierMatch(pvc: map<UID, PVCRow>, name: string, t: Time): set<UID> {
    CreatedAt(pvc, name, Greatest(AliveTimes(pvc, name, t)))
  }

  function LaterMatch(pvc: map<UID, PVCRow>, name: string, t: Time): set<UID> {
    CreatedAt(pvc, name, Least(LaterTimes(pvc, name, t)))
  }

  /** The claims that a mount of `name` by a pod created at `t` is inserted for. */
  function Matches(pvc: map<UID, PVCRow>, name: string, t: Time): set<UID> {
    var earlier := EarlierMatch(pvc, name, t);
    if earlier != {} then earlier else LaterMatch(pvc, name, t)
  }

  function ClaimedRows(pod: UID, container: string, m: VolumeMount, claims: seq<UID>): (r: seq<MountRow>)
    ensures |r| == |claims|
    ensures forall i :: 0 <= i < |r| ==> r[i] == MountRow(pod, Some(claims[i]), container, m.name, m.readOnly)
  {
    seq(|claims|, i requires 0 <= i < |claims| => MountRow(pod, Some(claims[i]), container, m.name, m.readOnly))
  }

  function UnclaimedRow(pod: UID, container: string, m: VolumeMount): MountRow {
    MountRow(pod, None, container, m.name, m.readOnly)
  }

  /** The rows that one mount of a pod adds to `pod_mount`. */
  function RowsForMount(pvc: map<UID, PVCRow>, pod: UID, container: string, m: VolumeMount, t: Time): seq<MountRow> {
    var claims := Matches(pvc, m.name, t);
    if claims != {} then ClaimedRows(pod, container, m, Ascending(claims))
    else [UnclaimedRow(pod, container, m)]
  }

  /** The rows that the first mounts of one container add. */
  function RowsForMounts(pvc: map<UID, PVCRow>, pod: UID, container: string, ms: seq<VolumeMount>, t: Time): seq<MountRow> {
    if ms == [] then [] else
      RowsForMounts(pvc, pod, container, ms[..|ms| - 1], t) + RowsForMount(pvc, pod, container, ms[|ms| - 1], t)
  }

  /** The rows that all containers of a pod add. */
  function RowsForPod(pvc: map<UID, PVCRow>, pod: UID, cs: seq<ContainerDesc>, t: Time): seq<MountRow> {
    if cs == [] then [] else
      var c := cs[|cs| - 1];
      RowsForPod(pvc, pod, cs[..|cs| - 1], t) + RowsForMounts(pvc, pod, c.name, c.pvcMounts, t)
  }

  // ------------------------------------------------------------------ what a match means

  /** No two rows named `name` have the same create time. */
  ghost predicate Untied(pvc: map<UID, PVCRow>, name: string) {
    forall u, v | u in pvc && v in pvc && pvc[u].name == pvc[v].name == Some(name) ::
      pvc[u].createTime.Some? && pvc[u].createTime == pvc[v].createTime ==> u == v
  }

  /** `u` is the latest claim of that name alive at `t`. */
  ghost predicate LatestAlive(pvc: map<UID, PVCRow>, name: string, t: Time, u: UID) {
    && u in pvc && AliveAt(pvc[u], name, t)
    && forall v :: v in pvc && AliveAt(pvc[v], name, t) && v != u ==> pvc[v].createTime.value < pvc[u].createTime.value
  }

  /** `u` is the earliest claim of that name created at or after `t` and not deleted by then. */
  ghost predicate EarliestLater(pvc: map<UID, PVCRow>, name: string, t: Time, u: UID) {
    && u in pvc && LaterThan(pvc[u], name, t)
    && forall v :: v in pvc && LaterThan(pvc[v], name, t) && v != u ==> pvc[u].createTime.value < pvc[v].createTime.value
  }

  ghost predicate SomeAlive(pvc: map<UID, PVCRow>, name: string, t: Time) {
    exists v :: v in pvc && AliveAt(pvc[v], name, t)
  }

  ghost predicate SomeLater(pvc: map<UID, PVCRow>, name: string, t: Time) {
    exists v :: v in pvc && LaterThan(pvc[v], name, t)
  }

  /** The claim that the documentation describes for a mount, or none. */
  ghost predicate Preferred(pvc: map<UID, PVCRow>, name: string, t: Time, claim: Option<UID>) {
    match claim
    case Some(u) => LatestAlive(pvc, name, t, u) || (!SomeAlive(pvc, name, t) && EarliestLater(pvc, name, t, u))
    case None => !SomeAlive(pvc, name, t) && !SomeLater(pvc, name, t)
  }

  lemma EarlierMatchNonempty(pvc: map<UID, PVCRow>, name: string, t: Time)
    ensures EarlierMatch(pvc, name, t) != {} <==> SomeAlive(pvc, name, t)
  {
    var times := AliveTimes(pvc, name, t);
    if v :| v in pvc && AliveAt(pvc[v], name, t) {
      assert pvc[v].createTime.value in times;
      var m := Greatest(times).value;
      var u :| u in pvc && AliveAt(pvc[u], name, t) && pvc[u].createTime.value == m;
      assert u in EarlierMatch(pvc, name, t);
    }
  }

  lemma LaterMatchNonempty(pvc: map<UID, PVCRow>, name: string, t: Time)
    ensures LaterMatch(pvc, name, t) != {} <==> SomeLater(pvc, name, t)
  {
    var times := LaterTimes(pvc, name, t);
    if v :| v in pvc && LaterThan(pvc[v], name, t) {
      assert pvc[v].createTime.value in times;
      var m := Least(times).value;
      var u :| u in pvc && LaterThan(pvc[u], name, t) && pvc[u].createTime.value == m;
      assert u in LaterMatch(pvc, name, t);
    }
  }

  lemma EarlierMatchIsLatest(pvc: map<UID, PVCRow>, name: string, t: Time, u: UID)
    requires Untied(pvc, name) && SomeAlive(pvc, name, t)
    ensures EarlierMatch(pvc, name, t) == {u} <==> LatestAlive(pvc, name, t, u)
  {
    var times := AliveTimes(pvc, name, t);
    EarlierMatchNonempty(pvc, name, t);
    var m := Greatest(times).value;
    var w :| w in pvc && AliveAt(pvc[w], name, t) && pvc[w].createTime.value == m;
    assert EarlierMatch(pvc, name, t) == {w};
    forall v | v in pvc && AliveAt(pvc[v], name, t) && v != w
      ensures pvc[v].createTime.value < pvc[w].createTime.value
    {
      assert pvc[v].createTime.value in times;
      assert pvc[v].createTime != pvc[w].createTime;
    }
    assert LatestAlive(pvc, name, t, w);
    assert {w} == {u} <==> w == u by { assert w in {w}; }
  }

  lemma LaterMatchIsEarliest(pvc: map<UID, PVCRow>, name: string, t: Time, u: UID)
    requires Untied(pvc, name) && SomeLater(pvc, name, t)
    ensures LaterMatch(pvc, name, t) == {u} <==> EarliestLater(pvc, name, t, u)
  {
    var times := LaterTimes(pvc, name, t);
    LaterMatchNonempty(pvc, name, t);
    var m := Least(times).value;
    var w :| w in pvc && LaterThan(pvc[w], name, t) && pvc[w].createTime.value == m;
    assert LaterMatch(pvc, name, t) == {w};
    forall v | v in pvc && LaterThan(pvc[v], name, t) && v != w
      ensures pvc[w].createTime.value < pvc[v].createTime.value
    {
      assert pvc[v].createTime.value in times;
      assert pvc[v].createTime != pvc[w].createTime;
    }
    assert EarliestLater(pvc, name, t, w);
    assert {w} == {u} <==> w == u by { assert w in {w}; }
  }

  function Chosen(claim: Option<UID>): set<UID> {
    match claim
    case Some(u) => {u}
    case None => {}
  }

  /** The nested selects with their fallback pick the preferred claim, and only that one. */
  lemma MatchIsPreferred(pvc: map<UID, PVCRow>, name: string, t: Time, claim: Option<UID>)
    requires Untied(pvc, name)
    ensures Matches(pvc, name, t) == Chosen(claim) <==> Preferred(pvc, name, t, claim)
  {
    EarlierMatchNonempty(pvc, name, t);
    LaterMatchNonempty(pvc, name, t);
    match claim
    case None =>
    case Some(u) =>
      assert u in {u};
      if SomeAlive(pvc, name, t) {
        EarlierMatchIsLatest(pvc, name, t, u);
      } else if SomeLater(pvc, name, t) {
        LaterMatchIsEarliest(pvc, name, t, u);
      }
  }

  /** Without ties some claim, or none, is preferred. */
  lemma PreferredExists(pvc: map<UID, PVCRow>, name: string, t: Time) returns (claim: Option<UID>)
    requires Untied(pvc, name)
    ensures Preferred(pvc, name, t, claim)
    ensures Matches(pvc, name, t) == Chosen(claim)
  {
    EarlierMatchNonempty(pvc, name, t);
    LaterMatchNonempty(pvc, name, t);
    var chosen := Matches(pvc, name, t);
    if chosen == {} {
      claim := None;
    } else {
      var u :| u in chosen;
      claim := Some(u);
      forall v | v in chosen ensures v == u {
        assert pvc[u].createTime == pvc[v].createTime && pvc[u].name == pvc[v].name == Some(name);
      }
      assert chosen == {u};
    }
    MatchIsPreferred(pvc, name, t, claim);
  }

  /**
   One mount adds exactly one row, and that row names the preferred claim.
   */
  lemma OneRowPerMount(pvc: map<UID, PVCRow>, pod: UID, container: string, m: VolumeMount, t: Time) returns (claim: Option<UID>)
    requires Untied(pvc, m.name)
    ensures Preferred(pvc, m.name, t, claim)
    ensures RowsForMount(pvc, pod, container, m, t) == [MountRow(pod, claim, container, m.name, m.readOnly)]
  {
    claim := PreferredExists(pvc, m.name, t);
    if claim.Some? {
      var order := Ascending({claim.value});
      assert |order| == 1 && order[0] in order;
    }
  }

  /** A match is always a claim that was inserted under that name, never a stub that only a bind made. */
  lemma StubsNeverMatch(pvc: map<UID, PVCRow>, name: string, t: Time, u: UID)
    requires u in Matches(pvc, name, t)
    ensures u in pvc && pvc[u].name == Some(name) && pvc[u].createTime.Some?
  {
  }

  lemma OneRowPerMatch(pvc: map<UID, PVCRow>, pod: UID, container: string, m: VolumeMount, t: Time)
    ensures |RowsForMount(pvc, pod, container, m, t)| == 1
      <==> forall u, v :: u in Matches(pvc, m.name, t) && v in Matches(pvc, m.name, t) ==> u == v
  {
    var chosen := Matches(pvc, m.name, t);
    if chosen != {} {
      var u :| u in chosen;
      if forall v :: v in chosen ==> v == u {
        assert chosen == {u};
      } else {
        var v :| v in chosen && v != u;
        assert |{u, v}| == 2 && {u, v} + (chosen - {u, v}) == chosen;
      }
    }
  }

  /** `u` is alive at `t`, and no claim of that name alive then is younger. */
  ghost predicate YoungestAlive(pvc: map<UID, PVCRow>, name: string, t: Time, u: UID) {
    && u in pvc && AliveAt(pvc[u], name, t)
    && forall v :: v in pvc && AliveAt(pvc[v], name, t) ==> pvc[v].createTime.value <= pvc[u].createTime.value
  }

  /** `u` came later and was not deleted by `t`, and no such claim is older. */
  ghost predicate OldestLater(pvc: map<UID, PVCRow>, name: string, t: Time, u: UID) {
    && u in pvc && LaterThan(pvc[u], name, t)
    && forall v :: v in pvc && LaterThan(pvc[v], name, t) ==> pvc[u].createTime.value <= pvc[v].createTime.value
  }

  /** The two rows have that name and the same create time. A deleted row ties with a live one. */
  predicate Twins(pvc: map<UID, PVCRow>, name: string, u: UID, v: UID) {
    && u in pvc && v in pvc && u != v
    && pvc[u].name == pvc[v].name == Some(name) && pvc[u].createTime.Some? && pvc[u].createTime == pvc[v].createTime
  }

  /** The create time that decides is shared: by the youngest claim alive or, if none is, by the oldest later one. */
  ghost predicate Tied(pvc: map<UID, PVCRow>, name: string, t: Time) {
    exists u, v :: Twins(pvc, name, u, v)
      && (YoungestAlive(pvc, name, t, u) || (!SomeAlive(pvc, name, t) && OldestLater(pvc, name, t, u)))
  }

  /** Whatever is picked shares its name and create time with a row that decides. */
  lemma MatchesOfYoungest(pvc: map<UID, PVCRow>, name: string, t: Time, u: UID)
    requires YoungestAlive(pvc, name, t, u)
    ensures u in Matches(pvc, name, t)
    ensures forall v :: v in Matches(pvc, name, t) <==> v == u || Twins(pvc, name, u, v)
  {
    EarlierMatchNonempty(pvc, name, t);
    var times := AliveTimes(pvc, name, t);
    assert pvc[u].createTime.value in times;
    assert Greatest(times) == Some(pvc[u].createTime.value);
  }

  lemma MatchesOfOldest(pvc: map<UID, PVCRow>, name: string, t: Time, u: UID)
    requires !SomeAlive(pvc, name, t) && OldestLater(pvc, name, t, u)
    ensures u in Matches(pvc, name, t)
    ensures forall v :: v in Matches(pvc, name, t) <==> v == u || Twins(pvc, name, u, v)
  {
    EarlierMatchNonempty(pvc, name, t);
    LaterMatchNonempty(pvc, name, t);
    var times := LaterTimes(pvc, name, t);
    assert pvc[u].createTime.value in times;
    assert Least(times) == Some(pvc[u].createTime.value);
  }

  /** Whenever something matches, there is a row that decides. */
  lemma SomeDecides(pvc: map<UID, PVCRow>, name: string, t: Time) returns (u: UID)
    requires Matches(pvc, name, t) != {}
    ensures YoungestAlive(pvc, name, t, u) || (!SomeAlive(pvc, name, t) && OldestLater(pvc, name, t, u))
  {
    EarlierMatchNonempty(pvc, name, t);
    LaterMatchNonempty(pvc, name, t);
    if SomeAlive(pvc, name, t) {
      var times := AliveTimes(pvc, name, t);
      u :| u in pvc && AliveAt(pvc[u], name, t) && pvc[u].createTime.value == Greatest(times).value;
      assert forall v :: v in pvc && AliveAt(pvc[v], name, t) ==> pvc[v].createTime.value in times;
    } else {
      var times := LaterTimes(pvc, name, t);
      u :| u in pvc && LaterThan(pvc[u], name, t) && pvc[u].createTime.value == Least(times).value;
      assert forall v :: v in pvc && LaterThan(pvc[v], name, t) ==> pvc[v].createTime.value in times;
    }
  }

  lemma Decides(pvc: map<UID, PVCRow>, name: string, t: Time, u: UID)
    requires YoungestAlive(pvc, name, t, u) || (!SomeAlive(pvc, name, t) && OldestLater(pvc, name, t, u))
    ensures u in Matches(pvc, name, t)
    ensures forall v :: v in Matches(pvc, name, t) <==> v == u || Twins(pvc, name, u, v)
  {
    if YoungestAlive(pvc, name, t, u) {
      MatchesOfYoungest(pvc, name, t, u);
    } else {
      MatchesOfOldest(pvc, name, t, u);
    }
  }

  /**
   Exactly when a mount adds one row: the deciding create time is not shared by another claim of that name. With a
   tie it adds one row per tied claim, and the error that reports it is dropped by the caller.
   */
  lemma OneRowExactly(pvc: map<UID, PVCRow>, pod: UID, container: string, m: VolumeMount, t: Time)
    ensures |RowsForMount(pvc, pod, container, m, t)| == 1 <==> !Tied(pvc, m.name, t)
  {
    hide RowsForMount, Matches, YoungestAlive, OldestLater, SomeAlive;
    OneRowPerMatch(pvc, pod, container, m, t);
    var chosen := Matches(pvc, m.name, t);
    if chosen != {} {
      var u := SomeDecides(pvc, m.name, t);
      Decides(pvc, m.name, t, u);
    }
    if Tied(pvc, m.name, t) {
      var u, v :| Twins(pvc, m.name, u, v)
        && (YoungestAlive(pvc, m.name, t, u) || (!SomeAlive(pvc, m.name, t) && OldestLater(pvc, m.name, t, u)));
      Decides(pvc, m.name, t, u);
      assert u in chosen && v in chosen;
    }
  }

  /** A tie occurs: two claims of one name, made at one moment, give the mount of a later pod two rows. */
  lemma TwoRowsForTwins(pod: UID, container: string, m: VolumeMount, u: UID, v: UID, row: PVCRow, t: Time)
    requires u != v && AliveAt(row, m.name, t)
    ensures Tied(map[u := row, v := row], m.name, t)
    ensures |RowsForMount(map[u := row, v := row], pod, container, m, t)| == 2
  {
    var pvc := map[u := row, v := row];
    assert Twins(pvc, m.name, u, v) && YoungestAlive(pvc, m.name, t, u);
    MatchesOfYoungest(pvc, m.name, t, u);
    assert Matches(pvc, m.name, t) == {u, v};
  }
}
