/**
 From events to mounts: however the three watches are scheduled, cut and resumed, once all pod and claim events
 were handled the mounts of a settled pod are on the newest claim.
 */
module EndToEnd {
  import opened Tables
  import opened Operations
  import opened Streams
  import opened Convergence
  import Granularity
  import opened Watcher
  import opened Reconnect

  /** The calls made for a trace of events, in order. */
  function TraceOps(ns: string, trace: seq<Handled>): seq<Op>
    requires AllHandledUsable(trace)
  {
    if trace == [] then [] else
      var front, last := trace[..|trace| - 1], trace[|trace| - 1];
      TraceOps(ns, front) + EventOps(EventRun(EMPTY_DB, ns, front), ns, last.event, last.at)
  }

  predicate IsPodEvent(e: Event) {
    e.PodEvent? && e.Usable()
  }

  /** The event carries its deletion time, so that the clock plays no part. */
  predicate IsDatedClaimEvent(e: Event) {
    e.PVCEvent? && (e.kind == Deleted ==> e.pvc.deletionTime.Some?)
  }

  ghost predicate PodLog(log: seq<Event>) {
    forall i :: 0 <= i < |log| ==> IsPodEvent(log[i])
  }

  ghost predicate Dated(log: seq<Event>) {
    forall i :: 0 <= i < |log| ==> IsDatedClaimEvent(log[i])
  }

  /** The calls that a log of pod events leads to. */
  function PodStream(ns: string, log: seq<Event>): seq<Op>
    requires PodLog(log)
  {
    if log == [] then [] else
      var e := log[|log| - 1];
      assert IsPodEvent(e);
      PodStream(ns, log[..|log| - 1]) + PodOpsOf(ns, e.kind, e.pod, e.json)
  }

  /** The calls that a log of dated claim events leads to. */
  function ClaimStreamOf(ns: string, log: seq<Event>): seq<Op>
    requires Dated(log)
  {
    if log == [] then [] else
      var e := log[|log| - 1];
      assert IsDatedClaimEvent(e);
      ClaimStreamOf(ns, log[..|log| - 1]) + PVCOpsOf(ns, e.kind, e.pvc, e.json, 0)
  }

  /** Processing events is running their calls. */
  lemma {:induction false} TraceIsARun(ns: string, trace: seq<Handled>)
    requires AllHandledUsable(trace)
    ensures EventRun(EMPTY_DB, ns, trace) == Run(EMPTY_DB, TraceOps(ns, trace))
  {
    if trace != [] {
      var front, last := trace[..|trace| - 1], trace[|trace| - 1];
      TraceIsARun(ns, front);
      RunConcat(EMPTY_DB, TraceOps(ns, front), EventOps(EventRun(EMPTY_DB, ns, front), ns, last.event, last.at));
    }
  }

  lemma EventOpsKinds(db: DB, ns: string, e: Event, at: Moment)
    requires e.Usable()
    ensures e.PodEvent? ==> All(PodOps(), EventOps(db, ns, e, at))
    ensures e.PVCEvent? ==> All(ClaimOps(), EventOps(db, ns, e, at))
    ensures e.PVEvent? ==> All(VolumeOps(), EventOps(db, ns, e, at))
  {
  }

  lemma FilterPodOps(db: DB, ns: string, e: Event, at: Moment)
    requires e.Usable()
    ensures Filter(PodOps(), EventOps(db, ns, e, at)) == if e.PodEvent? then PodOpsOf(ns, e.kind, e.pod, e.json) else []
  {
    EventOpsKinds(db, ns, e, at);
    match e
    case PodEvent(_, _, _) => AllOf(PodOps(), EventOps(db, ns, e, at));
    case PVEvent(_, _, _) => NoneOf(PodOps(), VolumeOps(), EventOps(db, ns, e, at));
    case PVCEvent(_, _, _) => NoneOf(PodOps(), ClaimOps(), EventOps(db, ns, e, at));
  }

  lemma ClaimOpsDated(ns: string, e: Event, now: Time)
    requires IsDatedClaimEvent(e)
    ensures PVCOpsOf(ns, e.kind, e.pvc, e.json, now) == PVCOpsOf(ns, e.kind, e.pvc, e.json, 0)
  {
  }

  lemma FilterClaimOps(db: DB, ns: string, e: Event, at: Moment)
    requires e.Usable() && (e.PVCEvent? ==> IsDatedClaimEvent(e))
    ensures Filter(ClaimOps(), EventOps(db, ns, e, at)) == if e.PVCEvent? then PVCOpsOf(ns, e.kind, e.pvc, e.json, 0) else []
  {
    var ops := EventOps(db, ns, e, at);
    EventOpsKinds(db, ns, e, at);
    if e.PodEvent? {
      NoneOf(ClaimOps(), PodOps(), ops);
    } else if e.PVEvent? {
      NoneOf(ClaimOps(), VolumeOps(), ops);
    } else {
      ClaimOpsDated(ns, e, at.now);
      AllOf(ClaimOps(), ops);
    }
  }

  lemma {:induction false} EventsOfKind(trace: seq<Handled>, r: Resource)
    requires AllHandledUsable(trace)
    ensures forall i :: 0 <= i < |EventsOf(trace, r)| ==> EventsOf(trace, r)[i].Usable() && EventsOf(trace, r)[i].OfResource() == r
  {
    if trace != [] {
      EventsOfKind(trace[..|trace| - 1], r);
    }
  }

  /** The pod calls of a trace depend only on the pod events, not on the other streams or the clock. */
  lemma {:induction false} PodsOfTrace(ns: string, trace: seq<Handled>, log: seq<Event>)
    requires AllHandledUsable(trace) && log == EventsOf(trace, Pods)
    ensures PodLog(log)
    ensures Filter(PodOps(), TraceOps(ns, trace)) == PodStream(ns, log)
  {
    EventsOfKind(trace, Pods);
    if trace != [] {
      var front, last := trace[..|trace| - 1], trace[|trace| - 1];
      PodsOfTrace(ns, front, EventsOf(front, Pods));
      var db := EventRun(EMPTY_DB, ns, front);
      FilterConcat(PodOps(), TraceOps(ns, front), EventOps(db, ns, last.event, last.at));
      FilterPodOps(db, ns, last.event, last.at);
      if last.event.PodEvent? {
        assert log[..|log| - 1] == EventsOf(front, Pods);
      }
    }
  }

  lemma {:induction false} ClaimsOfTrace(ns: string, trace: seq<Handled>, log: seq<Event>)
    requires AllHandledUsable(trace) && log == EventsOf(trace, PVCs) && Dated(log)
    ensures Filter(ClaimOps(), TraceOps(ns, trace)) == ClaimStreamOf(ns, log)
  {
    if trace != [] {
      var front, last := trace[..|trace| - 1], trace[|trace| - 1];
      var db := EventRun(EMPTY_DB, ns, front);
      if last.event.PVCEvent? {
        assert log[..|log| - 1] == EventsOf(front, PVCs);
        assert last.event == log[|log| - 1];
      }
      ClaimsOfTrace(ns, front, EventsOf(front, PVCs));
      FilterConcat(ClaimOps(), TraceOps(ns, front), EventOps(db, ns, last.event, last.at));
      FilterClaimOps(db, ns, last.event, last.at);
    }
  }

  /** All pod and claim events were handled. */
  predicate Finished(s: System, logs: Logs)
    requires Whole(s)
  {
    s.done[Pods] == |logs.pods| && s.done[PVCs] == |logs.pvcs|
  }

  /** The logs are in order, the k-th pod call is the first insert of a pod that stays, and `c` is the newest claim of the name. */
  ghost predicate Tracked(logs: Logs, ns: string, k: nat, name: string, c: UID) {
    && GoodLogs(logs) && Dated(logs.pvcs) && PodLog(logs.pods)
    && Outlives(PodStream(ns, logs.pods), k) && ClaimStream(ClaimStreamOf(ns, logs.pvcs))
    && Newest(Run(EMPTY_DB, ClaimStreamOf(ns, logs.pvcs)).pvc, name, c)
  }

  /** That pod. */
  ghost function PodAt(logs: Logs, ns: string, k: nat): Op
    requires PodLog(logs.pods) && Outlives(PodStream(ns, logs.pods), k)
    ensures PodAt(logs, ns, k).InsertPod?
  {
    PodStream(ns, logs.pods)[k]
  }

  ghost predicate SettledIn(logs: Logs, ns: string, k: nat, name: string, c: UID)
    requires Tracked(logs, ns, k, name, c)
  {
    Settled(Run(EMPTY_DB, ClaimStreamOf(ns, logs.pvcs)).pvc, name, c, PodAt(logs, ns, k).createTime)
  }

  /**
   The tracker, end to end: after any schedule of the three watches, with any ends of streams and resumptions,
   that has handled all pod and claim events, a pod that is settled has its mounts on the newest claim.
   */
  lemma TrackerConverges(logs: Logs, ns: string, steps: seq<Step>, k: nat, name: string, c: UID)
    requires Tracked(logs, ns, k, name, c) && SettledIn(logs, ns, k, name, c)
    requires Unhindered(logs, ns, steps) && Finished(RunSystem(logs, ns, steps), logs)
    ensures AllOn(RunSystem(logs, ns, steps).db.podMount, PodAt(logs, ns, k).uid, name, c)
  {
    hide Unhindered, Outlives, ClaimStream, Newest, Settled, AllOn, Dated, PodLog, GoodLogs;
    ReconnectsAreInvisible(logs, ns, steps);
    var s := RunSystem(logs, ns, steps);
    assert EventsOf(s.trace, Pods) == logs.Of(Pods)[..s.done[Pods]] == logs.pods;
    assert EventsOf(s.trace, PVCs) == logs.Of(PVCs)[..s.done[PVCs]] == logs.pvcs;
    TraceIsARun(ns, s.trace);
    PodsOfTrace(ns, s.trace, logs.pods);
    ClaimsOfTrace(ns, s.trace, logs.pvcs);
    SettledConverges(TraceOps(ns, s.trace), k, name, c);
  }

  /**
   Handlers in pieces: the calls of the same events, made in any order that keeps those of pods and claims in order
   and those of volumes in order, leave the tables of one handler after the other.
   */
  lemma HandlersMayInterleave(ns: string, trace: seq<Handled>, fine: seq<Op>)
    requires AllHandledUsable(trace) && InsertedFirst(Filter(ClaimOps(), TraceOps(ns, trace)))
    requires Filter(Granularity.OthersOps(), fine) == Filter(Granularity.OthersOps(), TraceOps(ns, trace))
    requires Filter(VolumeOps(), fine) == Filter(VolumeOps(), TraceOps(ns, trace))
    ensures Run(EMPTY_DB, fine) == EventRun(EMPTY_DB, ns, trace)
  {
    hide Run, Filter, InsertedFirst;
    TraceIsARun(ns, trace);
    Granularity.VolumesFallAnywhere(TraceOps(ns, trace), fine);
  }

  // ------------------------------------------------------------------ the other direction

  /** All claim events, then all pod events, on connections that never end. */
  function ClaimsThenPods(claims: nat, pods: nat): seq<Step> {
    if pods > 0 then ClaimsThenPods(claims, pods - 1) + [Deliver(Pods, Moment(claims + pods - 1, 0))]
    else if claims > 0 then ClaimsThenPods(claims - 1, 0) + [Deliver(PVCs, Moment(claims - 1, 0))]
    else []
  }

  /** The tables after that many claim events and that many pod events. */
  function DeliveredTables(logs: Logs, ns: string, claims: nat, pods: nat): DB
    requires Dated(logs.pvcs) && PodLog(logs.pods) && claims <= |logs.pvcs| && pods <= |logs.pods|
  {
    Run(Run(EMPTY_DB, ClaimStreamOf(ns, logs.pvcs[..claims])), PodStream(ns, logs.pods[..pods]))
  }

  ghost predicate Delivered(s: System, logs: Logs, ns: string, claims: nat, pods: nat)
    requires Dated(logs.pvcs) && PodLog(logs.pods) && claims <= |logs.pvcs| && pods <= |logs.pods|
  {
    && Whole(s)
    && s.conns[PVCs] == Conn(None, claims) && s.done[PVCs] == claims
    && s.conns[Pods] == Conn(None, pods) && s.done[Pods] == pods
    && s.db == DeliveredTables(logs, ns, claims, pods)
  }

  lemma OneMoreClaim(ns: string, log: seq<Event>, n: nat, now: Time)
    requires Dated(log) && n < |log|
    ensures ClaimStreamOf(ns, log[..n + 1]) == ClaimStreamOf(ns, log[..n]) + PVCOpsOf(ns, log[n].kind, log[n].pvc, log[n].json, now)
  {
    assert log[..n + 1][..n] == log[..n];
    assert IsDatedClaimEvent(log[n]);
    ClaimOpsDated(ns, log[n], now);
  }

  lemma OneMorePod(ns: string, log: seq<Event>, n: nat)
    requires PodLog(log) && n < |log|
    ensures IsPodEvent(log[n])
    ensures PodStream(ns, log[..n + 1]) == PodStream(ns, log[..n]) + PodOpsOf(ns, log[n].kind, log[n].pod, log[n].json)
  {
    assert log[..n + 1][..n] == log[..n];
  }

  /** A new event on a connection that skips none. */
  lemma Delivers(s: System, logs: Logs, ns: string, r: Resource, at: Moment)
    requires Whole(s) && GoodLogs(logs) && s.conns[r].rv.None? && s.conns[r].next == s.done[r] < |logs.Of(r)|
    ensures logs.Of(r)[s.done[r]].Usable()
    ensures var e, s' := logs.Of(r)[s.done[r]], Next(s, logs, ns, Deliver(r, at));
      && s'.db == Run(s.db, EventOps(s.db, ns, e, at))
      && s'.conns == s.conns[r := Conn(None, s.done[r] + 1)] && s'.done == s.done[r := s.done[r] + 1]
  {
    hide EventOps, Run;
    assert GoodLog(logs.Of(r), r);
  }

  lemma NoPods(ns: string, log: seq<Event>, db: DB)
    requires PodLog(log)
    ensures Run(db, PodStream(ns, log[..0])) == db
  {
  }

  /** Events of pods and claims are never blocked. */
  lemma NoBindNoBlock(s: System, logs: Logs, r: Resource, at: Moment)
    requires Whole(s) && GoodLogs(logs) && r != PVs
    ensures Proceeds(s, logs, Deliver(r, at))
  {
    assert GoodLog(logs.Of(r), r);
  }

  lemma ClaimDelivered(logs: Logs, ns: string, claims: nat, at: Moment)
    requires Dated(logs.pvcs) && PodLog(logs.pods) && claims < |logs.pvcs|
    ensures var e, db := logs.pvcs[claims], DeliveredTables(logs, ns, claims, 0);
      e.Usable() && Run(db, EventOps(db, ns, e, at)) == DeliveredTables(logs, ns, claims + 1, 0)
  {
    var e, first := logs.pvcs[claims], ClaimStreamOf(ns, logs.pvcs[..claims]);
    assert IsDatedClaimEvent(e);
    hide Run, PodStream, ClaimStreamOf, PVCOpsOf;
    NoPods(ns, logs.pods, Run(EMPTY_DB, first));
    NoPods(ns, logs.pods, Run(EMPTY_DB, ClaimStreamOf(ns, logs.pvcs[..claims + 1])));
    OneMoreClaim(ns, logs.pvcs, claims, at.now);
    RunConcat(EMPTY_DB, first, PVCOpsOf(ns, e.kind, e.pvc, e.json, at.now));
  }

  lemma PodDelivered(logs: Logs, ns: string, claims: nat, pods: nat, at: Moment)
    requires Dated(logs.pvcs) && PodLog(logs.pods) && claims <= |logs.pvcs| && pods < |logs.pods|
    ensures var e, db := logs.pods[pods], DeliveredTables(logs, ns, claims, pods);
      e.Usable() && Run(db, EventOps(db, ns, e, at)) == DeliveredTables(logs, ns, claims, pods + 1)
  {
    var e, db := logs.pods[pods], Run(EMPTY_DB, ClaimStreamOf(ns, logs.pvcs[..claims]));
    assert IsPodEvent(e);
    hide Run, PodStream, ClaimStreamOf, PodOpsOf;
    OneMorePod(ns, logs.pods, pods);
    RunConcat(db, PodStream(ns, logs.pods[..pods]), PodOpsOf(ns, e.kind, e.pod, e.json));
  }

  lemma NextClaim(s: System, logs: Logs, ns: string, claims: nat, at: Moment)
    requires GoodLogs(logs) && Dated(logs.pvcs) && PodLog(logs.pods) && claims < |logs.pvcs|
    requires Delivered(s, logs, ns, claims, 0)
    ensures Delivered(Next(s, logs, ns, Deliver(PVCs, at)), logs, ns, claims + 1, 0)
    ensures Proceeds(s, logs, Deliver(PVCs, at))
  {
    hide Next, DeliveredTables, Run, EventOps, GoodLogs, Dated, PodLog, Proceeds;
    assert logs.Of(PVCs) == logs.pvcs;
    NoBindNoBlock(s, logs, PVCs, at);
    Delivers(s, logs, ns, PVCs, at);
    ClaimDelivered(logs, ns, claims, at);
  }

  lemma NextPod(s: System, logs: Logs, ns: string, claims: nat, pods: nat, at: Moment)
    requires GoodLogs(logs) && Dated(logs.pvcs) && PodLog(logs.pods) && claims <= |logs.pvcs| && pods < |logs.pods|
    requires Delivered(s, logs, ns, claims, pods)
    ensures Delivered(Next(s, logs, ns, Deliver(Pods, at)), logs, ns, claims, pods + 1)
    ensures Proceeds(s, logs, Deliver(Pods, at))
  {
    hide Next, DeliveredTables, Run, EventOps, GoodLogs, Dated, PodLog, Proceeds;
    assert logs.Of(Pods) == logs.pods;
    NoBindNoBlock(s, logs, Pods, at);
    Delivers(s, logs, ns, Pods, at);
    PodDelivered(logs, ns, claims, pods, at);
  }

  lemma UnhinderedLast(logs: Logs, ns: string, steps: seq<Step>, step: Step)
    requires GoodLogs(logs) && Unhindered(logs, ns, steps) && Proceeds(RunSystem(logs, ns, steps), logs, step)
    ensures Unhindered(logs, ns, steps + [step])
    ensures RunSystem(logs, ns, steps + [step]) == Next(RunSystem(logs, ns, steps), logs, ns, step)
  {
    var all := steps + [step];
    assert all[..|steps|] == steps;
    forall i | 0 <= i < |all| ensures Proceeds(RunSystem(logs, ns, all[..i]), logs, all[i]) {
      assert i < |steps| ==> all[..i] == steps[..i];
    }
  }

  lemma {:induction false} ScheduleDelivers(logs: Logs, ns: string, claims: nat, pods: nat)
    requires GoodLogs(logs) && Dated(logs.pvcs) && PodLog(logs.pods) && claims <= |logs.pvcs| && pods <= |logs.pods|
    ensures Unhindered(logs, ns, ClaimsThenPods(claims, pods))
    ensures Delivered(RunSystem(logs, ns, ClaimsThenPods(claims, pods)), logs, ns, claims, pods)
  {
    hide Next, Proceeds, Unhindered, Dated, PodLog, GoodLogs;
    if pods > 0 {
      var steps, step := ClaimsThenPods(claims, pods - 1), Deliver(Pods, Moment(claims + pods - 1, 0));
      ScheduleDelivers(logs, ns, claims, pods - 1);
      NextPod(RunSystem(logs, ns, steps), logs, ns, claims, pods - 1, step.at);
      UnhinderedLast(logs, ns, steps, step);
    } else if claims > 0 {
      var steps, step := ClaimsThenPods(claims - 1, 0), Deliver(PVCs, Moment(claims - 1, 0));
      ScheduleDelivers(logs, ns, claims - 1, 0);
      NextClaim(RunSystem(logs, ns, steps), logs, ns, claims - 1, step.at);
      UnhinderedLast(logs, ns, steps, step);
    } else {
      NothingDelivered(logs, ns);
    }
  }

  lemma NothingDelivered(logs: Logs, ns: string)
    requires GoodLogs(logs) && Dated(logs.pvcs) && PodLog(logs.pods)
    ensures Unhindered(logs, ns, [])
    ensures Delivered(RunSystem(logs, ns, []), logs, ns, 0, 0)
  {
    InitialIsWhole();
    assert logs.pvcs[..0] == [] && logs.pods[..0] == [];
  }

  lemma {:induction false} StreamKinds(ns: string, pods: seq<Event>, claims: seq<Event>)
    requires PodLog(pods) && Dated(claims)
    ensures ThreeStreams(PodStream(ns, pods), ClaimStreamOf(ns, claims), [])
  {
    if pods != [] {
      StreamKinds(ns, pods[..|pods| - 1], claims);
      assert IsPodEvent(pods[|pods| - 1]);
    } else if claims != [] {
      StreamKinds(ns, pods, claims[..|claims| - 1]);
    }
  }

  /** An unsettled pod: the schedule that delivers all claims first leaves a mount off the newest claim. */
  lemma TrackerDiverges(logs: Logs, ns: string, k: nat, name: string, c: UID)
    requires Tracked(logs, ns, k, name, c) && !SettledIn(logs, ns, k, name, c)
    requires MountsName(PodAt(logs, ns, k).containers, name)
    ensures var steps := ClaimsThenPods(|logs.pvcs|, |logs.pods|);
      && Unhindered(logs, ns, steps) && Finished(RunSystem(logs, ns, steps), logs)
      && !AllOn(RunSystem(logs, ns, steps).db.podMount, PodAt(logs, ns, k).uid, name, c)
  {
    hide Unhindered, RunSystem, Run, Outlives, ClaimStream, Newest, Settled, AllOn, MountsName, Dated, PodLog, GoodLogs;
    var pods, claims := PodStream(ns, logs.pods), ClaimStreamOf(ns, logs.pvcs);
    ScheduleDelivers(logs, ns, |logs.pvcs|, |logs.pods|);
    assert logs.pvcs[..|logs.pvcs|] == logs.pvcs && logs.pods[..|logs.pods|] == logs.pods;
    StreamKinds(ns, logs.pods, logs.pvcs);
    UnsettledDiverges(pods, claims, [], k, name, c);
    assert claims + [] + pods == claims + pods;
    RunConcat(EMPTY_DB, claims, pods);
  }

  /**
   The tracker, end to end and exactly: all schedules that get through and handle all pod and claim events leave the
   pod's mounts of that name on the newest claim if and only if the pod is settled.
   */
  lemma TrackerConvergesIff(logs: Logs, ns: string, k: nat, name: string, c: UID)
    requires Tracked(logs, ns, k, name, c) && MountsName(PodAt(logs, ns, k).containers, name)
    ensures (forall steps :: Unhindered(logs, ns, steps) && Finished(RunSystem(logs, ns, steps), logs) ==>
      AllOn(RunSystem(logs, ns, steps).db.podMount, PodAt(logs, ns, k).uid, name, c)) <==> SettledIn(logs, ns, k, name, c)
  {
    hide Unhindered, RunSystem, AllOn, MountsName, Finished, SettledIn, PodAt, Outlives;
    if SettledIn(logs, ns, k, name, c) {
      forall steps | Unhindered(logs, ns, steps) && Finished(RunSystem(logs, ns, steps), logs)
        ensures AllOn(RunSystem(logs, ns, steps).db.podMount, PodAt(logs, ns, k).uid, name, c)
      {
        TrackerConverges(logs, ns, steps, k, name, c);
      }
    } else {
      TrackerDiverges(logs, ns, k, name, c);
    }
  }
}
