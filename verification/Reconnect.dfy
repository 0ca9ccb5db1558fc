/**
 Three watches over one database, each cut and resumed at any time from the version that it stored last. The
 server resends whatever came after that version, and possibly the event of that version itself.
 */
module Reconnect {
  import opened Tables
  import opened Operations
  import opened Watcher

  // ------------------------------------------------------------------ the system

  /** The events that the server has for each resource, oldest first. */
  datatype Logs = Logs(pods: seq<Event>, pvs: seq<Event>, pvcs: seq<Event>)
  {
    function Of(r: Resource): seq<Event> {
      match r
      case Pods => pods
      case PVs => pvs
      case PVCs => pvcs
    }
  }

  ghost predicate GoodLog(log: seq<Event>, r: Resource) {
    && (forall i :: 0 <= i < |log| ==> log[i].Usable() && log[i].OfResource() == r)
    && (forall i, j :: 0 <= i < j < |log| ==> log[i].Version() < log[j].Version())
  }

  ghost predicate GoodLogs(logs: Logs) {
    forall r :: GoodLog(logs.Of(r), r)
  }

  /** A connection: the version it was opened with, and how far along the log the next event is. */
  datatype Conn = Conn(rv: Option<RV>, next: nat)

  /** An event and the moment it was handled at. */
  datatype Handled = Handled(event: Event, at: Moment)

  /** `done` and `trace` are history: how much of each log was handled, and in what order and when, resent events not counted. */
  datatype System = System(db: DB, conns: map<Resource, Conn>, done: map<Resource, nat>, trace: seq<Handled>)

  datatype Step = Deliver(r: Resource, at: Moment) | Reopened(r: Resource, inclusive: bool)

  const INITIAL := System(EMPTY_DB,
    map[Pods := Conn(None, 0), PVs := Conn(None, 0), PVCs := Conn(None, 0)],
    map[Pods := 0, PVs := 0, PVCs := 0], [])

  predicate Whole(s: System) {
    forall r :: r in s.conns && r in s.done
  }

  /** Where the server resumes: at the first event after the version or, if it resends that one too, not before it. */
  function Resume(log: seq<Event>, rv: Option<RV>, inclusive: bool): (i: nat)
    ensures i <= |log|
  {
    if rv.None? || log == [] then 0
    else if (if inclusive then log[0].Version() >= rv.value else log[0].Version() > rv.value) then 0
    else 1 + Resume(log[1..], rv, inclusive)
  }

  function Next(s: System, logs: Logs, ns: string, step: Step): System
    requires Whole(s) && GoodLogs(logs)
  {
    var r, log, conn := step.r, logs.Of(step.r), s.conns[step.r];
    match step
    case Reopened(_, inclusive) =>
      var rv := OnInput(WatchState(s.db, conn.rv, false), ns, r, EndOfStream, 0).rv;
      s.(conns := s.conns[r := Conn(rv, Resume(log, rv, inclusive))])
    case Deliver(_, at) =>
      if conn.next >= |log| then s else
        var e := log[conn.next];
        var s' := s.(db := OnInput(WatchState(s.db, conn.rv, false), ns, r, Incoming(e, at.now), at.lost).db,
                     conns := s.conns[r := Conn(conn.rv, conn.next + 1)]);
        if conn.next < s.done[r] then s' else
          s'.(done := s.done[r := conn.next + 1], trace := s.trace + [Handled(e, at)])
  }

  lemma InitialIsWhole()
    ensures Whole(INITIAL)
  {
    forall r ensures r in INITIAL.conns && r in INITIAL.done {
      match r
      case Pods =>
      case PVs =>
      case PVCs =>
    }
  }

  function RunSystem(logs: Logs, ns: string, steps: seq<Step>): (s: System)
    requires GoodLogs(logs)
    ensures Whole(s)
  {
    InitialIsWhole();
    if steps == [] then INITIAL else Next(RunSystem(logs, ns, steps[..|steps| - 1]), logs, ns, steps[|steps| - 1])
  }

  /** A delivery of a new event gets through. */
  predicate Proceeds(s: System, logs: Logs, step: Step)
    requires Whole(s)
  {
    step.Deliver? && s.conns[step.r].next == s.done[step.r] < |logs.Of(step.r)| ==>
      Unblocked(s.db, logs.Of(step.r)[s.done[step.r]], step.at.now)
  }

  /** No handler is stuck on a bind that is recorded already, to the microsecond. */
  ghost predicate Unhindered(logs: Logs, ns: string, steps: seq<Step>)
    requires GoodLogs(logs)
  {
    forall i :: 0 <= i < |steps| ==> Proceeds(RunSystem(logs, ns, steps[..i]), logs, steps[i])
  }

  /** No two events are handled at the same moment. */
  ghost predicate OwnMoments(steps: seq<Step>) {
    forall i, j | 0 <= i < j < |steps| && steps[i].Deliver? && steps[j].Deliver? :: steps[i].at.now != steps[j].at.now
  }

  lemma {:induction false} StepsUnused(logs: Logs, ns: string, steps: seq<Step>, t: Time)
    requires GoodLogs(logs)
    requires forall i :: 0 <= i < |steps| && steps[i].Deliver? ==> steps[i].at.now != t
    ensures Unused(RunSystem(logs, ns, steps).db, t)
  {
    InitialIsWhole();
    if steps != [] {
      var front, step := steps[..|steps| - 1], steps[|steps| - 1];
      StepsUnused(logs, ns, front, t);
      var s, log := RunSystem(logs, ns, front), logs.Of(step.r);
      assert GoodLog(log, step.r);
      if step.Deliver? && s.conns[step.r].next < |log| {
        HandleUnused(s.db, ns, log[s.conns[step.r].next], step.at, t);
      }
    }
  }

  /** Moments of their own are enough. */
  lemma OwnMomentsSuffice(logs: Logs, ns: string, steps: seq<Step>)
    requires GoodLogs(logs) && OwnMoments(steps)
    ensures Unhindered(logs, ns, steps)
  {
    forall i | 0 <= i < |steps| ensures Proceeds(RunSystem(logs, ns, steps[..i]), logs, steps[i]) {
      if steps[i].Deliver? {
        var s, r := RunSystem(logs, ns, steps[..i]), steps[i].r;
        StepsUnused(logs, ns, steps[..i], steps[i].at.now);
        if s.done[r] < |logs.Of(r)| {
          UnusedUnblocks(s.db, logs.Of(r)[s.done[r]], steps[i].at.now);
        }
      }
    }
  }

  // ------------------------------------------------------------------ uninterrupted processing

  function EventRun(db: DB, ns: string, trace: seq<Handled>): DB
    requires forall i :: 0 <= i < |trace| ==> trace[i].event.Usable()
  {
    if trace == [] then db else
      var last := trace[|trace| - 1];
      Handle(EventRun(db, ns, trace[..|trace| - 1]), ns, last.event, last.at)
  }

  /** The events of one resource in a trace. */
  function EventsOf(trace: seq<Handled>, r: Resource): seq<Event> {
    if trace == [] then [] else
      var rest, last := EventsOf(trace[..|trace| - 1], r), trace[|trace| - 1].event;
      if last.OfResource() == r then rest + [last] else rest
  }

  // ------------------------------------------------------------------ quiet events

  predicate Interned(db: DB, p: PVResource) {
    if p.nfs.Some? then FindId(db.nfs.rows, p.nfs.value).Some?
    else p.iscsi.Some? && FindId(db.iscsi.rows, p.iscsi.value).Some?
  }

  /** Handling the event would change nothing: it asks for nothing, or only for rows that are there already. */
  predicate Quiet(db: DB, e: Event) {
    match e
    case PodEvent(kind, p, _) => kind == Modified || kind == ErrorEvent || (kind == Added && p.uid in db.pod)
    case PVEvent(kind, p, _) =>
      || kind == ErrorEvent
      || (kind == Modified && p.phase != Bound && p.phase != Available)
      || (kind == Added && p.uid in db.pv && p.claimRef.None? && Interned(db, p))
    case PVCEvent(kind, p, _) => kind == ErrorEvent || (kind == Modified && p.phase != Pending)
  }

  lemma QuietChangesNothing(db: DB, ns: string, e: Event, at: Moment)
    requires e.Usable() && Quiet(db, e)
    ensures Handle(db, ns, e, at) == db
  {
    var ops := EventOps(db, ns, e, at);
    if e.PodEvent? && e.kind == Added {
      RunOne(db, ops[0]);
    } else if e.PVEvent? && e.kind == Added {
      assert ops == [ops[0], ops[1]];
      RunTwo(db, ops[0], ops[1]);
    }
  }

  /** Pods, volumes and backends are never forgotten. */
  ghost predicate Remembers(db: DB, db': DB) {
    && db.pod.Keys <= db'.pod.Keys && db.pv.Keys <= db'.pv.Keys
    && (forall key :: FindId(db.nfs.rows, key).Some? ==> FindId(db'.nfs.rows, key).Some?)
    && (forall key :: FindId(db.iscsi.rows, key).Some? ==> FindId(db'.iscsi.rows, key).Some?)
  }

  lemma ApplyRemembers(db: DB, op: Op)
    ensures Remembers(db, Apply(db, op))
  {
    if op.InsertNFS? {
      forall key | FindId(db.nfs.rows, key).Some? ensures FindId(Apply(db, op).nfs.rows, key).Some? {
        FindInConcat(db.nfs.rows, [IdRow(db.nfs.last + op.lost + 1, op.nfs)], key);
      }
    } else if op.InsertISCSI? {
      forall key | FindId(db.iscsi.rows, key).Some? ensures FindId(Apply(db, op).iscsi.rows, key).Some? {
        FindInConcat(db.iscsi.rows, [IdRow(db.iscsi.last + op.lost + 1, op.iscsi)], key);
      }
    }
  }

  function ResourceOf(op: Op): Resource {
    if op.OnPod() then Pods else if op.OnClaim() then PVCs else PVs
  }

  ghost predicate OpsOf(r: Resource, ops: seq<Op>) {
    forall op :: op in ops ==> ResourceOf(op) == r
  }

  lemma {:induction false} RunRemembers(db: DB, ops: seq<Op>, r: Resource)
    requires OpsOf(r, ops)
    ensures Remembers(db, Run(db, ops))
    ensures forall key: RVKey :: key.resource != r ==> Lookup(Run(db, ops).rv, key) == Lookup(db.rv, key)
  {
    if ops != [] {
      var front, op := ops[..|ops| - 1], ops[|ops| - 1];
      RunRemembers(db, front, r);
      assert op in ops;
      ApplyRemembers(Run(db, front), op);
      forall key: RVKey | key.resource != r ensures Lookup(Run(db, ops).rv, key) == Lookup(db.rv, key) {
        VersionAfter(Run(db, front), op, key);
      }
    }
  }

  lemma HandleRemembers(db: DB, ns: string, e: Event, at: Moment)
    requires e.Usable()
    ensures Remembers(db, Handle(db, ns, e, at))
    ensures forall key: RVKey :: key.resource != e.OfResource() ==> Lookup(Handle(db, ns, e, at).rv, key) == Lookup(db.rv, key)
  {
    RunRemembers(db, EventOps(db, ns, e, at), e.OfResource());
  }

  lemma QuietStays(db: DB, db': DB, e: Event)
    requires Remembers(db, db') && Quiet(db, e)
    ensures Quiet(db', e)
  {
  }

  // ------------------------------------------------------------------ every change records its version

  /** What handling an event leaves: its version is stored, or the event is quiet and the stored version is as before. */
  ghost predicate RecordedOrQuiet(db: DB, db': DB, ns: string, e: Event) {
    var key := VersionKey(e.OfResource(), ns);
    Lookup(db'.rv, key) == Some(e.Version()) || (Quiet(db', e) && Lookup(db'.rv, key) == Lookup(db.rv, key))
  }

  lemma BindRecords(db: DB, p: PVResource, now: Time)
    requires BindsAnew(db, p, now) && p.claimRef.Some?
    ensures Lookup(Run(db, BindOps(p, now)).rv, VersionKey(PVs, "")) == Some(p.rv)
  {
    RunOne(db, BindOps(p, now)[0]);
  }

  lemma InternRecords(db: DB, p: PVResource, lost: nat)
    requires p.nfs.Some? || p.iscsi.Some?
    ensures var db' := Run(db, InternOps(p, lost)); db' == db.(nfs := db'.nfs, iscsi := db'.iscsi) && Interned(db', p)
  {
    hide Run, Intern, FindId;
    RunOne(db, InternOps(p, lost)[0]);
    if p.nfs.Some? {
      FindAppended(db.nfs, p.nfs.value, 0);
    } else {
      FindAppended(db.iscsi, p.iscsi.value, lost);
    }
  }

  lemma AddedPVRecords(db: DB, ns: string, e: Event, at: Moment)
    requires e.Usable() && e.PVEvent? && e.kind == Added && Unblocked(db, e, at.now)
    ensures RecordedOrQuiet(db, Handle(db, ns, e, at), ns, e)
  {
    var p := e.pv;
    var intern, bind := InternOps(p, at.lost), BindOps(p, at.now);
    var insert := InsertPV(p.uid, p.name, p.createTime, BackendId(db, p, at.lost), BackendOf(p), p.storage, p.accessModes, e.json, p.rv);
    var db1 := Run(db, intern);
    InternRecords(db, p, at.lost);
    RunConcat(db, intern, [insert]);
    RunConcat(db, intern + [insert], bind);
    RunOne(db1, insert);
    if p.claimRef.Some? {
      BindRecords(Apply(db1, insert), p, at.now);
    }
  }

  lemma HandleRecords(db: DB, ns: string, e: Event, at: Moment)
    requires e.Usable() && Unblocked(db, e, at.now)
    ensures RecordedOrQuiet(db, Handle(db, ns, e, at), ns, e)
  {
    var ops := EventOps(db, ns, e, at);
    if e.PVEvent? && e.kind == Added {
      AddedPVRecords(db, ns, e, at);
    } else if e.PVEvent? && e.kind == Modified && e.pv.phase == Bound {
      BindRecords(db, e.pv, at.now);
    } else if e.PVEvent? && e.kind == Modified && e.pv.phase == Available {
      assert ops == [ops[0], ops[1]];
      RunTwo(db, ops[0], ops[1]);
    } else if ops != [] {
      RunOne(db, ops[0]);
    }
  }

  // ------------------------------------------------------------------ the invariant of a run

  /** `v` is the version of a handled event after which all handled events are quiet; without one all are quiet. */
  ghost predicate StoredAt(db: DB, log: seq<Event>, done: nat, v: Option<RV>)
    requires done <= |log|
  {
    match v
    case None => forall i :: 0 <= i < done ==> Quiet(db, log[i])
    case Some(rv) => exists p :: 0 <= p < done && log[p].Version() == rv && forall i :: p < i < done ==> Quiet(db, log[i])
  }

  /** An event that is sent again is quiet, or is skipped for having the version of the connection. */
  ghost predicate ResendsNothing(db: DB, log: seq<Event>, done: nat, conn: Conn)
    requires done <= |log|
  {
    forall i :: conn.next <= i < done ==> Quiet(db, log[i]) || Some(log[i].Version()) == conn.rv
  }

  ghost predicate KnownVersion(log: seq<Event>, done: nat, rv: Option<RV>)
    requires done <= |log|
  {
    rv.Some? ==> exists p :: 0 <= p < done && log[p].Version() == rv.value
  }

  ghost predicate StreamOk(s: System, logs: Logs, ns: string, r: Resource)
    requires Whole(s)
  {
    var log, done, conn := logs.Of(r), s.done[r], s.conns[r];
    && conn.next <= done <= |log|
    && StoredAt(s.db, log, done, Lookup(s.db.rv, VersionKey(r, ns)))
    && ResendsNothing(s.db, log, done, conn)
    && KnownVersion(log, done, conn.rv)
    && EventsOf(s.trace, r) == log[..done]
  }

  ghost predicate AllHandledUsable(trace: seq<Handled>) {
    forall i :: 0 <= i < |trace| ==> trace[i].event.Usable()
  }

  ghost predicate SystemOk(s: System, logs: Logs, ns: string) {
    && Whole(s)
    && AllHandledUsable(s.trace)
    && s.db == EventRun(EMPTY_DB, ns, s.trace)
    && forall r :: StreamOk(s, logs, ns, r)
  }

  // ------------------------------------------------------------------ steps

  lemma QuietsStay(db: DB, db': DB, log: seq<Event>, done: nat, v: Option<RV>, conn: Conn)
    requires Remembers(db, db') && done <= |log|
    ensures StoredAt(db, log, done, v) ==> StoredAt(db', log, done, v)
    ensures ResendsNothing(db, log, done, conn) ==> ResendsNothing(db', log, done, conn)
  {
    forall i | 0 <= i < done && Quiet(db, log[i]) ensures Quiet(db', log[i]) {
      QuietStays(db, db', log[i]);
    }
    if StoredAt(db, log, done, v) && v.Some? {
      var p :| 0 <= p < done && log[p].Version() == v.value && forall i :: p < i < done ==> Quiet(db, log[i]);
      assert 0 <= p < done && log[p].Version() == v.value && forall i :: p < i < done ==> Quiet(db', log[i]);
    }
  }

  /** A stream that an event of another one does not concern. */
  lemma OtherStream(s: System, s': System, logs: Logs, ns: string, r: Resource, e: Event, at: Moment)
    requires Whole(s) && Whole(s') && StreamOk(s, logs, ns, r)
    requires e.Usable() && e.OfResource() != r
    requires s'.db == Handle(s.db, ns, e, at)
    requires s'.conns[r] == s.conns[r] && s'.done[r] == s.done[r] && s'.trace == s.trace + [Handled(e, at)]
    ensures StreamOk(s', logs, ns, r)
  {
    HandleRemembers(s.db, ns, e, at);
    QuietsStay(s.db, s'.db, logs.Of(r), s.done[r], Lookup(s.db.rv, VersionKey(r, ns)), s.conns[r]);
    assert s'.trace[..|s'.trace| - 1] == s.trace;
  }

  /** The stream whose next new event is handled. */
  lemma OwnStream(s: System, s': System, logs: Logs, ns: string, r: Resource, at: Moment)
    requires Whole(s) && Whole(s') && StreamOk(s, logs, ns, r) && GoodLogs(logs)
    requires s.done[r] < |logs.Of(r)| && s.conns[r].next == s.done[r]
    requires GoodLog(logs.Of(r), r) && Unblocked(s.db, logs.Of(r)[s.done[r]], at.now)
    requires s'.db == Handle(s.db, ns, logs.Of(r)[s.done[r]], at)
    requires s'.conns[r] == Conn(s.conns[r].rv, s.done[r] + 1) && s'.done[r] == s.done[r] + 1
    requires s'.trace == s.trace + [Handled(logs.Of(r)[s.done[r]], at)]
    ensures StreamOk(s', logs, ns, r)
  {
    hide Quiet, Handle, Remembers;
    var log, done, key := logs.Of(r), s.done[r], VersionKey(r, ns);
    var e := log[done];
    HandleRemembers(s.db, ns, e, at);
    HandleRecords(s.db, ns, e, at);
    QuietsStay(s.db, s'.db, log, done, Lookup(s.db.rv, key), s.conns[r]);
    assert StoredAt(s'.db, log, done + 1, Lookup(s'.db.rv, key)) by {
      if Lookup(s'.db.rv, key) == Some(e.Version()) {
        assert log[done].Version() == e.Version();
      } else if Lookup(s.db.rv, key).Some? {
        var p :| 0 <= p < done && log[p].Version() == Lookup(s.db.rv, key).value && forall i :: p < i < done ==> Quiet(s'.db, log[i]);
        assert forall i :: p < i < done + 1 ==> Quiet(s'.db, log[i]);
      }
    }
    assert s'.trace[..|s'.trace| - 1] == s.trace;
    assert log[..done + 1] == log[..done] + [e];
  }

  /** The first delivery of an event. */
  lemma FirstDelivery(s: System, logs: Logs, ns: string, r: Resource, at: Moment)
    requires SystemOk(s, logs, ns) && GoodLogs(logs)
    requires s.conns[r].next == s.done[r] < |logs.Of(r)| && Unblocked(s.db, logs.Of(r)[s.done[r]], at.now)
    ensures SystemOk(Next(s, logs, ns, Deliver(r, at)), logs, ns)
  {
    var log, s' := logs.Of(r), Next(s, logs, ns, Deliver(r, at));
    assert StreamOk(s, logs, ns, r);
    var e := log[s.done[r]];
    assert GoodLog(log, r);
    // Its version is newer than any that a connection was opened with, so it is not skipped.
    assert Some(e.Version()) != s.conns[r].rv;
    assert s'.db == Handle(s.db, ns, e, at);
    OwnStream(s, s', logs, ns, r, at);
    forall q | q != r ensures StreamOk(s', logs, ns, q) {
      assert StreamOk(s, logs, ns, q);
      OtherStream(s, s', logs, ns, q, e, at);
    }
    assert s'.trace[..|s'.trace| - 1] == s.trace;
  }

  /** A delivery of an event that was handled before changes nothing. */
  lemma RepeatedDelivery(s: System, logs: Logs, ns: string, r: Resource, at: Moment)
    requires SystemOk(s, logs, ns) && GoodLogs(logs)
    requires s.conns[r].next < s.done[r]
    ensures SystemOk(Next(s, logs, ns, Deliver(r, at)), logs, ns)
    ensures Next(s, logs, ns, Deliver(r, at)).db == s.db
  {
    var log, s', next := logs.Of(r), Next(s, logs, ns, Deliver(r, at)), s.conns[r].next;
    assert StreamOk(s, logs, ns, r) && GoodLog(log, r);
    if Some(log[next].Version()) != s.conns[r].rv {
      QuietChangesNothing(s.db, ns, log[next], at);
    }
    forall q ensures StreamOk(s', logs, ns, q) {
      assert StreamOk(s, logs, ns, q);
    }
  }

  lemma {:induction false} ResumeAfter(log: seq<Event>, p: nat, inclusive: bool)
    requires p < |log|
    requires forall i, j :: 0 <= i < j < |log| ==> log[i].Version() < log[j].Version()
    ensures Resume(log, Some(log[p].Version()), inclusive) == if inclusive then p else p + 1
  {
    if p == 0 {
      if !inclusive && |log| > 1 {
        assert log[1..][0].Version() > log[0].Version();
      }
    } else {
      assert log[0].Version() < log[p].Version();
      assert log[1..][p - 1] == log[p];
      ResumeAfter(log[1..], p - 1, inclusive);
    }
  }

  /** The position that the server resumes at, from the stored version. */
  lemma ResumesWell(db: DB, log: seq<Event>, r: Resource, done: nat, v: Option<RV>, inclusive: bool)
    requires GoodLog(log, r) && done <= |log| && StoredAt(db, log, done, v)
    ensures var conn := Conn(v, Resume(log, v, inclusive));
      conn.next <= done && ResendsNothing(db, log, done, conn) && KnownVersion(log, done, v)
  {
    hide Quiet;
    if v.Some? {
      var p :| 0 <= p < done && log[p].Version() == v.value && forall i :: p < i < done ==> Quiet(db, log[i]);
      ResumeAfter(log, p, inclusive);
    }
  }

  /** Resuming from the stored version resends quiet events only, and perhaps the one that will be skipped. */
  lemma Reopening(s: System, logs: Logs, ns: string, r: Resource, inclusive: bool)
    requires SystemOk(s, logs, ns) && GoodLogs(logs)
    ensures SystemOk(Next(s, logs, ns, Reopened(r, inclusive)), logs, ns)
    ensures Next(s, logs, ns, Reopened(r, inclusive)).db == s.db
  {
    hide GoodLog, StoredAt, ResendsNothing, KnownVersion, EventRun, EventsOf, Resume;
    var s' := Next(s, logs, ns, Reopened(r, inclusive));
    assert StreamOk(s, logs, ns, r) && GoodLog(logs.Of(r), r);
    ResumesWell(s.db, logs.Of(r), r, s.done[r], Lookup(s.db.rv, VersionKey(r, ns)), inclusive);
    forall q ensures StreamOk(s', logs, ns, q) {
      assert StreamOk(s, logs, ns, q);
    }
  }

  lemma InitiallyOk(logs: Logs, ns: string)
    ensures SystemOk(INITIAL, logs, ns)
  {
    InitialIsWhole();
    forall r ensures StreamOk(INITIAL, logs, ns, r) {
      match r
      case Pods =>
      case PVs =>
      case PVCs =>
    }
  }

  lemma UnhinderedFront(logs: Logs, ns: string, steps: seq<Step>)
    requires GoodLogs(logs) && Unhindered(logs, ns, steps) && steps != []
    ensures Unhindered(logs, ns, steps[..|steps| - 1])
    ensures Proceeds(RunSystem(logs, ns, steps[..|steps| - 1]), logs, steps[|steps| - 1])
  {
    hide Proceeds, RunSystem;
    var front := steps[..|steps| - 1];
    forall i | 0 <= i < |front| ensures Proceeds(RunSystem(logs, ns, front[..i]), logs, front[i]) {
      assert front[..i] == steps[..i] && front[i] == steps[i];
    }
  }

  lemma {:induction false} RunOk(logs: Logs, ns: string, steps: seq<Step>)
    requires GoodLogs(logs) && Unhindered(logs, ns, steps)
    ensures SystemOk(RunSystem(logs, ns, steps), logs, ns)
  {
    if steps == [] {
      InitiallyOk(logs, ns);
    } else {
      var front, step := steps[..|steps| - 1], steps[|steps| - 1];
      var s, r := RunSystem(logs, ns, front), step.r;
      UnhinderedFront(logs, ns, steps);
      RunOk(logs, ns, front);
      assert StreamOk(s, logs, ns, r);
      if step.Reopened? {
        Reopening(s, logs, ns, r, step.inclusive);
      } else if s.conns[r].next < s.done[r] {
        RepeatedDelivery(s, logs, ns, r, step.at);
      } else if s.conns[r].next < |logs.Of(r)| {
        FirstDelivery(s, logs, ns, r, step.at);
      }
    }
  }

  /**
   Reconnects cannot be seen: after any deliveries, ends of streams and resumptions, on all three watches at once,
   the tables are those of one uninterrupted processing of the events handled so far, and those are, of each
   resource, exactly the events up to the furthest position that its connections reached.
   */
  lemma ReconnectsAreInvisible(logs: Logs, ns: string, steps: seq<Step>)
    requires GoodLogs(logs) && Unhindered(logs, ns, steps)
    ensures var s := RunSystem(logs, ns, steps);
      && AllHandledUsable(s.trace)
      && s.db == EventRun(EMPTY_DB, ns, s.trace)
      && forall r :: s.conns[r].next <= s.done[r] <= |logs.Of(r)| && EventsOf(s.trace, r) == logs.Of(r)[..s.done[r]]
  {
    RunOk(logs, ns, steps);
    var s := RunSystem(logs, ns, steps);
    forall r ensures s.conns[r].next <= s.done[r] <= |logs.Of(r)| && EventsOf(s.trace, r) == logs.Of(r)[..s.done[r]] {
      assert StreamOk(s, logs, ns, r);
    }
  }
}
