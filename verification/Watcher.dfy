/**
 Events of the API server, what each handler makes of them, and the watch loop of one resource.
 */
module Watcher {
  import opened Tables
  import opened Operations
  import opened PodSpecs
  import opened Manager

  datatype EventType = Added | Modified | Deleted | ErrorEvent

  datatype Phase = Pending | Available | Bound | OtherPhase

  datatype PodResource = PodResource(
    uid: UID, name: string, createTime: Time, deletionTime: Option<Time>, namespace: string, spec: PodSpec, rv: RV)

  datatype PVResource = PVResource(
    uid: UID, name: string, createTime: Time, deletionTime: Option<Time>, nfs: Option<NFSBackend>,
    iscsi: Option<ISCSIBackend>, storage: int, accessModes: string, claimRef: Option<UID>, phase: Phase, rv: RV)

  datatype PVCResource = PVCResource(
    uid: UID, name: string, createTime: Time, deletionTime: Option<Time>, namespace: string, storage: int,
    accessModes: string, phase: Phase, rv: RV)

  datatype Event =
    | PodEvent(kind: EventType, pod: PodResource, json: string)
    | PVEvent(kind: EventType, pv: PVResource, json: string)
    | PVCEvent(kind: EventType, pvc: PVCResource, json: string)
  {
    function OfResource(): Resource {
      match this
      case PodEvent(_, _, _) => Pods
      case PVEvent(_, _, _) => PVs
      case PVCEvent(_, _, _) => PVCs
    }

    function Version(): RV {
      match this
      case PodEvent(_, p, _) => p.rv
      case PVEvent(_, p, _) => p.rv
      case PVCEvent(_, p, _) => p.rv
    }

    /** What the handlers dereference is there: they panic otherwise. */
    predicate Usable() {
      match this
      case PodEvent(kind, p, _) => kind == Deleted ==> p.deletionTime.Some?
      case PVEvent(kind, p, _) =>
        && (kind == Added || (kind == Modified && p.phase == Available) ==> p.nfs.Some? || p.iscsi.Some?)
        && (kind == Modified && p.phase == Bound ==> p.claimRef.Some?)
      case PVCEvent(_, _, _) => true
    }

    /** Handling the event records a bind. */
    predicate Binds() {
      PVEvent? && pv.claimRef.Some? && (kind == Added || (kind == Modified && pv.phase == Bound))
    }
  }

  /** The key under which the versions of a resource are kept. */
  function VersionKey(r: Resource, namespace: string): RVKey {
    RVKey(r, if r == PVs then PV_NAMESPACE else namespace)
  }

  // ------------------------------------------------------------------ handlers

  function BackendOf(p: PVResource): Backend {
    if p.nfs.Some? then NFS else ISCSI
  }

  /** When an event is handled, and how many ids its interning loses to attempts that are rolled back. */
  datatype Moment = Moment(now: Time, lost: nat)

  /** Interning of the PV's backend; NFS goes first when both are given. */
  function InternOps(p: PVResource, lost: nat): seq<Op> {
    if p.nfs.Some? then [InsertNFS(p.nfs.value, 0)]
    else if p.iscsi.Some? then [InsertISCSI(p.iscsi.value, lost)]
    else []
  }

  function BackendId(db: DB, p: PVResource, lost: nat): nat {
    if p.nfs.Some? then InternedId(db.nfs, p.nfs.value, 0)
    else if p.iscsi.Some? then InternedId(db.iscsi, p.iscsi.value, lost)
    else 0
  }

  function BindOps(p: PVResource, now: Time): seq<Op> {
    if p.claimRef.Some? then [BindPVC(p.uid, p.claimRef.value, now, p.rv)] else []
  }

  function PodOpsOf(ns: string, kind: EventType, p: PodResource, json: string): seq<Op>
    requires kind == Deleted ==> p.deletionTime.Some?
  {
    match kind
    case Added => [InsertPod(p.uid, p.name, p.createTime, p.namespace, Read(p.spec), json, ns, p.rv)]
    case Deleted => [DeletePod(p.uid, p.deletionTime.value, ns, p.rv)]
    case _ => []
  }

  function PVOpsOf(db: DB, kind: EventType, p: PVResource, json: string, at: Moment): seq<Op> {
    match kind
    case Added =>
      InternOps(p, at.lost)
      + [InsertPV(p.uid, p.name, p.createTime, BackendId(db, p, at.lost), BackendOf(p), p.storage, p.accessModes, json, p.rv)]
      + BindOps(p, at.now)
    case Modified =>
      if p.phase == Bound then BindOps(p, at.now)
      else if p.phase == Available then
        InternOps(p, at.lost)
        + [UpdatePV(p.uid, BackendId(db, p, at.lost), BackendOf(p), p.storage, p.accessModes, json, p.rv)]
      else []
    case Deleted => [DeletePV(p.uid, if p.deletionTime.Some? then p.deletionTime.value else at.now, p.rv)]
    case ErrorEvent => []
  }

  function PVCOpsOf(ns: string, kind: EventType, p: PVCResource, json: string, now: Time): seq<Op> {
    match kind
    case Added => [InsertPVC(p.uid, p.name, p.createTime, p.namespace, p.storage, p.accessModes, json, ns, p.rv)]
    case Modified =>
      if p.phase == Pending then [UpdatePVC(p.uid, p.storage, p.accessModes, json, ns, p.rv)] else []
    case Deleted => [DeletePVC(p.uid, if p.deletionTime.Some? then p.deletionTime.value else now, ns, p.rv)]
    case ErrorEvent => []
  }

  /** The calls that the handler of an event makes. */
  function EventOps(db: DB, ns: string, e: Event, at: Moment): seq<Op>
    requires e.Usable()
  {
    match e
    case PodEvent(kind, p, json) => PodOpsOf(ns, kind, p, json)
    case PVEvent(kind, p, json) => PVOpsOf(db, kind, p, json, at)
    case PVCEvent(kind, p, json) => PVCOpsOf(ns, kind, p, json, at.now)
  }

  function Handle(db: DB, ns: string, e: Event, at: Moment): DB
    requires e.Usable()
  {
    Run(db, EventOps(db, ns, e, at))
  }

  /** The bind of a PV is not recorded already, to the microsecond: the tracker would retry it for ever. */
  predicate BindsAnew(db: DB, p: PVResource, now: Time) {
    p.claimRef.Some? ==> !RepeatsBind(db.pvc, BindPVC(p.uid, p.claimRef.value, now, p.rv))
  }

  /** The handler of the event gets through. */
  predicate Unblocked(db: DB, e: Event, now: Time) {
    e.Binds() ==> BindsAnew(db, e.pv, now)
  }

  /** No bind is recorded as of `t`. */
  ghost predicate Unused(db: DB, t: Time) {
    forall u :: u in db.pvc ==> db.pvc[u].bindTime != Some(t)
  }

  lemma ApplyUnused(db: DB, op: Op, t: Time)
    requires Unused(db, t) && (op.BindPVC? ==> op.bindTime != t)
    ensures Unused(Apply(db, op), t)
  {
    var pvc := Apply(db, op).pvc;
    assert forall u :: u in pvc && pvc[u].bindTime.Some? && !(op.BindPVC? && u == op.uid) ==>
      u in db.pvc && pvc[u].bindTime == db.pvc[u].bindTime;
  }

  lemma {:induction false} RunUnused(db: DB, ops: seq<Op>, t: Time)
    requires Unused(db, t) && forall op :: op in ops && op.BindPVC? ==> op.bindTime != t
    ensures Unused(Run(db, ops), t)
  {
    if ops != [] {
      RunUnused(db, ops[..|ops| - 1], t);
      ApplyUnused(Run(db, ops[..|ops| - 1]), ops[|ops| - 1], t);
    }
  }

  /** An event uses up only the moment that it is handled at. */
  lemma HandleUnused(db: DB, ns: string, e: Event, at: Moment, t: Time)
    requires e.Usable() && Unused(db, t) && at.now != t
    ensures Unused(Handle(db, ns, e, at), t)
  {
    RunUnused(db, EventOps(db, ns, e, at), t);
  }

  lemma UnusedUnblocks(db: DB, e: Event, now: Time)
    requires Unused(db, now)
    ensures Unblocked(db, e, now)
  {
  }

  lemma InternOpsKeepClaims(db: DB, p: PVResource, lost: nat)
    ensures Run(db, InternOps(p, lost)).pvc == db.pvc
  {
    if InternOps(p, lost) != [] {
      RunOne(db, InternOps(p, lost)[0]);
    }
  }

  // ------------------------------------------------------------------ the watch of one resource

  /** What comes over the connection: an event, the end of the stream, or a status that the version is expired. */
  datatype Input = Incoming(event: Event, now: Time) | EndOfStream | TooOld
  {
    predicate Usable() { Incoming? ==> event.Usable() }
  }

  /** The variables of the loop: the version that the connection was opened with, and whether to start afresh. */
  datatype WatchState = WatchState(db: DB, rv: Option<RV>, initialize: bool)

  function StoredVersion(db: DB, ns: string, r: Resource, initialize: bool): Option<RV> {
    if initialize then None else Lookup(db.rv, VersionKey(r, ns))
  }

  function Reopen(s: WatchState, ns: string, r: Resource): WatchState {
    s.(rv := StoredVersion(s.db, ns, r, s.initialize))
  }

  /** The state of an open connection, or the one after it is reopened. */
  function Settle(s: WatchState, open: bool, ns: string, r: Resource): WatchState {
    if open then s else Reopen(s, ns, r)
  }

  /** One input; a stream that ends is reopened at once. */
  function OnInput(s: WatchState, ns: string, r: Resource, input: Input, lost: nat): WatchState
    requires input.Usable()
  {
    match input
    case Incoming(e, now) =>
      if Some(e.Version()) == s.rv then s else s.(db := Handle(s.db, ns, e, Moment(now, lost)))
    case EndOfStream => Reopen(s, ns, r)
    case TooOld => Reopen(s.(initialize := true), ns, r)
  }

  ghost predicate AllUsable(inputs: seq<Input>) {
    forall i :: 0 <= i < |inputs| ==> inputs[i].Usable()
  }

  function OnInputs(s: WatchState, ns: string, r: Resource, inputs: seq<Input>, losses: seq<nat>): WatchState
    requires AllUsable(inputs) && |losses| == |inputs|
  {
    if inputs == [] then s else
      OnInput(OnInputs(s, ns, r, inputs[..|inputs| - 1], losses[..|inputs| - 1]), ns, r, inputs[|inputs| - 1], losses[|inputs| - 1])
  }

  /** A watch from the start: the connection is opened, then the inputs come. */
  function Watched(db: DB, initialize: bool, ns: string, r: Resource, inputs: seq<Input>, losses: seq<nat>): WatchState
    requires AllUsable(inputs) && |losses| == |inputs|
  {
    OnInputs(Reopen(WatchState(db, None, initialize), ns, r), ns, r, inputs, losses)
  }

  lemma OneMoreInput(s: WatchState, ns: string, r: Resource, inputs: seq<Input>, losses: seq<nat>, i: nat, lost: nat)
    requires AllUsable(inputs) && |losses| == i < |inputs|
    ensures OnInputs(s, ns, r, inputs[..i + 1], losses + [lost])
      == OnInput(OnInputs(s, ns, r, inputs[..i], losses), ns, r, inputs[i], lost)
  {
    assert inputs[..i + 1][..i] == inputs[..i];
    assert (losses + [lost])[..i] == losses;
  }

  /** An event that is not skipped gets through. */
  predicate GetsThrough(s: WatchState, input: Input) {
    input.Incoming? && Some(input.event.Version()) != s.rv ==> Unblocked(s.db, input.event, input.now)
  }

  /** Whatever ids are lost on the way, each input gets through in the state that it comes in. */
  ghost predicate NeverBlocked(s: WatchState, ns: string, r: Resource, inputs: seq<Input>)
    requires AllUsable(inputs)
  {
    forall losses: seq<nat>, i: nat | i < |inputs| && |losses| == i ::
      GetsThrough(OnInputs(s, ns, r, inputs[..i], losses), inputs[i])
  }

  lemma NextGetsThrough(s: WatchState, ns: string, r: Resource, inputs: seq<Input>, losses: seq<nat>)
    requires AllUsable(inputs) && NeverBlocked(s, ns, r, inputs) && |losses| < |inputs|
    ensures GetsThrough(OnInputs(s, ns, r, inputs[..|losses|], losses), inputs[|losses|])
  {
  }

  /** The inputs are handled at moments of their own, at none of which a bind is recorded. */
  ghost predicate DistinctMoments(db: DB, inputs: seq<Input>) {
    && (forall i :: 0 <= i < |inputs| && inputs[i].Incoming? ==> Unused(db, inputs[i].now))
    && (forall i, j | 0 <= i < j < |inputs| && inputs[i].Incoming? && inputs[j].Incoming? :: inputs[i].now != inputs[j].now)
  }

  lemma {:induction false} InputsUnused(s: WatchState, ns: string, r: Resource, inputs: seq<Input>, losses: seq<nat>, t: Time)
    requires AllUsable(inputs) && |losses| == |inputs| && Unused(s.db, t)
    requires forall i :: 0 <= i < |inputs| && inputs[i].Incoming? ==> inputs[i].now != t
    ensures Unused(OnInputs(s, ns, r, inputs, losses).db, t)
  {
    if inputs != [] {
      var front, last, lost := inputs[..|inputs| - 1], inputs[|inputs| - 1], losses[|inputs| - 1];
      InputsUnused(s, ns, r, front, losses[..|inputs| - 1], t);
      if last.Incoming? {
        HandleUnused(OnInputs(s, ns, r, front, losses[..|inputs| - 1]).db, ns, last.event, Moment(last.now, lost), t);
      }
    }
  }

  /** It is enough that no two inputs are handled at the same moment. */
  lemma MomentsSuffice(s: WatchState, ns: string, r: Resource, inputs: seq<Input>)
    requires AllUsable(inputs) && DistinctMoments(s.db, inputs)
    ensures NeverBlocked(s, ns, r, inputs)
  {
    forall losses: seq<nat>, i: nat | i < |inputs| && |losses| == i
      ensures GetsThrough(OnInputs(s, ns, r, inputs[..i], losses), inputs[i])
    {
      if inputs[i].Incoming? {
        InputsUnused(s, ns, r, inputs[..i], losses, inputs[i].now);
        UnusedUnblocks(OnInputs(s, ns, r, inputs[..i], losses).db, inputs[i].event, inputs[i].now);
      }
    }
  }

  class Watcher {
    const dbm: MySQLManager
    const namespace: string

    // Resources with an open watch.
    var stopChannels: set<Resource>

    constructor (dbm: MySQLManager, namespace: string)
      ensures this.dbm == dbm && this.namespace == namespace && stopChannels == {}
    {
      this.dbm := dbm;
      this.namespace := namespace;
      stopChannels := {};
    }

    method GetRV(r: Resource, initialize: bool) returns (rv: Option<RV>)
      ensures rv == StoredVersion(dbm.Tables(), namespace, r, initialize)
    {
      if initialize {
        return None;
      }
      var ns := if r == PVs then PV_NAMESPACE else namespace;
      rv := dbm.GetRV(r, ns);
    }

    method HandlePods(kind: EventType, p: PodResource, json: string)
      requires dbm.Valid() && (kind == Deleted ==> p.deletionTime.Some?)
      modifies dbm
      ensures dbm.Valid()
      ensures dbm.Tables() == Run(old(dbm.Tables()), PodOpsOf(namespace, kind, p, json))
    {
      match kind
      case Added =>
        var containers := ReadPod(p.spec);
        var op := InsertPod(p.uid, p.name, p.createTime, p.namespace, containers, json, namespace, p.rv);
        RunOne(dbm.Tables(), op);
        var _ := dbm.RunTx(op);
      case Deleted =>
        var op := DeletePod(p.uid, p.deletionTime.value, namespace, p.rv);
        RunOne(dbm.Tables(), op);
        var _ := dbm.RunTx(op);
      case _ =>
    }

    method HandlePVCs(kind: EventType, p: PVCResource, json: string, now: Time)
      requires dbm.Valid()
      modifies dbm
      ensures dbm.Valid()
      ensures dbm.Tables() == Run(old(dbm.Tables()), PVCOpsOf(namespace, kind, p, json, now))
    {
      match kind
      case Added =>
        var op := InsertPVC(p.uid, p.name, p.createTime, p.namespace, p.storage, p.accessModes, json, namespace, p.rv);
        RunOne(dbm.Tables(), op);
        var _ := dbm.RunTx(op);
      case Modified =>
        if p.phase == Pending {
          var op := UpdatePVC(p.uid, p.storage, p.accessModes, json, namespace, p.rv);
          RunOne(dbm.Tables(), op);
          var _ := dbm.RunTx(op);
        }
      case Deleted =>
        var op := DeletePVC(p.uid, if p.deletionTime.Some? then p.deletionTime.value else now, namespace, p.rv);
        RunOne(dbm.Tables(), op);
        var _ := dbm.RunTx(op);
      case ErrorEvent =>
    }

    /** Interns the backend of a PV. */
    method InsertBackend(p: PVResource) returns (id: nat, ghost lost: nat)
      requires dbm.Valid() && (p.nfs.Some? || p.iscsi.Some?)
      modifies dbm
      ensures dbm.Valid()
      ensures dbm.Tables() == Run(old(dbm.Tables()), InternOps(p, lost))
      ensures id == BackendId(old(dbm.Tables()), p, lost)
    {
      lost := 0;
      if p.nfs.Some? {
        RunOne(dbm.Tables(), InsertNFS(p.nfs.value, 0));
        id := dbm.InsertNFS(p.nfs.value);
      } else {
        ghost var before := dbm.Tables();
        id, lost := dbm.InsertISCSI(p.iscsi.value);
        RunOne(before, InsertISCSI(p.iscsi.value, lost));
      }
    }

    /** Records the bind of a PV that names a claim. */
    method Bind(p: PVResource, now: Time)
      requires dbm.Valid() && BindsAnew(dbm.Tables(), p, now)
      modifies dbm
      ensures dbm.Valid()
      ensures dbm.Tables() == Run(old(dbm.Tables()), BindOps(p, now))
    {
      if p.claimRef.Some? {
        var op := BindPVC(p.uid, p.claimRef.value, now, p.rv);
        RunOne(dbm.Tables(), op);
        var _ := dbm.RunTx(op);
      }
    }

    method HandlePVs(kind: EventType, p: PVResource, json: string, now: Time) returns (ghost lost: nat)
      requires dbm.Valid() && PVEvent(kind, p, json).Usable() && Unblocked(dbm.Tables(), PVEvent(kind, p, json), now)
      modifies dbm
      ensures dbm.Valid()
      ensures dbm.Tables() == Run(old(dbm.Tables()), PVOpsOf(old(dbm.Tables()), kind, p, json, Moment(now, lost)))
    {
      lost := 0;
      ghost var before := dbm.Tables();
      match kind
      case Added =>
        var id;
        id, lost := InsertBackend(p);
        ghost var interned := dbm.Tables();
        InternOpsKeepClaims(before, p, lost);
        var op := InsertPV(p.uid, p.name, p.createTime, id, BackendOf(p), p.storage, p.accessModes, json, p.rv);
        var _ := dbm.RunTx(op);
        RunOne(interned, op);
        Bind(p, now);
        RunConcat(before, InternOps(p, lost), [op]);
        RunConcat(before, InternOps(p, lost) + [op], BindOps(p, now));
      case Modified =>
        if p.phase == Bound {
          Bind(p, now);
        } else if p.phase == Available {
          var id;
          id, lost := InsertBackend(p);
          var op := UpdatePV(p.uid, id, BackendOf(p), p.storage, p.accessModes, json, p.rv);
          RunOne(dbm.Tables(), op);
          RunConcat(before, InternOps(p, lost), [op]);
          var _ := dbm.RunTx(op);
        }
      case Deleted =>
        var op := DeletePV(p.uid, if p.deletionTime.Some? then p.deletionTime.value else now, p.rv);
        RunOne(dbm.Tables(), op);
        var _ := dbm.RunTx(op);
      case ErrorEvent =>
    }

    method HandleEvent(e: Event, now: Time) returns (ghost lost: nat)
      requires dbm.Valid() && e.Usable() && Unblocked(dbm.Tables(), e, now)
      modifies dbm
      ensures dbm.Valid()
      ensures dbm.Tables() == Handle(old(dbm.Tables()), namespace, e, Moment(now, lost))
    {
      lost := 0;
      match e
      case PodEvent(kind, p, json) => HandlePods(kind, p, json);
      case PVEvent(kind, p, json) => lost := HandlePVs(kind, p, json, now);
      case PVCEvent(kind, p, json) => HandlePVCs(kind, p, json, now);
    }

    /** One pass of the inner loop: `open` says whether the connection goes on. */
    method Receive(r: Resource, input: Input, last: Option<RV>, initialize: bool)
      returns (afresh: bool, open: bool, ghost lost: nat)
      requires dbm.Valid() && input.Usable()
      requires GetsThrough(WatchState(dbm.Tables(), last, initialize), input)
      modifies dbm
      ensures dbm.Valid()
      ensures Settle(WatchState(dbm.Tables(), last, afresh), open, namespace, r)
        == OnInput(WatchState(old(dbm.Tables()), last, initialize), namespace, r, input, lost)
    {
      afresh, open, lost := initialize, true, 0;
      match input {
        case EndOfStream =>
          open := false;
        case TooOld =>
          afresh, open := true, false;
        case Incoming(e, now) =>
          if Some(e.Version()) != last {
            lost := HandleEvent(e, now);
          }
      }
    }

    /**
     The reconnect loop, until the inputs are used up and the watch is stopped: the nested loops do what the
     inputs do one by one. `losses` says how many ids each input lost.
     */
    method WatchLoop(r: Resource, initialize: bool, inputs: seq<Input>)
      returns (last: Option<RV>, afresh: bool, ghost losses: seq<nat>)
      requires dbm.Valid()
      requires AllUsable(inputs)
      requires NeverBlocked(Reopen(WatchState(dbm.Tables(), None, initialize), namespace, r), namespace, r, inputs)
      modifies dbm
      ensures dbm.Valid() && |losses| == |inputs|
      ensures WatchState(dbm.Tables(), last, afresh) == Watched(old(dbm.Tables()), initialize, namespace, r, inputs, losses)
    {
      hide OnInput, NeverBlocked, GetsThrough;
      ghost var start := Reopen(WatchState(dbm.Tables(), None, initialize), namespace, r);
      last, afresh, losses := None, initialize, [];
      var i := 0;
      while true
        invariant dbm.Valid()
        invariant i <= |inputs| && |losses| == i
        invariant Settle(WatchState(dbm.Tables(), last, afresh), false, namespace, r)
          == OnInputs(start, namespace, r, inputs[..i], losses)
        decreases |inputs| - i
      {
        last := GetRV(r, afresh);
        var i0 := i;
        var open := true;
        while open
          invariant dbm.Valid()
          invariant i <= |inputs| && |losses| == i
          invariant Settle(WatchState(dbm.Tables(), last, afresh), open, namespace, r)
            == OnInputs(start, namespace, r, inputs[..i], losses)
          invariant i0 <= i && (!open ==> i0 < i)
          decreases |inputs| - i, open
        {
          if i == |inputs| {
            assert inputs[..i] == inputs;
            return;
          }
          NextGetsThrough(start, namespace, r, inputs, losses);
          ghost var lost;
          afresh, open, lost := Receive(r, inputs[i], last, afresh);
          OneMoreInput(start, namespace, r, inputs, losses, i, lost);
          losses, i := losses + [lost], i + 1;
        }
      }
    }

    /** Watches a resource, unless it is watched already. */
    method Watch(r: Resource, initialize: bool, inputs: seq<Input>)
      returns (last: Option<RV>, afresh: bool, ghost losses: seq<nat>)
      requires dbm.Valid()
      requires AllUsable(inputs)
      requires r !in stopChannels ==>
        NeverBlocked(Reopen(WatchState(dbm.Tables(), None, initialize), namespace, r), namespace, r, inputs)
      modifies this, dbm
      ensures dbm.Valid() && stopChannels == old(stopChannels) + {r}
      ensures r in old(stopChannels) ==> dbm.Tables() == old(dbm.Tables())
      ensures r !in old(stopChannels) ==> |losses| == |inputs|
      ensures r !in old(stopChannels) ==>
        WatchState(dbm.Tables(), last, afresh) == Watched(old(dbm.Tables()), initialize, namespace, r, inputs, losses)
    {
      last, afresh, losses := None, initialize, [];
      if r !in stopChannels {
        stopChannels := stopChannels + {r};
        last, afresh, losses := WatchLoop(r, initialize, inputs);
      }
    }
  }
}
