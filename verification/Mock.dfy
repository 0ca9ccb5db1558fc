/**
 The mock manager: maps of the objects that exist, with erasure instead of delete times.
 */
module Mock {
  import opened Tables
  import opened Operations

  datatype PodAttrs = PodAttrs(name: string, createTime: Time, namespace: string, containers: seq<ContainerDesc>)

  datatype PVAttrs = PVAttrs(name: string, createTime: Time, nfsId: nat, iscsiId: nat, storage: int)

  datatype PVCAttrs = PVCAttrs(name: string, createTime: Time, namespace: string, storage: int)

  datatype MockState = MockState(
    nfsIds: map<NFSBackend, nat>,
    iscsiIds: map<ISCSIBackend, nat>,
    lastNfsId: nat,
    lastIscsiId: nat,
    pods: map<UID, PodAttrs>,
    pvs: map<UID, PVAttrs>,
    pvcs: map<UID, PVCAttrs>,
    deletions: nat)

  const EMPTY_MOCK := MockState(map[], map[], 0, 0, map[], map[], map[], 0)

  /** An update reads the object that it changes, and panics when there is none. */
  predicate Accepts(m: MockState, op: Op) {
    match op
    case UpdatePV(uid, _, _, _, _, _, _) => uid in m.pvs
    case UpdatePVC(uid, _, _, _, _, _) => uid in m.pvcs
    case _ => true
  }

  function MockApply(m: MockState, op: Op): MockState
    requires Accepts(m, op)
  {
    match op
    case InsertPod(uid, name, t, ns, cs, _, _, _) => m.(pods := m.pods[uid := PodAttrs(name, t, ns, cs)])
    case DeletePod(uid, _, _, _) => m.(pods := m.pods - {uid}, deletions := m.deletions + 1)
    case InsertPVC(uid, name, t, ns, storage, _, _, _, _) => m.(pvcs := m.pvcs[uid := PVCAttrs(name, t, ns, storage)])
    case UpdatePVC(uid, storage, _, _, _, _) => m.(pvcs := m.pvcs[uid := m.pvcs[uid].(storage := storage)])
    case DeletePVC(uid, _, _, _) => m.(pvcs := m.pvcs - {uid}, deletions := m.deletions + 1)
    case InsertPV(uid, name, t, id, backend, storage, _, _, _) =>
      m.(pvs := m.pvs[uid := PVAttrs(name, t, NfsId(backend, id), IscsiId(backend, id), storage)])
    case UpdatePV(uid, id, backend, storage, _, _, _) =>
      m.(pvs := m.pvs[uid := m.pvs[uid].(nfsId := NfsId(backend, id), iscsiId := IscsiId(backend, id), storage := storage)])
    case DeletePV(uid, _, _) => m.(pvs := m.pvs - {uid}, deletions := m.deletions + 1)
    case BindPVC(_, _, _, _) => m
    case InsertNFS(key, _) =>
      if key in m.nfsIds then m else
        m.(nfsIds := m.nfsIds[key := m.lastNfsId + 1], lastNfsId := m.lastNfsId + 1)
    case InsertISCSI(key, _) =>
      if key in m.iscsiIds then m else
        m.(iscsiIds := m.iscsiIds[key := m.lastIscsiId + 1], lastIscsiId := m.lastIscsiId + 1)
  }

  /** A call that panics changes nothing. */
  function MockStep(m: MockState, op: Op): MockState {
    if Accepts(m, op) then MockApply(m, op) else m
  }

  /** A run of calls. */
  function MockRun(ops: seq<Op>): MockState {
    if ops == [] then EMPTY_MOCK else
      MockStep(MockRun(ops[..|ops| - 1]), ops[|ops| - 1])
  }

  lemma MockRunLast(ops: seq<Op>, op: Op)
    ensures MockRun(ops + [op]) == MockStep(MockRun(ops), op)
  {
    hide Accepts, MockApply;
    assert (ops + [op])[..|ops|] == ops;
  }

  /** The mock forgets binds: a run is the same without them, wherever they come. */
  lemma {:induction false} BindsAreForgotten(before: seq<Op>, bind: Op, after: seq<Op>)
    requires bind.BindPVC?
    ensures MockRun(before + [bind] + after) == MockRun(before + after)
  {
    if after == [] {
      assert before + [bind] + after == before + [bind] && before + after == before;
      MockRunLast(before, bind);
    } else {
      hide MockRun, MockStep;
      var front, op := after[..|after| - 1], after[|after| - 1];
      BindsAreForgotten(before, bind, front);
      MockRunLast(before + [bind] + front, op);
      MockRunLast(before + front, op);
      assert before + [bind] + after == before + [bind] + front + [op];
      assert before + after == before + front + [op];
    }
  }

  class MockManager {
    var nfsIDMap: map<NFSBackend, nat>
    var iscsiIDMap: map<ISCSIBackend, nat>
    var lastNFSID: nat
    var lastISCSIID: nat
    var podForUID: map<UID, PodAttrs>
    var pvForUID: map<UID, PVAttrs>
    var pvcForUID: map<UID, PVCAttrs>
    var deletions: nat
    const invalidRVs: bool

    constructor (invalidRVs: bool)
      ensures State() == EMPTY_MOCK && this.invalidRVs == invalidRVs
    {
      nfsIDMap, iscsiIDMap, lastNFSID, lastISCSIID := map[], map[], 0, 0;
      podForUID, pvForUID, pvcForUID, deletions := map[], map[], map[], 0;
      this.invalidRVs := invalidRVs;
    }

    function State(): MockState
      reads this
    {
      MockState(nfsIDMap, iscsiIDMap, lastNFSID, lastISCSIID, podForUID, pvForUID, pvcForUID, deletions)
    }

    method InsertNFS(key: NFSBackend) returns (id: nat)
      modifies this
      ensures State() == MockApply(old(State()), Op.InsertNFS(key, 0))
      ensures key in nfsIDMap && id == nfsIDMap[key]
    {
      if key in nfsIDMap {
        return nfsIDMap[key];
      }
      lastNFSID := lastNFSID + 1;
      nfsIDMap := nfsIDMap[key := lastNFSID];
      id := lastNFSID;
    }

    method InsertISCSI(key: ISCSIBackend) returns (id: nat)
      modifies this
      ensures State() == MockApply(old(State()), Op.InsertISCSI(key, 0))
      ensures key in iscsiIDMap && id == iscsiIDMap[key]
    {
      if key in iscsiIDMap {
        return iscsiIDMap[key];
      }
      lastISCSIID := lastISCSIID + 1;
      iscsiIDMap := iscsiIDMap[key := lastISCSIID];
      id := lastISCSIID;
    }

    method InsertPod(uid: UID, name: string, t: Time, namespace: string, containers: seq<ContainerDesc>,
                     json: string, watcherNS: string, rv: RV)
      modifies this
      ensures State() == MockApply(old(State()), Op.InsertPod(uid, name, t, namespace, containers, json, watcherNS, rv))
    {
      podForUID := podForUID[uid := PodAttrs(name, t, namespace, containers)];
    }

    method InsertPV(uid: UID, name: string, t: Time, backendId: nat, backend: Backend, storage: int,
                    accessModes: string, json: string, rv: RV)
      modifies this
      ensures State() == MockApply(old(State()), Op.InsertPV(uid, name, t, backendId, backend, storage, accessModes, json, rv))
    {
      var nfsId, iscsiId := 0, 0;
      match backend {
        case NFS => nfsId := backendId;
        case ISCSI => iscsiId := backendId;
      }
      pvForUID := pvForUID[uid := PVAttrs(name, t, nfsId, iscsiId, storage)];
    }

    method InsertPVC(uid: UID, name: string, t: Time, namespace: string, storage: int, accessModes: string,
                     json: string, watcherNS: string, rv: RV)
      modifies this
      ensures State() == MockApply(old(State()), Op.InsertPVC(uid, name, t, namespace, storage, accessModes, json, watcherNS, rv))
    {
      pvcForUID := pvcForUID[uid := PVCAttrs(name, t, namespace, storage)];
    }

    method UpdatePV(uid: UID, backendId: nat, backend: Backend, storage: int, accessModes: string, json: string, rv: RV)
      requires uid in pvForUID
      modifies this
      ensures State() == MockApply(old(State()), Op.UpdatePV(uid, backendId, backend, storage, accessModes, json, rv))
    {
      var nfsId, iscsiId := 0, 0;
      match backend {
        case NFS => nfsId := backendId;
        case ISCSI => iscsiId := backendId;
      }
      pvForUID := pvForUID[uid := pvForUID[uid].(nfsId := nfsId, iscsiId := iscsiId, storage := storage)];
    }

    method UpdatePVC(uid: UID, storage: int, accessModes: string, json: string, watcherNS: string, rv: RV)
      requires uid in pvcForUID
      modifies this
      ensures State() == MockApply(old(State()), Op.UpdatePVC(uid, storage, accessModes, json, watcherNS, rv))
    {
      pvcForUID := pvcForUID[uid := pvcForUID[uid].(storage := storage)];
    }

    method DeletePod(uid: UID, t: Time, watcherNS: string, rv: RV)
      modifies this
      ensures State() == MockApply(old(State()), Op.DeletePod(uid, t, watcherNS, rv))
    {
      podForUID := podForUID - {uid};
      deletions := deletions + 1;
    }

    method DeletePV(uid: UID, t: Time, rv: RV)
      modifies this
      ensures State() == MockApply(old(State()), Op.DeletePV(uid, t, rv))
    {
      pvForUID := pvForUID - {uid};
      deletions := deletions + 1;
    }

    method DeletePVC(uid: UID, t: Time, watcherNS: string, rv: RV)
      modifies this
      ensures State() == MockApply(old(State()), Op.DeletePVC(uid, t, watcherNS, rv))
    {
      pvcForUID := pvcForUID - {uid};
      deletions := deletions + 1;
    }

    /** The mock forgets binds. */
    method BindPVC(pvUid: UID, uid: UID, bindTime: Time, rv: RV)
      ensures State() == MockApply(State(), Op.BindPVC(pvUid, uid, bindTime, rv))
    {
    }

    /** No version is ever stored: there is none, or one that the server refuses. */
    method GetRV(resource: Resource, namespace: string) returns (version: Option<RV>)
      ensures version == if invalidRVs then Some(1) else None
    {
      version := if invalidRVs then Some(1) else None;
    }
  }
}
