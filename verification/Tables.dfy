/**
 The tables of the tracker's database, as values.

 Tables with a primary key are maps from the key; `container` and `pod_mount`, which have none that is
 ever read, are sequences in insertion order. A nullable column is an Option. The REFERENCES clauses of the
 schema are not enforced by the database, so nothing here assumes them.
 */
module Tables {

  datatype Option<+T> = None | Some(value: T)

  /** An opaque identifier. Its order is only the order in which a primary-key index is scanned. */
  type UID = nat
  type Time = int

  /** A resource version of the API server. */
  type RV = nat

  datatype Resource = Pods | PVs | PVCs

  datatype RVKey = RVKey(resource: Resource, namespace: string)

  /** PVs are not namespaced: their resource version is kept under this name. */
  const PV_NAMESPACE := "default"

  datatype VolumeMount = VolumeMount(name: string, readOnly: bool)

  datatype ContainerDesc = ContainerDesc(name: string, image: string, command: string, pvcMounts: seq<VolumeMount>)

  /** The description mounts a claim of this name. */
  predicate MountsName(cs: seq<ContainerDesc>, name: string) {
    exists i, j :: 0 <= i < |cs| && 0 <= j < |cs[i].pvcMounts| && cs[i].pvcMounts[j].name == name
  }

  datatype NFSBackend = NFSBackend(ipAddr: string, path: string)

  datatype ISCSIBackend = ISCSIBackend(targetPortal: string, iqn: string, lun: int, fsType: string)

  datatype PodRow = PodRow(name: string, createTime: Time, deleteTime: Option<Time>, namespace: string, json: string)

  datatype ContainerRow = ContainerRow(podUid: UID, name: string, image: string, command: string)

  datatype MountRow = MountRow(
    podUid: UID, pvcUid: Option<UID>, containerName: string, pvcName: string, readOnly: bool)

  datatype PVRow = PVRow(
    name: string, createTime: Time, deleteTime: Option<Time>, storage: int, accessModes: string, json: string,
    nfsId: nat, iscsiId: nat)

  /** Every column but the key is nullable: a bind may create the row before the claim is seen. */
  datatype PVCRow = PVCRow(
    name: Option<string>, createTime: Option<Time>, deleteTime: Option<Time>, bindTime: Option<Time>,
    namespace: Option<string>, storage: Option<int>, accessModes: Option<string>, json: Option<string>,
    pvUid: Option<UID>)

  const EMPTY_CLAIM := PVCRow(None, None, None, None, None, None, None, None, None)

  datatype IdRow<K> = IdRow(id: nat, key: K)

  /** A table with an AUTO_INCREMENT id: `last` is the last id handed out, used by a row or lost in a rollback. */
  datatype Ids<K> = Ids(rows: seq<IdRow<K>>, last: nat)

  datatype DB = DB(
    pod: map<UID, PodRow>,
    container: seq<ContainerRow>,
    podMount: seq<MountRow>,
    pv: map<UID, PVRow>,
    pvc: map<UID, PVCRow>,
    nfs: Ids<NFSBackend>,
    iscsi: Ids<ISCSIBackend>,
    rv: map<RVKey, RV>)

  const EMPTY_DB := DB(map[], [], [], map[], map[], Ids([], 0), Ids([], 0), map[])

  function Lookup<K, V>(m: map<K, V>, k: K): Option<V> {
    if k in m then Some(m[k]) else None
  }

  lemma SomeMember<T>(s: set<T>) returns (x: T)
    requires s != {}
    ensures x in s
  {
    x :| x in s;
  }

  /** The rows of `s` that satisfy `f`, in order: the effect of DELETE on the others. */
  function Filter<T>(f: T -> bool, s: seq<T>): seq<T> {
    if s == [] then [] else
      var rest := Filter(f, s[..|s| - 1]);
      if f(s[|s| - 1]) then rest + [s[|s| - 1]] else rest
  }

  lemma {:induction false} FilterConcat<T>(f: T -> bool, a: seq<T>, b: seq<T>)
    ensures Filter(f, a + b) == Filter(f, a) + Filter(f, b)
  {
    if b == [] {
      assert a + b == a;
    } else {
      FilterConcat(f, a, b[..|b| - 1]);
      assert (a + b)[..|a + b| - 1] == a + b[..|b| - 1];
    }
  }

  lemma {:induction false} FilterMembers<T>(f: T -> bool, s: seq<T>)
    ensures |Filter(f, s)| <= |s|
    ensures forall x :: x in Filter(f, s) <==> x in s && f(x)
  {
    if s != [] {
      FilterMembers(f, s[..|s| - 1]);
      assert s == s[..|s| - 1] + [s[|s| - 1]];
    }
  }

  lemma {:induction false} FilterAll<T>(f: T -> bool, s: seq<T>)
    ensures (forall x :: x in s ==> f(x)) <==> Filter(f, s) == s
    ensures (forall x :: x in s ==> !f(x)) <==> Filter(f, s) == []
  {
    FilterMembers(f, s);
    if s != [] {
      FilterAll(f, s[..|s| - 1]);
      FilterMembers(f, s[..|s| - 1]);
      assert s == s[..|s| - 1] + [s[|s| - 1]];
    }
  }

  /** Two filters in a row are one filter with the conjunction. */
  lemma {:induction false} FilterFilter<T>(f: T -> bool, g: T -> bool, h: T -> bool, s: seq<T>)
    requires forall x :: x in s ==> (h(x) <==> f(x) && g(x))
    ensures Filter(f, Filter(g, s)) == Filter(h, s)
  {
    if s != [] {
      var front, last := s[..|s| - 1], s[|s| - 1];
      FilterFilter(f, g, h, front);
      assert last in s;
      if g(last) {
        FilterConcat(f, Filter(g, front), [last]);
        assert Filter(f, [last]) == if f(last) then [last] else [];
      }
    }
  }
}
