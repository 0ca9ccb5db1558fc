/**
 The load generator: random creation and deletion of pods, claims and volumes that never deletes what is in use.
 */
module LoadGenerator {
  import opened LoadResources
  import opened Choices

  const MAX_SIZE := 10
  const MAX_VOLS_PER_CONTAINER := 5

  /** The names of the pods that hold a claim. */
  function Holders(pods: map<nat, Pod>, c: PVC): set<nat> {
    set n | n in pods && c in pods[n].pvcs
  }

  /** A claim in use knows how many pods hold it. */
  ghost predicate Counted(pods: map<nat, Pod>, pvcs: map<nat, PVC>)
    reads pvcs.Values`mounters
  {
    forall c :: c in pvcs.Values ==> c.mounters == |Holders(pods, c)|
  }

  /** Pods hold claims that are in use, each once. */
  ghost predicate HoldsCurrent(pods: map<nat, Pod>, pvcs: map<nat, PVC>) {
    forall n :: n in pods ==> NoRepeats(pods[n].pvcs) && forall c :: c in pods[n].pvcs ==> c in pvcs.Values
  }

  /** Claims and bound volumes point to each other, and the claims fit. */
  ghost predicate Paired(pvcs: map<nat, PVC>, pvs: map<nat, PV>)
    reads pvcs.Values`pv, pvs.Values`pvc
  {
    && (forall c :: c in pvcs.Values ==> c.pv != null && c.pv in pvs.Values && c.pv.pvc == c && c.size <= c.pv.size)
    && (forall v :: v in pvs.Values && v.pvc != null ==> v.pvc in pvcs.Values && v.pvc.pv == v)
  }

  ghost predicate Injective<T>(m: map<nat, T>) {
    forall a, b :: a in m && b in m && a != b ==> m[a] != m[b]
  }

  /** The value-level bookkeeping: names, capacities and distinct objects. */
  ghost predicate Books(pods: Registry<Pod>, pvcs: Registry<PVC>, pvs: Registry<PV>) {
    && Orderly(pods) && Orderly(pvcs) && Orderly(pvs)
    && pvcs.max <= pvs.max && pods.max <= pvcs.max
    && Injective(pvcs.current) && Injective(pvs.current)
    && HoldsCurrent(pods.current, pvcs.current)
  }

  lemma AddedValue<T>(m: map<nat, T>, name: nat, x: T)
    requires name !in m
    ensures m[name := x].Values == m.Values + {x}
    ensures Injective(m) && x !in m.Values ==> Injective(m[name := x])
  {
    var m' := m[name := x];
    assert m'[name] == x;
    forall y | y in m.Values ensures y in m'.Values {
      var n :| n in m && m[n] == y;
      assert m'[n] == y;
    }
  }

  lemma DroppedValue<T>(m: map<nat, T>, name: nat)
    requires name in m && Injective(m)
    ensures (m - {name}).Values == m.Values - {m[name]}
    ensures Injective(m - {name})
  {
    var m' := m - {name};
    forall y | y in m.Values - {m[name]} ensures y in m'.Values {
      var n :| n in m && m[n] == y;
      assert m'[n] == y;
    }
  }

  lemma BooksWithPV(pods: Registry<Pod>, pvcs: Registry<PVC>, pvs: Registry<PV>, name: nat, isNew: bool, pv: PV)
    requires Books(pods, pvcs, pvs) && !pvs.Full() && pv !in pvs.current.Values
    requires if isNew then name == pvs.index else pvs.Reusable(name)
    ensures isNew || name in pvs.all
    ensures name !in pvs.current && Books(pods, pvcs, Recorded(pvs, name, isNew, pv))
  {
    RecordedOrderly(pvs, name, isNew, pv);
    AddedValue(pvs.current, name, pv);
  }

  lemma PairedWithPV(pvcs: map<nat, PVC>, pvs: map<nat, PV>, name: nat, pv: PV)
    requires Paired(pvcs, pvs) && name !in pvs && pv.pvc == null
    ensures Paired(pvcs, pvs[name := pv])
  {
    AddedValue(pvs, name, pv);
  }

  lemma {:induction false} ValuesSize<T>(m: map<nat, T>)
    requires Injective(m)
    ensures |m.Values| == |m|
  {
    if m != map[] {
      var name :| name in m;
      DroppedValue(m, name);
      ValuesSize(m - {name});
      assert m.Keys == (m - {name}).Keys + {name};
      assert |m.Keys| == |m| && |(m - {name}).Keys| == |m - {name}|;
    }
  }

  /** Volumes bound to different claims are no more than the claims. */
  lemma {:induction false} BoundVolumes(volumes: set<PV>, claims: set<PVC>)
    requires forall v :: v in volumes ==> v.pvc != null && v.pvc in claims && v.pvc.pv == v
    ensures |volumes| <= |claims|
  {
    if volumes != {} {
      var v :| v in volumes;
      BoundVolumes(volumes - {v}, claims - {v.pvc});
    }
  }

  /** With more volumes than claims some volume is unbound. */
  lemma UnboundExists(pvcs: map<nat, PVC>, pvs: map<nat, PV>)
    requires Injective(pvcs) && Injective(pvs) && Paired(pvcs, pvs)
    requires |pvcs| < |pvs|
    ensures exists name :: name in pvs && pvs[name].CanDelete()
  {
    if forall v :: v in pvs.Values ==> v.pvc != null {
      ValuesSize(pvcs);
      ValuesSize(pvs);
      BoundVolumes(pvs.Values, pvcs.Values);
    } else {
      var v :| v in pvs.Values && v.pvc == null;
      var name :| name in pvs && pvs[name] == v;
      assert pvs[name].CanDelete();
    }
  }

  lemma BooksWithPVC(pods: Registry<Pod>, pvcs: Registry<PVC>, pvs: Registry<PV>, name: nat, isNew: bool, c: PVC)
    requires Books(pods, pvcs, pvs) && !pvcs.Full() && c !in pvcs.current.Values
    requires if isNew then name == pvcs.index else pvcs.Reusable(name)
    ensures isNew || name in pvcs.all
    ensures name !in pvcs.current && Books(pods, Recorded(pvcs, name, isNew, c), pvs)
  {
    RecordedOrderly(pvcs, name, isNew, c);
    AddedValue(pvcs.current, name, c);
  }

  lemma BooksWithPod(pods: Registry<Pod>, pvcs: Registry<PVC>, pvs: Registry<PV>, name: nat, isNew: bool, pod: Pod)
    requires Books(pods, pvcs, pvs) && !pods.Full()
    requires NoRepeats(pod.pvcs) && forall c :: c in pod.pvcs ==> c in pvcs.current.Values
    requires if isNew then name == pods.index else pods.Reusable(name)
    ensures isNew || name in pods.all
    ensures name !in pods.current && Books(Recorded(pods, name, isNew, pod), pvcs, pvs)
  {
    RecordedOrderly(pods, name, isNew, pod);
  }

  /** A claim that no pod holds can go. */
  lemma BooksWithoutPVC(pods: Registry<Pod>, pvcs: Registry<PVC>, pvs: Registry<PV>, name: nat)
    requires Books(pods, pvcs, pvs) && name in pvcs.current
    requires Holders(pods.current, pvcs.current[name]) == {}
    ensures Books(pods, Dropped(pvcs, name), pvs)
  {
    DroppedOrderly(pvcs, name);
    DroppedValue(pvcs.current, name);
    var c := pvcs.current[name];
    forall n | n in pods.current ensures c !in pods.current[n].pvcs {
      assert n !in Holders(pods.current, c);
    }
  }

  lemma BooksWithoutPV(pods: Registry<Pod>, pvcs: Registry<PVC>, pvs: Registry<PV>, name: nat)
    requires Books(pods, pvcs, pvs) && name in pvs.current
    ensures Books(pods, pvcs, Dropped(pvs, name))
  {
    DroppedOrderly(pvs, name);
    DroppedValue(pvs.current, name);
  }

  lemma BooksWithoutPod(pods: Registry<Pod>, pvcs: Registry<PVC>, pvs: Registry<PV>, name: nat)
    requires Books(pods, pvcs, pvs) && name in pods.current
    ensures Books(Dropped(pods, name), pvcs, pvs)
  {
    DroppedOrderly(pods, name);
  }

  lemma PairedWithoutPV(pvcs: map<nat, PVC>, pvs: map<nat, PV>, name: nat)
    requires Paired(pvcs, pvs) && Injective(pvs) && name in pvs && pvs[name].pvc == null
    ensures Paired(pvcs, pvs - {name})
  {
    DroppedValue(pvs, name);
  }

  lemma HoldersWithPod(pods: map<nat, Pod>, name: nat, pod: Pod, c: PVC)
    requires name !in pods
    ensures |Holders(pods[name := pod], c)| == |Holders(pods, c)| + if c in pod.pvcs then 1 else 0
  {
    assert Holders(pods[name := pod], c) == Holders(pods, c) + if c in pod.pvcs then {name} else {};
  }

  lemma HoldersWithoutPod(pods: map<nat, Pod>, name: nat, c: PVC)
    requires name in pods
    ensures |Holders(pods - {name}, c)| == |Holders(pods, c)| - if c in pods[name].pvcs then 1 else 0
  {
    assert Holders(pods - {name}, c) == Holders(pods, c) - {name};
  }

  /** A claim that can be deleted is held by no pod. */
  lemma NotHeld(pods: map<nat, Pod>, pvcs: map<nat, PVC>, c: PVC)
    requires Counted(pods, pvcs) && c in pvcs.Values && c.CanDelete()
    ensures Holders(pods, c) == {}
  {
  }

  lemma CountedWithoutPVC(pods: map<nat, Pod>, pvcs: map<nat, PVC>, name: nat)
    requires Counted(pods, pvcs)
    ensures Counted(pods, pvcs - {name})
  {
  }

  /** Everything is paired but for one volume, which no claim points to. */
  ghost predicate PairedBut(pvcs: map<nat, PVC>, pvs: map<nat, PV>, pv: PV)
    reads pvcs.Values`pv, pvs.Values`pvc
  {
    && (forall c :: c in pvcs.Values ==> c.pv != null && c.pv != pv && c.pv in pvs.Values && c.pv.pvc == c && c.size <= c.pv.size)
    && (forall v :: v in pvs.Values && v != pv && v.pvc != null ==> v.pvc in pvcs.Values && v.pvc.pv == v)
  }

  /** Only its own claim points to a volume. */
  lemma BoundToOne(pvcs: map<nat, PVC>, pvs: map<nat, PV>, name: nat)
    requires Paired(pvcs, pvs) && Injective(pvcs) && name in pvcs
    ensures pvcs[name].pv != null && pvcs[name].pv in pvs.Values
    ensures PairedBut(pvcs - {name}, pvs, pvcs[name].pv)
  {
    var c := pvcs[name];
    assert c in pvcs.Values;
    DroppedValue(pvcs, name);
    forall v | v in pvs.Values && v != c.pv && v.pvc != null ensures v.pvc in (pvcs - {name}).Values {
      assert v.pvc.pv == v;
    }
  }

  lemma UnboundPaired(pvcs: map<nat, PVC>, pvs: map<nat, PV>, pv: PV)
    requires PairedBut(pvcs, pvs, pv) && pv.pvc == null
    ensures Paired(pvcs, pvs)
  {
  }

  lemma UnboundBut(pvcs: map<nat, PVC>, pvs: map<nat, PV>, pv: PV)
    requires Paired(pvcs, pvs) && pv.pvc == null
    ensures PairedBut(pvcs, pvs, pv)
  {
  }

  lemma BoundPaired(pvcs: map<nat, PVC>, pvs: map<nat, PV>, name: nat, c: PVC, pv: PV)
    requires PairedBut(pvcs, pvs, pv) && name !in pvcs && pv in pvs.Values
    requires pv.pvc == c && c.pv == pv && c.size <= pv.size
    ensures Paired(pvcs[name := c], pvs)
  {
    AddedValue(pvcs, name, c);
  }

  /** No pod holds a claim that is only now made. */
  lemma CountedWithPVC(pods: map<nat, Pod>, pvcs: map<nat, PVC>, name: nat, c: PVC)
    requires Counted(pods, pvcs) && HoldsCurrent(pods, pvcs)
    requires name !in pvcs && c !in pvcs.Values && c.mounters == 0
    ensures Counted(pods, pvcs[name := c])
  {
    AddedValue(pvcs, name, c);
    assert Holders(pods, c) == {};
  }

  lemma RoomForVolumes(pods: Registry<Pod>, pvcs: Registry<PVC>, pvs: Registry<PV>)
    requires Books(pods, pvcs, pvs) && !pvcs.Full() && pvs.Full()
    ensures |pvcs.current| < |pvs.current|
  {
  }

  lemma OneLess<T>(m: map<nat, T>, name: nat)
    requires name in m
    ensures |m - {name}| == |m| - 1
  {
    assert (m - {name}).Keys == m.Keys - {name};
    assert |m.Keys| == |m| && |(m - {name}).Keys| == |m - {name}|;
  }

  /** A new pod adds one holder to each claim in its sample. */
  lemma CountedWithPod(pods: map<nat, Pod>, pvcs: map<nat, PVC>, name: nat, pod: Pod)
    requires name !in pods
    requires forall c :: c in pvcs.Values ==> c.mounters == |Holders(pods, c)| + if c in pod.pvcs then 1 else 0
    ensures Counted(pods[name := pod], pvcs)
  {
    forall c | c in pvcs.Values ensures c.mounters == |Holders(pods[name := pod], c)| {
      HoldersWithPod(pods, name, pod, c);
    }
  }

  /** Without pods every claim can be deleted. */
  lemma FreeClaims(pods: map<nat, Pod>, pvcs: map<nat, PVC>)
    requires Counted(pods, pvcs)
    ensures |pods| == 0 && |pvcs| > 0 ==> exists n :: n in pvcs && pvcs[n].CanDelete()
  {
    if |pods| == 0 && |pvcs| > 0 {
      assert pods == map[];
      var n :| n in pvcs;
      assert Holders(pods, pvcs[n]) == {};
      assert pvcs[n].CanDelete();
    }
  }

  /** Without claims every volume can be deleted. */
  lemma FreeVolumes(pvcs: map<nat, PVC>, pvs: map<nat, PV>)
    requires Paired(pvcs, pvs)
    ensures |pvcs| == 0 && |pvs| > 0 ==> exists n :: n in pvs && pvs[n].CanDelete()
  {
    if |pvcs| == 0 && |pvs| > 0 {
      assert pvcs == map[];
      var n :| n in pvs;
      assert pvs[n].CanDelete();
    }
  }

  lemma InCapacity(pods: Registry<Pod>, pvcs: Registry<PVC>, pvs: Registry<PV>)
    requires Books(pods, pvcs, pvs)
    ensures |pods.current| <= pods.max <= pvcs.max && |pvcs.current| <= pvcs.max <= pvs.max && |pvs.current| <= pvs.max
  {
  }

  function Min(a: nat, b: nat): nat { if a <= b then a else b }

  class LoadGenerator {
    var pods: Registry<Pod>
    var pvcs: Registry<PVC>
    var pvs: Registry<PV>

    constructor (maxPVs: nat, maxPVCs: nat, maxPods: nat)
      requires maxPVCs <= maxPVs && maxPods <= maxPVCs
      ensures Valid() && pods == EmptyRegistry(maxPods) && pvcs == EmptyRegistry(maxPVCs) && pvs == EmptyRegistry(maxPVs)
    {
      pods, pvcs, pvs := EmptyRegistry(maxPods), EmptyRegistry(maxPVCs), EmptyRegistry(maxPVs);
    }

    ghost predicate Valid()
      reads this, pvcs.current.Values, pvs.current.Values
    {
      && Books(pods, pvcs, pvs)
      && Counted(pods.current, pvcs.current)
      && Paired(pvcs.current, pvs.current)
    }

    /** A name for a new object: the next index, or a free one that was issued before. */
    method PickName<T>(r: Registry<T>) returns (name: nat, isNew: bool)
      requires Orderly(r) && !r.Full()
      ensures isNew <==> r.index <= r.max
      ensures if isNew then name == r.index else r.Reusable(name)
    {
      isNew := r.WantsNewName();
      if isNew {
        name := r.index;
      } else {
        ReusableExists(r);
        name :| r.Reusable(name);
      }
    }

    /** A volume under a free name, or null when there are as many as allowed. */
    method CreatePV(size: int) returns (pv: PV?, ghost name: nat)
      requires Valid()
      modifies this`pvs
      ensures Valid() && pvs.max == old(pvs.max)
      ensures pv == null <==> old(pvs.Full())
      ensures pv == null ==> pvs == old(pvs)
      ensures pv != null ==> fresh(pv) && pv.size == size && pv.pvc == null
      ensures pv != null ==> name !in old(pvs.current) && pvs.current == old(pvs.current)[name := pv]
    {
      hide Orderly, Counted, Paired, Injective, HoldsCurrent;
      pv, name := null, 0;
      if !pvs.Full() {
        var made := new PV(size);
        var picked, isNew := PickName(pvs);
        BooksWithPV(pods, pvcs, pvs, picked, isNew, made);
        PairedWithPV(pvcs.current, pvs.current, picked, made);
        pvs := Recorded(pvs, picked, isNew, made);
        pv, name := made, picked;
      }
    }

    /** A claim under a free name; the caller checks that there is room. */
    method CreatePVC(maxSize: int) returns (pvc: PVC, ghost name: nat)
      requires Valid() && !pvcs.Full() && maxSize >= 1
      modifies this`pvcs
      ensures Books(pods, pvcs, pvs) && pvcs.max == old(pvcs.max)
      ensures fresh(pvc) && 1 <= pvc.size <= maxSize && pvc.mounters == 0
      ensures name !in old(pvcs.current) && pvcs.current == old(pvcs.current)[name := pvc]
    {
      hide Orderly, Counted, Paired, Injective, HoldsCurrent;
      var size :| 1 <= size <= maxSize;
      pvc := new PVC(size);
      var picked, isNew := PickName(pvcs);
      BooksWithPVC(pods, pvcs, pvs, picked, isNew, pvc);
      pvcs := Recorded(pvcs, picked, isNew, pvc);
      name := picked;
    }

    /** Removes a volume that is not bound, if there is one. */
    method DeletePV() returns (ok: bool, name: nat)
      requires Valid()
      modifies this`pvs
      ensures Valid()
      ensures ok <==> exists n :: n in old(pvs.current) && old(pvs.current)[n].CanDelete()
      ensures ok ==> name in old(pvs.current) && old(pvs.current)[name].CanDelete() && pvs == Dropped(old(pvs), name)
      ensures !ok ==> pvs == old(pvs)
    {
      hide Orderly, Counted, Paired, Injective, HoldsCurrent;
      ok, name := false, 0;
      var targets := pvs.current.Keys;
      while !ok && targets != {}
        invariant targets <= pvs.current.Keys && Valid()
        invariant !ok ==> forall n :: n in pvs.current && n !in targets ==> !pvs.current[n].CanDelete()
        invariant pvs == old(pvs)
        invariant ok ==> name in pvs.current && pvs.current[name].CanDelete()
        decreases targets
      {
        var target :| target in targets;
        targets := targets - {target};
        if pvs.current[target].CanDelete() {
          ok, name := true, target;
        }
      }
      if ok {
        BooksWithoutPV(pods, pvcs, pvs, name);
        PairedWithoutPV(pvcs.current, pvs.current, name);
        pvs := Dropped(pvs, name);
      }
    }

    /** Removes a claim that no pod holds, if there is one, and unbinds its volume. */
    method DeletePVC() returns (ok: bool, name: nat)
      requires Valid()
      modifies this`pvcs, pvs.current.Values`pvc
      ensures Valid()
      ensures ok <==> exists n :: n in old(pvcs.current) && old(pvcs.current[n].CanDelete())
      ensures ok ==> name in old(pvcs.current) && old(pvcs.current[name].CanDelete()) && pvcs == Dropped(old(pvcs), name)
      ensures !ok ==> pvcs == old(pvcs)
    {
      hide Orderly, Counted, Paired, Injective, HoldsCurrent;
      ok, name := false, 0;
      var targets := pvcs.current.Keys;
      while !ok && targets != {}
        invariant targets <= pvcs.current.Keys && Valid()
        invariant !ok ==> forall n :: n in pvcs.current && n !in targets ==> !pvcs.current[n].CanDelete()
        invariant pvcs == old(pvcs) && forall c :: c in pvcs.current.Values ==> c.mounters == old(c.mounters)
        invariant ok ==> name in pvcs.current && pvcs.current[name].CanDelete()
        decreases targets
      {
        var target :| target in targets;
        targets := targets - {target};
        if pvcs.current[target].CanDelete() {
          ok, name := true, target;
        }
      }
      if ok {
        var c := pvcs.current[name];
        NotHeld(pods.current, pvcs.current, c);
        BooksWithoutPVC(pods, pvcs, pvs, name);
        CountedWithoutPVC(pods.current, pvcs.current, name);
        BoundToOne(pvcs.current, pvs.current, name);
        pvcs := Dropped(pvcs, name);
        c.Delete();
        UnboundPaired(pvcs.current, pvs.current, c.pv);
      }
    }

    /** Takes a pod out of use and releases its claims. */
    method RemovePod(name: nat)
      requires Valid() && name in pods.current
      modifies this`pods, pvcs.current.Values`mounters
      ensures Valid() && pods == Dropped(old(pods), name)
    {
      hide Orderly, Paired, Injective;
      var pod := pods.current[name];
      BooksWithoutPod(pods, pvcs, pvs, name);
      forall c | c in pvcs.current.Values
        ensures |Holders(pods.current - {name}, c)| == |Holders(pods.current, c)| - if c in pod.pvcs then 1 else 0
      {
        HoldersWithoutPod(pods.current, name, c);
      }
      pods := Dropped(pods, name);
      pod.Delete();
    }

    /** Removes any pod and releases its claims. */
    method DeletePod() returns (ok: bool, name: nat)
      requires Valid()
      modifies this`pods, pvcs.current.Values`mounters
      ensures Valid()
      ensures ok <==> old(pods.current) != map[]
      ensures ok ==> name in old(pods.current) && pods == Dropped(old(pods), name)
      ensures !ok ==> pods == old(pods)
    {
      hide Orderly, Paired, Injective, Counted, HoldsCurrent, Books;
      ok, name := false, 0;
      var targets := pods.current.Keys;
      while !ok && targets != {}
        invariant targets <= pods.current.Keys && Valid()
        invariant pods == old(pods) && (!ok ==> targets == pods.current.Keys)
        invariant ok ==> name in pods.current
        decreases !ok
      {
        var target :| target in targets;
        targets := targets - {target};
        if pods.current[target].CanDelete() {
          ok, name := true, target;
        }
      }
      if ok {
        RemovePod(name);
      }
    }

    /**
     A new volume, deleting an unbound one first when there is no room. It always ends: with fewer claims than
     volumes some volume is unbound, so the deletion succeeds and then there is room.
     */
    method CreatePVWithRoom() returns (pv: PV)
      requires Valid() && !pvcs.Full()
      modifies this`pvs
      ensures Valid() && fresh(pv) && pv in pvs.current.Values && pv.pvc == null && 1 <= pv.size <= MAX_SIZE
      ensures |pvs.current| == if old(pvs.Full()) then old(|pvs.current|) else old(|pvs.current|) + 1
      ensures pvs.max == old(pvs.max)
    {
      hide Orderly, Counted, Paired, Injective, HoldsCurrent;
      var made: PV? := null;
      while made == null
        invariant Valid() && pods == old(pods) && pvcs == old(pvcs) && pvs.max == old(pvs.max)
        invariant made == null ==> |pvs.current| == old(|pvs.current|) || (old(pvs.Full()) && |pvs.current| + 1 == old(|pvs.current|))
        invariant made != null ==> fresh(made) && made in pvs.current.Values && made.pvc == null && 1 <= made.size <= MAX_SIZE
        invariant made != null ==> |pvs.current| == if old(pvs.Full()) then old(|pvs.current|) else old(|pvs.current|) + 1
        decreases made == null, |pvs.current|
      {
        var size :| 1 <= size <= MAX_SIZE;
        ghost var name;
        ghost var before := pvs.current;
        made, name := CreatePV(size);
        if made == null {
          RoomForVolumes(pods, pvcs, pvs);
          UnboundExists(pvcs.current, pvs.current);
          ghost var full := pvs;
          var ok, dropped := DeletePV();
          OneLess(full.current, dropped);
        } else {
          AddedValue(before, name, made);
          OneMoreInUse(before, name, made);
        }
      }
      pv := made;
    }

    /** A new volume with a claim of its own. */
    method CreateVol() returns (ghost name: nat)
      requires Valid() && !pvcs.Full()
      modifies this`pvcs, this`pvs
      ensures Valid() && name !in old(pvcs.current) && name in pvcs.current
      ensures pvcs.current == old(pvcs.current)[name := pvcs.current[name]]
      ensures fresh(pvcs.current[name]) && pvcs.current[name].pv != null && fresh(pvcs.current[name].pv)
      ensures 1 <= pvcs.current[name].size <= pvcs.current[name].pv.size <= MAX_SIZE
      ensures |pvcs.current| == old(|pvcs.current|) + 1 && pvcs.max == old(pvcs.max)
      ensures |pvs.current| == if old(pvs.Full()) then old(|pvs.current|) else old(|pvs.current|) + 1
      ensures pvs.max == old(pvs.max)
    {
      hide Orderly, Counted, Paired, Injective, HoldsCurrent;
      var pv := CreatePVWithRoom();
      ghost var claims := pvcs.current;
      UnboundBut(claims, pvs.current, pv);
      var pvc;
      pvc, name := CreatePVC(pv.size);
      OneMoreInUse(claims, name, pvc);
      CountedWithPVC(pods.current, claims, name, pvc);
      pv.Bind(pvc);
      BoundPaired(claims, pvs.current, name, pvc, pv);
    }

    /** A random sample of claims, each at most once. */
    method Sample(claims: set<PVC>, count: nat) returns (sample: seq<PVC>)
      requires count <= |claims|
      ensures |sample| == count && NoRepeats(sample) && forall c :: c in sample ==> c in claims
    {
      sample := [];
      var left := claims;
      while |sample| < count
        invariant |sample| <= count && |left| == |claims| - |sample| && left <= claims
        invariant NoRepeats(sample) && forall c :: c in sample ==> c in claims && c !in left
      {
        var c :| c in left;
        sample := sample + [c];
        left := left - {c};
      }
    }

    /** A handful of the claims in use: as many as wanted, up to the maximum and to what there is. */
    method SampleClaims(wanted: nat) returns (sample: seq<PVC>)
      requires Injective(pvcs.current)
      ensures NoRepeats(sample) && |sample| == Min(wanted, Min(MAX_VOLS_PER_CONTAINER, |pvcs.current|))
      ensures forall c :: c in sample ==> c in pvcs.current.Values
    {
      var count := if wanted < MAX_VOLS_PER_CONTAINER then wanted else MAX_VOLS_PER_CONTAINER;
      ValuesSize(pvcs.current);
      if |pvcs.current| < count {
        count := |pvcs.current|;
      }
      sample := Sample(pvcs.current.Values, count);
    }

    /** The pod mounts its claims as it is made, before it is recorded. */
    method MakePod(sample: seq<PVC>) returns (pod: Pod)
      requires Counted(pods.current, pvcs.current) && NoRepeats(sample)
      modifies sample`mounters
      ensures fresh(pod) && pod.pvcs == sample
      ensures forall c :: c in pvcs.current.Values ==>
        c.mounters == |Holders(pods.current, c)| + if c in sample then 1 else 0
    {
      pod := new Pod(sample);
    }

    /** A pod that mounts the sample, under a free name. */
    method AddPod(sample: seq<PVC>) returns (ghost name: nat)
      requires Valid() && !pods.Full()
      requires NoRepeats(sample) && forall c :: c in sample ==> c in pvcs.current.Values
      modifies this`pods, sample`mounters
      ensures Valid() && pods.max == old(pods.max)
      ensures name !in old(pods.current) && name in pods.current && pods.current[name].pvcs == sample
      ensures pods.current == old(pods.current)[name := pods.current[name]]
      ensures |pods.current| == old(|pods.current|) + 1
    {
      hide Orderly, Counted, Paired, Injective, HoldsCurrent, Holders, NoRepeats;
      var pod := MakePod(sample);
      var picked, isNew := PickName(pods);
      BooksWithPod(pods, pvcs, pvs, picked, isNew, pod);
      CountedWithPod(pods.current, pvcs.current, picked, pod);
      OneMoreInUse(pods.current, picked, pod);
      pods := Recorded(pods, picked, isNew, pod);
      name := picked;
    }

    /**
     A pod that mounts as many claims in use as are wanted, up to the maximum and to what there is; nothing happens
     when there are as many pods as allowed.
     */
    method CreatePod(wanted: nat) returns (ok: bool, ghost name: nat)
      requires Valid()
      modifies this`pods, pvcs.current.Values`mounters
      ensures Valid() && ok && pods.max == old(pods.max)
      ensures old(pods.Full()) ==> pods == old(pods)
      ensures !old(pods.Full()) ==> name !in old(pods.current) && name in pods.current
      ensures !old(pods.Full()) ==> pods.current == old(pods.current)[name := pods.current[name]]
      ensures !old(pods.Full()) ==> |pods.current[name].pvcs| == Min(wanted, Min(MAX_VOLS_PER_CONTAINER, |pvcs.current|))
      ensures |pods.current| == if old(pods.Full()) then old(|pods.current|) else old(|pods.current|) + 1
    {
      hide Orderly, Counted, Paired, Injective, HoldsCurrent;
      ok, name := true, 0;
      var sample := SampleClaims(wanted);
      if !pods.Full() {
        name := AddPod(sample);
      }
    }

    /** All objects in use. */
    function Count(): nat
      reads this
    {
      |pods.current| + |pvcs.current| + |pvs.current|
    }

    predicate SameNumbers(np: nat, nc: nat, nv: nat)
      reads this
    {
      |pods.current| == np && |pvcs.current| == nc && |pvs.current| == nv
    }

    /** DeletePod, in numbers. */
    method TryPod() returns (ok: bool)
      requires Valid()
      modifies this`pods, pvcs.current.Values`mounters
      ensures Valid() && pods.max == old(pods.max)
      ensures ok <==> old(|pods.current|) > 0
      ensures |pods.current| == if ok then old(|pods.current|) - 1 else old(|pods.current|)
    {
      hide Orderly, Counted, Paired, Injective, HoldsCurrent, Books, Valid;
      ghost var before := pods.current;
      var name;
      ok, name := DeletePod();
      if ok {
        OneLess(before, name);
      }
    }

    /** DeletePVC, in numbers: it succeeds when there are claims and no pods. */
    method TryPVC() returns (ok: bool)
      requires Valid()
      modifies this`pvcs, pvs.current.Values`pvc
      ensures Valid() && pvcs.max == old(pvcs.max)
      ensures |pods.current| == 0 && old(|pvcs.current|) > 0 ==> ok
      ensures ok ==> |pvcs.current| == old(|pvcs.current|) - 1
      ensures !ok ==> pvcs == old(pvcs)
    {
      hide Orderly, Counted, Paired, Injective, HoldsCurrent, Books;
      FreeClaims(pods.current, pvcs.current);
      ghost var before := pvcs.current;
      var name;
      ok, name := DeletePVC();
      if ok {
        OneLess(before, name);
      }
    }

    /** DeletePV, in numbers: it succeeds when there are volumes and no claims. */
    method TryPV() returns (ok: bool)
      requires Valid()
      modifies this`pvs
      ensures Valid() && pvs.max == old(pvs.max)
      ensures |pvcs.current| == 0 && old(|pvs.current|) > 0 ==> ok
      ensures ok ==> |pvs.current| == old(|pvs.current|) - 1
      ensures !ok ==> pvs == old(pvs)
    {
      hide Orderly, Counted, Paired, Injective, HoldsCurrent, Books;
      FreeVolumes(pvcs.current, pvs.current);
      ghost var before := pvs.current;
      var name;
      ok, name := DeletePV();
      if ok {
        OneLess(before, name);
      }
    }

    /** One deletion: exactly one object less, or nothing changed, which the sure type rules out. */
    method Delete(action: Action) returns (ok: bool)
      requires Valid() && Count() > 0
      requires action.DeletePod? || action.DeletePVC? || action.DeletePV?
      modifies this, pvcs.current.Values`mounters, pvs.current.Values`pvc
      ensures Valid() && pods.max == old(pods.max) && pvcs.max == old(pvcs.max) && pvs.max == old(pvs.max)
      ensures ok ==> Count() == old(Count()) - 1
      ensures !ok ==> pvcs == old(pvcs) && pvs == old(pvs)
      ensures !ok ==> SameNumbers(old(|pods.current|), old(|pvcs.current|), old(|pvs.current|))
      ensures !ok ==> action != SureAction(old(|pods.current|), old(|pvcs.current|))
    {
      hide Orderly, Counted, Paired, Injective, HoldsCurrent, Books, Valid;
      match action {
        case DeletePod => ok := TryPod();
        case DeletePVC => ok := TryPVC();
        case DeletePV => ok := TryPV();
      }
    }

    /** What a creation makes of the numbers: one pod more, or one claim more on a new volume. */
    predicate Created(np: nat, nc: nat, nv: nat)
      reads this
    {
      || (|pods.current| == np + 1 && |pvcs.current| == nc && |pvs.current| == nv)
      || (|pods.current| == np && |pvcs.current| == nc + 1 && |pvs.current| == if nv == pvs.max then nv else nv + 1)
    }

    /** One creation, which the caller has room for. */
    method Create(action: Action) returns (ok: bool)
      requires Valid()
      requires (action.CreatePod? && !pods.Full()) || (action.CreateVol? && !pvcs.Full())
      modifies this, pvcs.current.Values`mounters
      ensures Valid() && pods.max == old(pods.max) && pvcs.max == old(pvcs.max) && pvs.max == old(pvs.max)
      ensures ok && Created(old(|pods.current|), old(|pvcs.current|), old(|pvs.current|))
    {
      hide Orderly, Counted, Paired, Injective, HoldsCurrent, Books, Valid;
      match action {
        case CreatePod =>
          var wanted: nat :| true;
          ghost var name;
          ok, name := CreatePod(wanted);
        case CreateVol =>
          ghost var _ := CreateVol();
          ok := true;
      }
    }

    /** The choices for an action, with the weights of the numbers now. */
    method Alternatives(deleting: bool) returns (choices: seq<Choice>)
      requires deleting ==> Count() > 0
      ensures choices == if deleting then DeleteChoices(|pods.current|, |pvcs.current|, |pvs.current|)
                         else CreateChoices(|pods.current|, |pvcs.current|, pods.max, pvcs.max)
    {
      if deleting {
        choices := DeleteChoices(|pods.current|, |pvcs.current|, |pvs.current|);
      } else {
        choices := CreateChoices(|pods.current|, |pvcs.current|, pods.max, pvcs.max);
      }
    }

    /** Whether to delete: by how full the cluster is. */
    method Decide() returns (deleting: bool, draw: real)
      requires pods.max >= 1
      ensures 0.0 <= draw < 1.0
      ensures deleting <==> Below(draw, |pods.current| + |pvcs.current| + |pvs.current|, pods.max + pvcs.max + pvs.max)
      ensures deleting ==> Count() > 0
    {
      draw :| 0.0 <= draw < 1.0;
      ChanceMeans(draw, |pods.current| + |pvcs.current| + |pvs.current|, pods.max + pvcs.max + pvs.max);
      EmptyNeverDeletes(draw, pods.max + pvcs.max + pvs.max);
      deleting := draw < DeleteChance(Count(), pods.max + pvcs.max + pvs.max);
    }

    /** Picks a choice by its weight, after rescaling, and takes it out. */
    method Draw(choices: seq<Choice>) returns (action: Action, rest: seq<Choice>, n: real)
      requires Total(choices) > 0.0
      ensures 0.0 <= n < 1.0
      ensures exists i | 0 <= i < |choices| ::
        choices[i].action == action && choices[i].p > 0.0 && Taken(choices, i, rest) && Drawn(choices, i, n)
    {
      var scaled := RecalculateProbabilities(choices);
      n :| 0.0 <= n < 1.0;
      var i := Pick(scaled, n);
      action, rest := scaled[i].action, Without(scaled, i);
      ScaledTaken(choices, scaled, i);
      ScaledDrawn(choices, scaled, i, n);
    }

    /** An action of the delete mode, retried on another type until something was deleted. */
    method DeleteSomething(alternatives: seq<Choice>)
      requires Valid() && Count() > 0
      requires alternatives == DeleteChoices(|pods.current|, |pvcs.current|, |pvs.current|)
      modifies this, pvcs.current.Values`mounters, pvs.current.Values`pvc
      ensures Valid() && Count() == old(Count()) - 1
      ensures pods.max == old(pods.max) && pvcs.max == old(pvcs.max) && pvs.max == old(pvs.max)
    {
      hide Orderly, Counted, Paired, Injective, HoldsCurrent, Books, Valid;
      var choices, success := alternatives, false;
      ghost var np, nc, nv := |pods.current|, |pvcs.current|, |pvs.current|;
      ghost var sure := SureAction(np, nc);
      DeletionsOffered(np, nc, nv);
      while |choices| > 0 && !success
        invariant Valid() && pods.max == old(pods.max) && pvcs.max == old(pvcs.max) && pvs.max == old(pvs.max)
        invariant !success ==> pvcs == old(pvcs) && pvs == old(pvs) && SameNumbers(np, nc, nv)
        invariant success ==> Count() == np + nc + nv - 1
        invariant !success ==> Offers(choices, sure)
        decreases |choices|
      {
        TotalPositive(choices);
        var action, rest, _ := Draw(choices);
        TakenOffers(choices, rest, action, sure);
        choices := rest;
        success := Delete(action);
      }
    }

    /** An action of the create mode: the retry loop ends with the first draw, as a creation cannot fail. */
    method CreateSomething(alternatives: seq<Choice>)
      requires Valid() && pods.max >= 1 && alternatives != []
      requires alternatives == CreateChoices(|pods.current|, |pvcs.current|, pods.max, pvcs.max)
      modifies this, pvcs.current.Values`mounters
      ensures Valid() && Created(old(|pods.current|), old(|pvcs.current|), old(|pvs.current|))
      ensures pods.max == old(pods.max) && pvcs.max == old(pvcs.max) && pvs.max == old(pvs.max)
    {
      hide Orderly, Counted, Paired, Injective, HoldsCurrent;
      InCapacity(pods, pvcs, pvs);
      CreateWeightIff(|pods.current|, |pvcs.current|, pods.max, pvcs.max);
      var choices, success := alternatives, false;
      ghost var np, nc, nv := |pods.current|, |pvcs.current|, |pvs.current|;
      while |choices| > 0 && !success
        invariant Valid() && pods.max == old(pods.max) && pvcs.max == old(pvcs.max) && pvs.max == old(pvs.max)
        invariant !success ==> choices == alternatives && pvcs == old(pvcs) && SameNumbers(np, nc, nv)
        invariant success ==> Created(np, nc, nv)
        decreases !success
      {
        var action, rest, _ := Draw(choices);
        ghost var i :| 0 <= i < |choices| && choices[i].action == action;
        CreationsOffered(np, nc, pods.max, pvcs.max, i);
        choices := rest;
        success := Create(action);
      }
    }

    /** The action of either mode. */
    method Act(deleting: bool)
      requires Valid() && pods.max >= 1 && (deleting ==> Count() > 0)
      modifies this, pvcs.current.Values`mounters, pvs.current.Values`pvc
      ensures Valid() && pods.max == old(pods.max) && pvcs.max == old(pvcs.max) && pvs.max == old(pvs.max)
      ensures deleting ==> Count() == old(Count()) - 1
      ensures !deleting && !(old(pods.Full()) && old(pvcs.Full())) ==>
        Created(old(|pods.current|), old(|pvcs.current|), old(|pvs.current|))
      ensures !deleting && old(pods.Full()) && old(pvcs.Full()) ==>
        SameNumbers(old(|pods.current|), old(|pvcs.current|), old(|pvs.current|))
    {
      hide Orderly, Counted, Paired, Injective, HoldsCurrent, Books;
      InCapacity(pods, pvcs, pvs);
      var choices := Alternatives(deleting);
      if deleting {
        DeleteSomething(choices);
      } else if |choices| > 0 {
        CreateSomething(choices);
      }
    }

    /**
     One step of the load: it deletes when the draw is below the share of the capacity that is used. Then exactly one
     object goes, whatever was drawn; otherwise something is made unless there are as many pods and claims as allowed.
     */
    method DoAction() returns (deleting: bool, draw: real)
      requires Valid() && pods.max >= 1
      modifies this, pvcs.current.Values`mounters, pvs.current.Values`pvc
      ensures Valid() && pods.max == old(pods.max) && pvcs.max == old(pvcs.max) && pvs.max == old(pvs.max)
      ensures 0.0 <= draw < 1.0
      ensures deleting <==> Below(draw, old(|pods.current| + |pvcs.current| + |pvs.current|), pods.max + pvcs.max + pvs.max)
      ensures deleting ==> Count() == old(Count()) - 1
      ensures !deleting && !(old(pods.Full()) && old(pvcs.Full())) ==>
        Created(old(|pods.current|), old(|pvcs.current|), old(|pvs.current|))
      ensures !deleting && old(pods.Full()) && old(pvcs.Full()) ==>
        SameNumbers(old(|pods.current|), old(|pvcs.current|), old(|pvs.current|))
    {
      hide *;
      deleting, draw := Decide();
      Act(deleting);
    }
  }
}
