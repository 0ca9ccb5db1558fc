/**
 The objects that the load generator keeps: pods, claims and volumes, with reference counts and two-way bindings.
 */
module LoadResources {

  predicate NoRepeats<T(==)>(s: seq<T>) {
    forall i, j :: 0 <= i < j < |s| ==> s[i] != s[j]
  }

  class PV {
    const size: int
    var pvc: PVC?

    constructor (size: int)
      ensures this.size == size && pvc == null
    {
      this.size := size;
      pvc := null;
    }

    method Bind(claim: PVC)
      modifies this`pvc, claim`pv
      ensures pvc == claim && claim.pv == this
    {
      pvc := claim;
      claim.pv := this;
    }

    method Unbind()
      modifies this`pvc
      ensures pvc == null
    {
      pvc := null;
    }

    predicate CanDelete()
      reads this
    {
      pvc == null
    }
  }

  class PVC {
    const size: int
    var mounters: int
    var pv: PV?

    constructor (size: int)
      ensures this.size == size && mounters == 0 && pv == null
    {
      this.size := size;
      mounters := 0;
      pv := null;
    }

    method Mount()
      modifies this`mounters
      ensures mounters == old(mounters) + 1
    {
      mounters := mounters + 1;
    }

    method Unmount()
      modifies this`mounters
      ensures mounters == old(mounters) - 1
    {
      mounters := mounters - 1;
    }

    predicate CanDelete()
      reads this
    {
      mounters == 0
    }

    /** The source asserts that the claim is bound; here that is for the caller to prove. */
    method Delete()
      requires pv != null
      modifies pv`pvc
      ensures pv.pvc == null
    {
      pv.Unbind();
    }
  }

  class Pod {
    const pvcs: seq<PVC>

    constructor (pvcs: seq<PVC>)
      requires NoRepeats(pvcs)
      modifies pvcs`mounters
      ensures this.pvcs == pvcs
      ensures forall c :: c in pvcs ==> c.mounters == old(c.mounters) + 1
    {
      this.pvcs := pvcs;
      new;
      for i := 0 to |pvcs|
        invariant forall k :: 0 <= k < i ==> pvcs[k].mounters == old(pvcs[k].mounters) + 1
        invariant forall k :: i <= k < |pvcs| ==> pvcs[k].mounters == old(pvcs[k].mounters)
      {
        pvcs[i].Mount();
      }
    }

    /** Always, for a pod. */
    predicate CanDelete() {
      true
    }

    method Delete()
      requires NoRepeats(pvcs)
      modifies pvcs`mounters
      ensures forall c :: c in pvcs ==> c.mounters == old(c.mounters) - 1
    {
      for i := 0 to |pvcs|
        invariant forall k :: 0 <= k < i ==> pvcs[k].mounters == old(pvcs[k].mounters) - 1
        invariant forall k :: i <= k < |pvcs| ==> pvcs[k].mounters == old(pvcs[k].mounters)
      {
        pvcs[i].Unmount();
      }
    }
  }

  /**
   The bookkeeping for one type of resource. Names are a fixed prefix and an index, so an index stands for a name.
   `all` has every object ever made under each name, oldest first.
   */
  datatype Registry<!T> = Registry(max: nat, current: map<nat, T>, all: map<nat, seq<T>>, index: nat, created: nat)
  {
    predicate Full() {
      |current| == max
    }

    predicate WantsNewName() {
      index <= max
    }

    /** The names that may be drawn: issued, and not in use. */
    predicate Reusable(name: nat) {
      name < index && name !in current
    }
  }

  function EmptyRegistry<T>(max: nat): Registry<T> {
    Registry(max, map[], map[], 0, 0)
  }

  /** The first names. */
  function Names(index: nat): (names: set<nat>)
    ensures forall n: nat :: n in names <==> n < index
    ensures |names| == index
  {
    if index == 0 then {} else Names(index - 1) + {index - 1}
  }

  /** How many objects the first names ever had. */
  function CountAll<T>(all: map<nat, seq<T>>, index: nat): nat {
    if index == 0 then 0 else CountAll(all, index - 1) + if index - 1 in all then |all[index - 1]| else 0
  }

  /**
   Names in use were issued and are within the capacity; every issued name has its objects on record, the one in
   use last; the count of creations is that of the records.
   */
  ghost predicate Orderly<T>(r: Registry<T>) {
    && |r.current| <= r.max
    && (forall n: nat :: n in r.all <==> n < r.index)
    && (forall n :: n in r.current ==> n < r.index && r.all[n] != [] && r.all[n][|r.all[n]| - 1] == r.current[n])
    && r.created == CountAll(r.all, r.index)
  }

  lemma FewerThan(a: set<nat>, b: set<nat>)
    requires |a| < |b|
    ensures exists n :: n in b && n !in a
  {
    if b <= a {
      Subset(b, a);
    }
  }

  lemma {:induction false} Subset<T>(a: set<T>, b: set<T>)
    requires a <= b
    ensures |a| <= |b|
  {
    assert a + (b - a) == b;
  }

  /** A name can be reused whenever a new one is not wanted: fewer are in use than the maximum, more were issued. */
  lemma ReusableExists<T>(r: Registry<T>)
    requires Orderly(r) && !r.Full() && !r.WantsNewName()
    ensures exists name :: r.Reusable(name)
  {
    assert |r.current.Keys| == |r.current|;
    FewerThan(r.current.Keys, Names(r.index));
    var name :| name in Names(r.index) && name !in r.current.Keys;
    assert r.Reusable(name);
  }

  /** Records an object under a name, new or reused. */
  function Recorded<T>(r: Registry<T>, name: nat, isNew: bool, x: T): Registry<T>
    requires isNew || name in r.all
  {
    Registry(r.max, r.current[name := x],
             if isNew then r.all[name := [x]] else r.all[name := r.all[name] + [x]],
             if isNew then r.index + 1 else r.index, r.created + 1)
  }

  function Dropped<T>(r: Registry<T>, name: nat): Registry<T> {
    r.(current := r.current - {name})
  }

  lemma {:induction false} CountAllSame<T>(all: map<nat, seq<T>>, all': map<nat, seq<T>>, index: nat)
    requires forall n :: n < index ==> (n in all <==> n in all') && (n in all ==> |all[n]| == |all'[n]|)
    ensures CountAll(all, index) == CountAll(all', index)
  {
    if index > 0 {
      CountAllSame(all, all', index - 1);
    }
  }

  lemma {:induction false} CountAllMore<T>(all: map<nat, seq<T>>, name: nat, x: T, index: nat)
    requires name < index && name in all
    ensures CountAll(all[name := all[name] + [x]], index) == CountAll(all, index) + 1
  {
    var all' := all[name := all[name] + [x]];
    if name == index - 1 {
      CountAllSame(all, all', index - 1);
    } else {
      CountAllMore(all, name, x, index - 1);
    }
  }

  lemma OneMoreInUse<T>(current: map<nat, T>, name: nat, x: T)
    requires name !in current
    ensures |current[name := x]| == |current| + 1
  {
    assert current[name := x].Keys == current.Keys + {name};
    assert |current[name := x].Keys| == |current[name := x]| && |current.Keys| == |current|;
  }

  lemma NewNameNumbers<T>(all: map<nat, seq<T>>, index: nat, x: T)
    requires forall n: nat :: n in all <==> n < index
    ensures CountAll(all[index := [x]], index + 1) == CountAll(all, index) + 1
  {
    var all' := all[index := [x]];
    CountAllSame(all, all', index);
  }

  lemma NewNameOrderly<T>(r: Registry<T>, x: T)
    requires Orderly(r) && !r.Full()
    ensures r.index !in r.current && Orderly(Recorded(r, r.index, true, x))
  {
    hide CountAll;
    OneMoreInUse(r.current, r.index, x);
    NewNameNumbers(r.all, r.index, x);
  }

  lemma ReusedNameOrderly<T>(r: Registry<T>, name: nat, x: T)
    requires Orderly(r) && !r.Full() && r.Reusable(name)
    ensures name in r.all && Orderly(Recorded(r, name, false, x))
  {
    OneMoreInUse(r.current, name, x);
    CountAllMore(r.all, name, x, r.index);
  }

  /** Recording never overwrites an object in use, and keeps the registry orderly. */
  lemma RecordedOrderly<T>(r: Registry<T>, name: nat, isNew: bool, x: T)
    requires Orderly(r) && !r.Full()
    requires if isNew then name == r.index else r.Reusable(name)
    ensures name !in r.current
    ensures (isNew || name in r.all) && Orderly(Recorded(r, name, isNew, x))
    ensures |Recorded(r, name, isNew, x).current| == |r.current| + 1
  {
    if isNew {
      NewNameOrderly(r, x);
    } else {
      ReusedNameOrderly(r, name, x);
    }
    OneMoreInUse(r.current, name, x);
  }

  lemma DroppedOrderly<T>(r: Registry<T>, name: nat)
    requires Orderly(r) && name in r.current
    ensures Orderly(Dropped(r, name)) && |Dropped(r, name).current| == |r.current| - 1
  {
    var r' := Dropped(r, name);
    assert r'.current.Keys == r.current.Keys - {name};
    assert |r'.current.Keys| == |r'.current| && |r.current.Keys| == |r.current|;
  }
}
