/**
 Container descriptions written as a pod specification, and read back from one.
 */
module PodSpecs {
  import opened Tables

  /** A volume of a pod: `claim` is the claim name when a claim backs it. */
  datatype Volume = Volume(name: string, claim: Option<string>)

  datatype MountSpec = MountSpec(name: string, mountPath: string, readOnly: bool)

  datatype ContainerSpec = ContainerSpec(name: string, image: string, command: seq<string>, volumeMounts: seq<MountSpec>)

  datatype PodSpec = PodSpec(volumes: seq<Volume>, containers: seq<ContainerSpec>)

  // ------------------------------------------------------------------ commands

  /** strings.Join(parts, " ") */
  function Join(parts: seq<string>): string {
    if parts == [] then ""
    else if |parts| == 1 then parts[0]
    else parts[0] + " " + Join(parts[1..])
  }

  /** strings.Split(s, " "): one part more than there are blanks. */
  function Split(s: string): (parts: seq<string>)
    ensures parts != []
  {
    if s == "" then [""] else
      var rest := Split(s[1..]);
      if s[0] == ' ' then [""] + rest else [[s[0]] + rest[0]] + rest[1..]
  }

  lemma {:induction false} JoinSplit(s: string)
    ensures Join(Split(s)) == s
  {
    if s != "" {
      var rest := Split(s[1..]);
      JoinSplit(s[1..]);
      if s[0] == ' ' {
        assert ([""] + rest)[1..] == rest;
      } else {
        var parts := [[s[0]] + rest[0]] + rest[1..];
        assert parts[1..] == rest[1..];
        if |rest| > 1 {
          assert [s[0]] + (rest[0] + " " + Join(rest[1..])) == ([s[0]] + rest[0]) + " " + Join(rest[1..]);
        }
      }
      assert s == [s[0]] + s[1..];
    }
  }

  /** Joining one more argument puts one blank and the argument behind the rest, whatever the arguments hold. */
  lemma {:induction false} JoinLast(parts: seq<string>, last: string)
    ensures Join(parts + [last]) == if parts == [] then last else Join(parts) + " " + last
  {
    if parts != [] {
      assert (parts + [last])[1..] == parts[1..] + [last];
      JoinLast(parts[1..], last);
    }
  }

  predicate Blankless(parts: seq<string>) {
    forall i :: 0 <= i < |parts| ==> ' ' !in parts[i]
  }

  lemma {:induction false} SplitBlankless(s: string)
    ensures Blankless(Split(s))
  {
    if s != "" {
      SplitBlankless(s[1..]);
      var rest, parts := Split(s[1..]), Split(s);
      forall i | 0 <= i < |parts| ensures ' ' !in parts[i] {
        if s[0] == ' ' {
          assert i > 0 ==> parts[i] == rest[i - 1];
        } else {
          assert i > 0 ==> parts[i] == rest[i];
        }
      }
    }
  }

  lemma {:induction false} SplitPart(part: string, rest: string)
    requires ' ' !in part
    ensures Split(part) == [part]
    ensures Split(part + " " + rest) == [part] + Split(rest)
  {
    if part == "" {
      assert part + " " + rest == " " + rest;
      assert (" " + rest)[1..] == rest;
    } else {
      assert forall c :: c in part[1..] ==> c in part;
      SplitPart(part[1..], rest);
      assert (part + " " + rest)[1..] == part[1..] + " " + rest;
      assert [part[0]] + part[1..] == part;
    }
  }

  lemma {:induction false} SplitJoinBlankless(parts: seq<string>)
    requires parts != [] && Blankless(parts)
    ensures Split(Join(parts)) == parts
  {
    SplitPart(parts[0], Join(parts[1..]));
    if |parts| > 1 {
      assert Blankless(parts[1..]);
      SplitJoinBlankless(parts[1..]);
    }
  }

  /** An argument vector survives the tracker exactly when it is not empty and no argument holds a blank. */
  lemma SplitJoinExactly(parts: seq<string>)
    ensures Split(Join(parts)) == parts <==> parts != [] && Blankless(parts)
  {
    SplitBlankless(Join(parts));
    if parts != [] && Blankless(parts) {
      SplitJoinBlankless(parts);
    }
  }

  // ------------------------------------------------------------------ reading

  /** The claim name of each volume that a claim backs, under the volume's name; a later volume wins. */
  function ClaimNames(volumes: seq<Volume>): map<string, string> {
    if volumes == [] then map[] else
      var names := ClaimNames(volumes[..|volumes| - 1]);
      var last := volumes[|volumes| - 1];
      if last.claim.Some? then names[last.name := last.claim.value] else names
  }

  /** The mounts of claims; mounts of other volumes are skipped. */
  function ReadMounts(names: map<string, string>, mounts: seq<MountSpec>): seq<VolumeMount> {
    if mounts == [] then [] else
      var rest := ReadMounts(names, mounts[..|mounts| - 1]);
      var last := mounts[|mounts| - 1];
      if last.name in names then rest + [VolumeMount(names[last.name], last.readOnly)] else rest
  }

  function ReadContainer(names: map<string, string>, c: ContainerSpec): ContainerDesc {
    ContainerDesc(c.name, c.image, Join(c.command), ReadMounts(names, c.volumeMounts))
  }

  /** What the pod handler makes of a specification. */
  function Read(spec: PodSpec): (r: seq<ContainerDesc>)
    ensures |r| == |spec.containers|
  {
    seq(|spec.containers|, i requires 0 <= i < |spec.containers| => ReadContainer(ClaimNames(spec.volumes), spec.containers[i]))
  }

  method ReadPod(spec: PodSpec) returns (containers: seq<ContainerDesc>)
    ensures containers == Read(spec)
  {
    var names: map<string, string> := map[];
    for i := 0 to |spec.volumes|
      invariant names == ClaimNames(spec.volumes[..i])
    {
      assert spec.volumes[..i + 1][..i] == spec.volumes[..i];
      var vol := spec.volumes[i];
      if vol.claim.Some? {
        names := names[vol.name := vol.claim.value];
      }
    }
    assert spec.volumes[..|spec.volumes|] == spec.volumes;
    containers := [];
    for i := 0 to |spec.containers|
      invariant containers == Read(spec)[..i]
    {
      var c := spec.containers[i];
      var mounts: seq<VolumeMount> := [];
      for j := 0 to |c.volumeMounts|
        invariant mounts == ReadMounts(names, c.volumeMounts[..j])
      {
        assert c.volumeMounts[..j + 1][..j] == c.volumeMounts[..j];
        var mount := c.volumeMounts[j];
        if mount.name in names {
          mounts := mounts + [VolumeMount(names[mount.name], mount.readOnly)];
        }
      }
      assert c.volumeMounts[..|c.volumeMounts|] == c.volumeMounts;
      containers := containers + [ContainerDesc(c.name, c.image, Join(c.command), mounts)];
    }
  }

  // ------------------------------------------------------------------ what is read

  /** A claim backs some volume of that name. */
  function Backed(volumes: seq<Volume>): MountSpec -> bool {
    (m: MountSpec) => exists v :: v in volumes && v.name == m.name && v.claim.Some?
  }

  /** `claim` backs the last of the volumes of that name that any claim backs. */
  ghost predicate BacksLast(volumes: seq<Volume>, name: string, claim: string) {
    exists j :: 0 <= j < |volumes| && volumes[j] == Volume(name, Some(claim))
      && forall k :: j < k < |volumes| ==> volumes[k].name != name || volumes[k].claim.None?
  }

  lemma {:induction false} NamesMean(volumes: seq<Volume>, name: string)
    ensures name in ClaimNames(volumes) <==> exists v :: v in volumes && v.name == name && v.claim.Some?
    ensures name in ClaimNames(volumes) ==> BacksLast(volumes, name, ClaimNames(volumes)[name])
  {
    if volumes != [] {
      var front, last := volumes[..|volumes| - 1], volumes[|volumes| - 1];
      assert volumes == front + [last];
      NamesMean(front, name);
      if last.claim.Some? && last.name == name {
        assert volumes[|front|] == Volume(name, Some(last.claim.value));
      } else if name in ClaimNames(front) {
        var claim := ClaimNames(front)[name];
        var j :| 0 <= j < |front| && front[j] == Volume(name, Some(claim))
          && forall k :: j < k < |front| ==> front[k].name != name || front[k].claim.None?;
        assert volumes[j] == Volume(name, Some(claim));
        assert forall k :: j < k < |volumes| ==> volumes[k] == if k < |front| then front[k] else last;
      }
    }
  }

  /** The mounts read are those that a claim backs, in order, each with the claim of its volume and its own flag. */
  ghost predicate ReadsMounts(volumes: seq<Volume>, mounts: seq<MountSpec>, ms: seq<VolumeMount>) {
    var backed := Filter(Backed(volumes), mounts);
    && |ms| == |backed|
    && forall i :: 0 <= i < |ms| ==> BacksLast(volumes, backed[i].name, ms[i].name) && ms[i].readOnly == backed[i].readOnly
  }

  lemma {:induction false} ReadMountsMean(volumes: seq<Volume>, mounts: seq<MountSpec>)
    ensures ReadsMounts(volumes, mounts, ReadMounts(ClaimNames(volumes), mounts))
  {
    if mounts != [] {
      hide BacksLast, ClaimNames;
      ReadMountsMean(volumes, mounts[..|mounts| - 1]);
      NamesMean(volumes, mounts[|mounts| - 1].name);
    }
  }

  /**
   What the handler reads from any specification: one description per container, in order, with its name, image and
   joined command, and exactly the mounts of claims, under the claims' names.
   */
  lemma ReadMeans(spec: PodSpec, i: nat)
    requires i < |spec.containers|
    ensures |Read(spec)| == |spec.containers|
    ensures var c, d := spec.containers[i], Read(spec)[i];
      && d.name == c.name && d.image == c.image && d.command == Join(c.command)
      && ReadsMounts(spec.volumes, c.volumeMounts, d.pvcMounts)
  {
    ReadMountsMean(spec.volumes, spec.containers[i].volumeMounts);
  }

  lemma OnlyVolumeBacks(volume: string, claim: string, read: string)
    requires BacksLast([Volume(volume, Some(claim))], volume, read)
    ensures read == claim
  {
  }

  /** A volume with a name of its own: the mount is recorded under the claim's name, not the volume's. */
  lemma ClaimNameIsRead(volume: string, claim: string, c: ContainerSpec, readOnly: bool)
    requires c.volumeMounts == [MountSpec(volume, "/data", readOnly)]
    ensures Read(PodSpec([Volume(volume, Some(claim))], [c])) == [ContainerDesc(c.name, c.image, Join(c.command), [VolumeMount(claim, readOnly)])]
  {
    var spec := PodSpec([Volume(volume, Some(claim))], [c]);
    ReadMeans(spec, 0);
    assert Backed(spec.volumes)(c.volumeMounts[0]) by {
      assert spec.volumes[0] in spec.volumes;
    }
    assert Filter(Backed(spec.volumes), c.volumeMounts) == c.volumeMounts by {
      assert c.volumeMounts[..0] == [];
    }
    OnlyVolumeBacks(volume, claim, Read(spec)[0].pvcMounts[0].name);
    assert Read(spec)[0].pvcMounts == [VolumeMount(claim, readOnly)];
  }

  // ------------------------------------------------------------------ writing

  function Decimal(n: nat): string {
    if n < 10 then ["0123456789"[n]] else Decimal(n / 10) + ["0123456789"[n % 10]]
  }

  predicate IsDigit(c: char) { '0' <= c <= '9' }

  /** The number that decimal digits spell. */
  function NumberOf(digits: string): nat
    requires forall c :: c in digits ==> IsDigit(c)
  {
    if digits == "" then 0 else
      var last := digits[|digits| - 1];
      assert IsDigit(last) by { assert last in digits; }
      10 * NumberOf(digits[..|digits| - 1]) + (last as int - '0' as int)
  }

  lemma {:induction false} DecimalReads(n: nat)
    ensures forall c :: c in Decimal(n) ==> IsDigit(c)
    ensures NumberOf(Decimal(n)) == n
    ensures Decimal(n) != "" && (Decimal(n)[0] == '0' ==> n == 0)
  {
    DigitOf(n % 10);
    var last := ["0123456789"[n % 10]];
    if n < 10 {
      assert last[..0] == "";
    } else {
      DecimalReads(n / 10);
      assert (Decimal(n / 10) + last)[..|Decimal(n / 10)|] == Decimal(n / 10);
    }
  }

  lemma DigitOf(d: nat)
    requires d < 10
    ensures IsDigit("0123456789"[d]) && "0123456789"[d] as int - '0' as int == d
  {
  }

  /** The mounts of a container are at different paths, the j-th at the path numbered j. */
  lemma PathsAreNumbered(ms: seq<VolumeMount>, j: nat)
    requires j < |ms|
    ensures var path := WrittenMounts(ms)[j].mountPath;
      && |path| > 9 && path[..9] == "/mnt/nfs-"
      && (forall c :: c in path[9..] ==> IsDigit(c)) && NumberOf(path[9..]) == j
  {
    DecimalReads(j);
    assert ("/mnt/nfs-" + Decimal(j))[9..] == Decimal(j);
  }

  function WrittenMounts(ms: seq<VolumeMount>): (r: seq<MountSpec>)
    ensures |r| == |ms|
  {
    seq(|ms|, j requires 0 <= j < |ms| => MountSpec(ms[j].name, "/mnt/nfs-" + Decimal(j), ms[j].readOnly))
  }

  function WrittenContainer(c: ContainerDesc): ContainerSpec {
    ContainerSpec(c.name, c.image, Split(c.command), WrittenMounts(c.pvcMounts))
  }

  /**
   `spec` is a pod for these descriptions: the containers in order, and one volume for each claim that is
   mentioned, in whatever order a map was iterated.
   */
  ghost predicate Writes(descs: seq<ContainerDesc>, spec: PodSpec) {
    && |spec.containers| == |descs|
    && (forall i :: 0 <= i < |descs| ==> spec.containers[i] == WrittenContainer(descs[i]))
    && (forall i :: 0 <= i < |spec.volumes| ==> spec.volumes[i].claim == Some(spec.volumes[i].name))
    && (forall name :: MountsName(descs, name) <==> Volume(name, Some(name)) in spec.volumes)
    && (forall i, j :: 0 <= i < j < |spec.volumes| ==> spec.volumes[i] != spec.volumes[j])
  }

  /** The volumes of a map in some order, each once. */
  method IterateVolumes(volumeMap: map<string, Volume>) returns (volumes: seq<Volume>)
    requires NamedVolumes(volumeMap)
    ensures forall i :: 0 <= i < |volumes| ==> volumes[i].claim == Some(volumes[i].name)
    ensures forall name :: name in volumeMap <==> Volume(name, Some(name)) in volumes
    ensures forall i, j :: 0 <= i < j < |volumes| ==> volumes[i] != volumes[j]
  {
    volumes := [];
    var left := volumeMap.Keys;
    while left != {}
      invariant left <= volumeMap.Keys
      invariant forall i :: 0 <= i < |volumes| ==> volumes[i].claim == Some(volumes[i].name)
      invariant forall name :: name in volumeMap.Keys - left <==> Volume(name, Some(name)) in volumes
      invariant forall i, j :: 0 <= i < j < |volumes| ==> volumes[i] != volumes[j]
      decreases left
    {
      var name :| name in left;
      var vol := volumeMap[name];
      assert vol !in volumes;
      volumes := volumes + [vol];
      left := left - {name};
    }
  }

  /** The volumes so far, each under its claim's name. */
  ghost predicate NamedVolumes(volumeMap: map<string, Volume>) {
    forall name :: name in volumeMap ==> volumeMap[name] == Volume(name, Some(name))
  }

  method WriteContainer(c: ContainerDesc, volumeMap: map<string, Volume>) returns (spec: ContainerSpec, grown: map<string, Volume>)
    requires NamedVolumes(volumeMap)
    ensures spec == WrittenContainer(c) && NamedVolumes(grown)
    ensures forall name :: name in grown <==> name in volumeMap || exists k :: 0 <= k < |c.pvcMounts| && c.pvcMounts[k].name == name
  {
    var mounts: seq<MountSpec> := [];
    grown := volumeMap;
    for j := 0 to |c.pvcMounts|
      invariant mounts == WrittenMounts(c.pvcMounts)[..j] && NamedVolumes(grown)
      invariant forall name :: name in grown <==> name in volumeMap || exists k :: 0 <= k < j && c.pvcMounts[k].name == name
    {
      var pvc := c.pvcMounts[j];
      if pvc.name !in grown {
        grown := grown[pvc.name := Volume(pvc.name, Some(pvc.name))];
      }
      mounts := mounts + [MountSpec(pvc.name, "/mnt/nfs-" + Decimal(j), pvc.readOnly)];
    }
    spec := ContainerSpec(c.name, c.image, Split(c.command), mounts);
  }

  method WritePod(descs: seq<ContainerDesc>) returns (spec: PodSpec)
    ensures Writes(descs, spec)
  {
    var volumeMap: map<string, Volume> := map[];
    var containers: seq<ContainerSpec> := [];
    for i := 0 to |descs|
      invariant |containers| == i
      invariant forall k :: 0 <= k < i ==> containers[k] == WrittenContainer(descs[k])
      invariant forall name :: name in volumeMap <==> MountsName(descs[..i], name)
      invariant NamedVolumes(volumeMap)
    {
      hide MountsName, WrittenContainer;
      var container, grown := WriteContainer(descs[i], volumeMap);
      forall name ensures name in grown <==> MountsName(descs[..i + 1], name) {
        MountsNameOneMore(descs, i, name);
      }
      containers, volumeMap := containers + [container], grown;
    }
    assert descs[..|descs|] == descs;
    var volumes := IterateVolumes(volumeMap);
    spec := PodSpec(volumes, containers);
  }

  lemma MountsNameOneMore(descs: seq<ContainerDesc>, i: nat, name: string)
    requires i < |descs|
    ensures MountsName(descs[..i + 1], name)
      <==> MountsName(descs[..i], name) || exists k :: 0 <= k < |descs[i].pvcMounts| && descs[i].pvcMounts[k].name == name
  {
    if MountsName(descs[..i], name) {
      var a, b :| 0 <= a < i && 0 <= b < |descs[..i][a].pvcMounts| && descs[..i][a].pvcMounts[b].name == name;
      assert descs[..i + 1][a] == descs[..i][a];
    }
    if k :| 0 <= k < |descs[i].pvcMounts| && descs[i].pvcMounts[k].name == name {
      assert descs[..i + 1][i].pvcMounts[k].name == name;
    }
    if MountsName(descs[..i + 1], name) {
      var a, b :| 0 <= a < i + 1 && 0 <= b < |descs[..i + 1][a].pvcMounts| && descs[..i + 1][a].pvcMounts[b].name == name;
      if a < i {
        assert descs[..i][a] == descs[..i + 1][a];
      }
    }
  }

  // ------------------------------------------------------------------ the round trip

  /**
   `spec` with volumes that no claim backs put in anywhere, under names that no volume of `spec` has, and mounts
   of them put in anywhere, as the API server does for service accounts.
   */
  ghost predicate Injected(spec: PodSpec, fuller: PodSpec, added: set<string>) {
    && (forall v :: v in spec.volumes ==> v.name !in added)
    && (forall v :: v in fuller.volumes && v.name in added ==> v.claim.None?)
    && Filter(OldVolume(added), fuller.volumes) == spec.volumes
    && |fuller.containers| == |spec.containers|
    && forall i :: 0 <= i < |spec.containers| ==>
        fuller.containers[i].(volumeMounts := Filter(OldMount(added), fuller.containers[i].volumeMounts)) == spec.containers[i]
  }

  function OldVolume(added: set<string>): Volume -> bool {
    (v: Volume) => v.name !in added
  }

  function OldMount(added: set<string>): MountSpec -> bool {
    (m: MountSpec) => m.name !in added
  }

  lemma {:induction false} NamesKept(volumes: seq<Volume>, added: set<string>)
    requires forall v :: v in volumes && v.name in added ==> v.claim.None?
    ensures ClaimNames(Filter(OldVolume(added), volumes)) == ClaimNames(volumes)
  {
    if volumes != [] {
      var front, last := volumes[..|volumes| - 1], volumes[|volumes| - 1];
      assert last in volumes;
      NamesKept(front, added);
      var kept := Filter(OldVolume(added), front);
      assert (kept + [last])[..|kept|] == kept;
    }
  }

  lemma {:induction false} MountsKept(names: map<string, string>, mounts: seq<MountSpec>, added: set<string>)
    requires names.Keys !! added
    ensures ReadMounts(names, Filter(OldMount(added), mounts)) == ReadMounts(names, mounts)
  {
    if mounts != [] {
      var front, last := mounts[..|mounts| - 1], mounts[|mounts| - 1];
      MountsKept(names, front, added);
      var kept := Filter(OldMount(added), front);
      assert (kept + [last])[..|kept|] == kept;
    }
  }

  /** Each claim volume is named after its claim, so the name map is the identity on the claims mentioned. */
  lemma {:induction false} NamesOfVolumes(volumes: seq<Volume>)
    requires forall i :: 0 <= i < |volumes| ==> volumes[i].claim == Some(volumes[i].name)
    ensures forall name :: name in ClaimNames(volumes) <==> Volume(name, Some(name)) in volumes
    ensures forall name :: name in ClaimNames(volumes) ==> ClaimNames(volumes)[name] == name
  {
    if volumes != [] {
      var front, last := volumes[..|volumes| - 1], volumes[|volumes| - 1];
      NamesOfVolumes(front);
      assert volumes == front + [last];
      assert last == Volume(last.name, Some(last.name));
    }
  }

  lemma WrittenFront(ms: seq<VolumeMount>)
    requires ms != []
    ensures WrittenMounts(ms)[..|ms| - 1] == WrittenMounts(ms[..|ms| - 1])
    ensures var last, written := ms[|ms| - 1], WrittenMounts(ms)[|ms| - 1];
      written.name == last.name && written.readOnly == last.readOnly
  {
    hide Decimal;
  }

  lemma {:induction false} MountsReadBack(names: map<string, string>, ms: seq<VolumeMount>)
    requires forall i :: 0 <= i < |ms| ==> ms[i].name in names && names[ms[i].name] == ms[i].name
    ensures ReadMounts(names, WrittenMounts(ms)) == ms
  {
    if ms != [] {
      var front := ms[..|ms| - 1];
      MountsReadBack(names, front);
      WrittenFront(ms);
      var written := WrittenMounts(ms)[|ms| - 1];
      assert written.name in names;
      assert ReadMounts(names, WrittenMounts(ms)) == ReadMounts(names, WrittenMounts(front)) + [VolumeMount(names[written.name], written.readOnly)];
      hide *;
      assert ms == front + [ms[|ms| - 1]];
    }
  }

  /**
   Round trip: reading any pod written for some descriptions gives the descriptions back, also after volumes
   without a claim, and mounts of them, were injected.
   */
  lemma RoundTrip(descs: seq<ContainerDesc>, spec: PodSpec, fuller: PodSpec, added: set<string>)
    requires Writes(descs, spec) && Injected(spec, fuller, added)
    ensures Read(fuller) == descs
  {
    var names := ClaimNames(fuller.volumes);
    NamesKept(fuller.volumes, added);
    NamesOfVolumes(spec.volumes);
    assert names.Keys !! added by {
      forall name | name in names ensures name !in added {
        assert Volume(name, Some(name)) in spec.volumes;
      }
    }
    forall i | 0 <= i < |descs| ensures Read(fuller)[i] == descs[i] {
      var c, full := descs[i], fuller.containers[i];
      assert full.(volumeMounts := Filter(OldMount(added), full.volumeMounts)) == WrittenContainer(c);
      JoinSplit(c.command);
      MountsKept(names, full.volumeMounts, added);
      forall j | 0 <= j < |c.pvcMounts| ensures c.pvcMounts[j].name in names && names[c.pvcMounts[j].name] == c.pvcMounts[j].name {
        assert MountsName(descs, c.pvcMounts[j].name);
      }
      MountsReadBack(names, c.pvcMounts);
    }
  }

  /** The plain round trip, with nothing injected. */
  lemma PlainRoundTrip(descs: seq<ContainerDesc>, spec: PodSpec)
    requires Writes(descs, spec)
    ensures Read(spec) == descs
  {
    FilterAll(OldVolume({}), spec.volumes);
    forall i | 0 <= i < |spec.containers|
      ensures spec.containers[i].(volumeMounts := Filter(OldMount({}), spec.containers[i].volumeMounts)) == spec.containers[i]
    {
      FilterAll(OldMount({}), spec.containers[i].volumeMounts);
    }
    RoundTrip(descs, spec, spec, {});
  }
}
