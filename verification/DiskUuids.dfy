/** No two nodes that use one LVM profile may own disks of the same canonical uuid. */
module DiskUuids {
  import opened Seqs

  const KGB := "kgb"

  datatype Disk = Disk(name: string, uuid: Option<string>)

  datatype Device = Device(path: string, name: string, forRemoval: bool)

  datatype VolumeGroup = VolumeGroup(devices: seq<Device>, forRemoval: bool)

  /** `usesProfile` says that the node's profile was inherited from the one being validated. */
  datatype Node = Node(usesProfile: bool, volumeGroups: seq<VolumeGroup>, disks: seq<Disk>)

  // ---------------------------------------------------------------- canonical uuids

  predicate Blank(c: char) {
    c == ' ' || c == '\t' || c == '\n' || c == '\r'
  }

  function StripLeft(s: string): string {
    if s != "" && Blank(s[0]) then StripLeft(s[1..]) else s
  }

  function StripRight(s: string): string {
    if s != "" && Blank(Last(s)) then StripRight(Front(s)) else s
  }

  function Normal(c: char): char {
    if c == '-' then '_'
    else if 'A' <= c <= 'Z' then c - 'A' + 'a'
    else c
  }

  function Canonical(uuid: string): string {
    Map(Normal, StripRight(StripLeft(uuid)))
  }

  lemma {:induction false} StrippedEnds(s: string)
    ensures StripRight(s) == "" || !Blank(Last(StripRight(s)))
    ensures s != "" && !Blank(s[0]) ==> StripRight(s) != "" && StripRight(s)[0] == s[0]
  {
    if s != "" && Blank(Last(s)) {
      StrippedEnds(Front(s));
    }
  }

  lemma {:induction false} StrippedStart(s: string)
    ensures StripLeft(s) == "" || !Blank(StripLeft(s)[0])
  {
    if s != "" {
      StrippedStart(s[1..]);
    }
  }

  lemma {:induction false} NormalIsStable(c: char)
    ensures Normal(Normal(c)) == Normal(c) && (Blank(Normal(c)) <==> Blank(c))
  {
  }

  lemma {:induction false} NormalTwice(s: string)
    requires s == "" || (!Blank(s[0]) && !Blank(Last(s)))
    ensures Canonical(Map(Normal, s)) == Map(Normal, s)
  {
    var t := Map(Normal, s);
    if s != "" {
      NormalIsStable(s[0]);
      NormalIsStable(Last(s));
      assert t[0] == Normal(s[0]) && Last(t) == Normal(Last(s));
    }
    assert StripLeft(t) == t && StripRight(t) == t;
    var u := Map(Normal, t);
    assert |u| == |t|;
    forall i | 0 <= i < |t| ensures u[i] == t[i] {
      assert t[i] == Normal(s[i]);
      NormalIsStable(s[i]);
    }
    assert u == t;
  }

  /** A canonical uuid is its own canonical form, so comparing canonical forms is an equivalence. */
  lemma {:induction false} CanonicalIsStable(uuid: string)
    ensures Canonical(Canonical(uuid)) == Canonical(uuid)
  {
    var left := StripLeft(uuid);
    StrippedStart(uuid);
    StrippedEnds(left);
    NormalTwice(StripRight(left));
  }

  // ---------------------------------------------------------------- who holds what

  function DiskName(disk: Disk): string {
    disk.name
  }

  function DiskFor(disks: seq<Disk>, name: string): Option<Disk> {
    FirstNamed(DiskName, disks, name)
  }

  /** Empty when the device has no disk or the disk no usable uuid. */
  function UuidOf(node: Node, device: string): string {
    var disk := DiskFor(node.disks, device);
    if disk.Some? && disk.value.uuid.Some? then Canonical(disk.value.uuid.value) else ""
  }

  ghost predicate HasDevice(node: Node, name: string) {
    exists vg, d :: vg in node.volumeGroups && !vg.forRemoval && d in vg.devices && !d.forRemoval && d.name == name
  }

  /** The node uses the profile and one of its devices is on a disk of this uuid. */
  ghost predicate Holds(node: Node, uuid: string) {
    node.usesProfile && uuid != "" && exists name :: HasDevice(node, name) && UuidOf(node, name) == uuid
  }

  ghost predicate Shared(nodes: seq<Node>, uuid: string) {
    uuid != KGB && exists i, j :: 0 <= i < j < |nodes| && Holds(nodes[i], uuid) && Holds(nodes[j], uuid)
  }

  // ---------------------------------------------------------------- gathering

  /** A uuid found on a node, with the device that led to it. */
  datatype Entry = Entry(node: nat, path: string, uuid: string)

  predicate Recorded(data: seq<Entry>, node: nat, uuid: string) {
    exists k :: 0 <= k < |data| && data[k].node == node && data[k].uuid == uuid
  }

  ghost predicate EachOnce(data: seq<Entry>) {
    forall i, j :: 0 <= i < j < |data| ==> data[i].node != data[j].node || data[i].uuid != data[j].uuid
  }

  ghost predicate HasName(devices: seq<Device>, name: string) {
    exists k :: 0 <= k < |devices| && devices[k].name == name
  }

  method UniqueOf(vg: VolumeGroup, already: seq<Device>) returns (unique: seq<Device>)
    ensures forall name :: HasName(unique, name) <==>
      HasName(already, name) || exists d :: d in vg.devices && !d.forRemoval && d.name == name
  {
    unique := already;
    var i := 0;
    while i < |vg.devices|
      invariant 0 <= i <= |vg.devices|
      invariant forall name :: HasName(unique, name) <==>
        HasName(already, name) || exists d :: d in vg.devices[..i] && !d.forRemoval && d.name == name
    {
      var d := vg.devices[i];
      assert vg.devices[..i + 1] == vg.devices[..i] + [d];
      if !d.forRemoval && !(exists k :: 0 <= k < |unique| && unique[k].name == d.name) {
        AddedName(unique, d);
        unique := unique + [d];
      }
      i := i + 1;
    }
    assert vg.devices[..i] == vg.devices;
  }

  lemma {:induction false} AddedName(devices: seq<Device>, d: Device)
    ensures forall name :: HasName(devices + [d], name) <==> HasName(devices, name) || name == d.name
  {
    forall name ensures HasName(devices + [d], name) <==> HasName(devices, name) || name == d.name {
      if HasName(devices, name) {
        var k :| 0 <= k < |devices| && devices[k].name == name;
        assert (devices + [d])[k].name == name;
      }
      assert (devices + [d])[|devices|].name == d.name;
    }
  }

  method UniqueDevices(node: Node) returns (unique: seq<Device>)
    ensures forall name :: HasName(unique, name) <==> HasDevice(node, name)
  {
    unique := [];
    var i := 0;
    var vgs := node.volumeGroups;
    while i < |vgs|
      invariant 0 <= i <= |vgs|
      invariant forall name :: HasName(unique, name) <==>
        exists vg, d :: vg in vgs[..i] && !vg.forRemoval && d in vg.devices && !d.forRemoval && d.name == name
    {
      assert vgs[..i + 1] == vgs[..i] + [vgs[i]];
      if !vgs[i].forRemoval {
        unique := UniqueOf(vgs[i], unique);
      }
      i := i + 1;
    }
    assert vgs[..i] == vgs;
  }

  lemma {:induction false} AddedEntry(data: seq<Entry>, e: Entry)
    ensures forall n: nat, u :: Recorded(data + [e], n, u) <==> Recorded(data, n, u) || (n == e.node && u == e.uuid)
    ensures EachOnce(data) && !Recorded(data, e.node, e.uuid) ==> EachOnce(data + [e])
  {
    forall n: nat, u ensures Recorded(data + [e], n, u) <==> Recorded(data, n, u) || (n == e.node && u == e.uuid) {
      if Recorded(data, n, u) {
        var k :| 0 <= k < |data| && data[k].node == n && data[k].uuid == u;
        assert (data + [e])[k] == data[k];
      }
      assert (data + [e])[|data|] == e;
    }
  }

  ghost predicate FoundAmong(node: Node, devices: seq<Device>, uuid: string) {
    uuid != "" && exists k :: 0 <= k < |devices| && UuidOf(node, devices[k].name) == uuid
  }

  /** The data is what was there and the uuids that these devices of node `n` led to. */
  ghost predicate Extends(already: seq<Entry>, data: seq<Entry>, node: Node, n: nat, devices: seq<Device>) {
    forall m: nat, u :: Recorded(data, m, u) <==> Recorded(already, m, u) || (m == n && FoundAmong(node, devices, u))
  }

  lemma {:induction false} ExtendsOneMore(already: seq<Entry>, before: seq<Entry>, after: seq<Entry>, node: Node,
      n: nat, devices: seq<Device>, i: nat)
    requires i < |devices| && Extends(already, before, node, n, devices[..i])
    requires var uuid := UuidOf(node, devices[i].name);
      forall m: nat, u :: Recorded(after, m, u) <==> Recorded(before, m, u) || (m == n && uuid != "" && u == uuid)
    ensures Extends(already, after, node, n, devices[..i + 1])
  {
    FoundOneMore(node, devices, i);
    forall m: nat, u
      ensures Recorded(after, m, u) <==> Recorded(already, m, u) || (m == n && FoundAmong(node, devices[..i + 1], u))
    {
      assert FoundAmong(node, devices[..i + 1], u) <==>
        FoundAmong(node, devices[..i], u) || (u != "" && u == UuidOf(node, devices[i].name));
    }
  }

  method GatherNode(node: Node, n: nat, devices: seq<Device>, already: seq<Entry>) returns (data: seq<Entry>)
    requires EachOnce(already)
    ensures EachOnce(data) && Extends(already, data, node, n, devices)
  {
    data := already;
    var i := 0;
    while i < |devices|
      invariant 0 <= i <= |devices| && EachOnce(data) && Extends(already, data, node, n, devices[..i])
    {
      ghost var before := data;
      data := AddUuid(n, devices[i].path, UuidOf(node, devices[i].name), data);
      ExtendsOneMore(already, before, data, node, n, devices, i);
      i := i + 1;
    }
    assert devices[..i] == devices;
  }

  method AddUuid(n: nat, path: string, uuid: string, already: seq<Entry>) returns (data: seq<Entry>)
    requires EachOnce(already)
    ensures EachOnce(data)
    ensures forall m: nat, u :: Recorded(data, m, u) <==> Recorded(already, m, u) || (m == n && uuid != "" && u == uuid)
  {
    data := already;
    if uuid != "" && !Recorded(data, n, uuid) {
      AddedEntry(data, Entry(n, path, uuid));
      data := data + [Entry(n, path, uuid)];
    }
  }

  lemma {:induction false} FoundOneMore(node: Node, devices: seq<Device>, i: nat)
    requires i < |devices|
    ensures forall u :: FoundAmong(node, devices[..i + 1], u) <==>
      FoundAmong(node, devices[..i], u) || (u != "" && u == UuidOf(node, devices[i].name))
  {
    forall u ensures FoundAmong(node, devices[..i + 1], u) <==>
      FoundAmong(node, devices[..i], u) || (u != "" && u == UuidOf(node, devices[i].name))
    {
      if FoundAmong(node, devices[..i], u) {
        var k :| 0 <= k < i && UuidOf(node, devices[..i][k].name) == u;
        assert devices[..i + 1][k] == devices[..i][k];
      }
      if FoundAmong(node, devices[..i + 1], u) {
        var k :| 0 <= k < i + 1 && UuidOf(node, devices[..i + 1][k].name) == u;
        assert k < i ==> devices[..i][k] == devices[..i + 1][k];
      }
      assert devices[..i + 1][i] == devices[i];
    }
  }

  lemma {:induction false} FoundIsHeld(node: Node, devices: seq<Device>, uuid: string)
    requires node.usesProfile && forall name :: HasName(devices, name) <==> HasDevice(node, name)
    ensures FoundAmong(node, devices, uuid) <==> Holds(node, uuid)
  {
    if FoundAmong(node, devices, uuid) {
      var k :| 0 <= k < |devices| && UuidOf(node, devices[k].name) == uuid;
      assert HasName(devices, devices[k].name);
    }
    if Holds(node, uuid) {
      var name :| HasDevice(node, name) && UuidOf(node, name) == uuid;
      assert HasName(devices, name);
    }
  }

  /** Every node that uses the profile and every uuid it holds, once each. */
  method Gather(nodes: seq<Node>) returns (data: seq<Entry>)
    ensures EachOnce(data)
    ensures forall n: nat, u :: Recorded(data, n, u) <==> n < |nodes| && Holds(nodes[n], u)
  {
    data := [];
    var i := 0;
    while i < |nodes|
      invariant 0 <= i <= |nodes| && EachOnce(data)
      invariant forall n: nat, u :: Recorded(data, n, u) <==> n < i && Holds(nodes[n], u)
    {
      if nodes[i].usesProfile {
        var unique := UniqueDevices(nodes[i]);
        forall u ensures FoundAmong(nodes[i], unique, u) <==> Holds(nodes[i], u) {
          FoundIsHeld(nodes[i], unique, u);
        }
        data := GatherNode(nodes[i], i, unique, data);
      }
      i := i + 1;
    }
  }

  // ---------------------------------------------------------------- reporting

  /** The entries of one uuid, in order. */
  function Copies(data: seq<Entry>, uuid: string): seq<Entry> {
    if data == [] then [] else Copies(Front(data), uuid) + if Last(data).uuid == uuid then [Last(data)] else []
  }

  lemma {:induction false} CopiesMembers(data: seq<Entry>, uuid: string, e: Entry)
    ensures e in Copies(data, uuid) <==> e in data && e.uuid == uuid
  {
    if data != [] {
      CopiesMembers(Front(data), uuid, e);
      assert data == Front(data) + [Last(data)];
    }
  }

  lemma {:induction false} CopiesOnce(data: seq<Entry>, uuid: string)
    requires EachOnce(data)
    ensures EachOnce(Copies(data, uuid))
  {
    if data != [] {
      var copies, last := Copies(Front(data), uuid), Last(data);
      CopiesOnce(Front(data), uuid);
      forall k | 0 <= k < |copies| ensures copies[k].node != last.node || copies[k].uuid != last.uuid {
        CopiesMembers(Front(data), uuid, copies[k]);
        var m :| 0 <= m < |data| - 1 && Front(data)[m] == copies[k];
        assert data[m] == copies[k] && data[|data| - 1] == last;
      }
    }
  }

  /** More than one copy means more than one node. */
  lemma {:induction false} CopiesMeanShared(data: seq<Entry>, uuid: string)
    requires EachOnce(data)
    ensures |Copies(data, uuid)| > 1 <==>
      exists m: nat, n: nat :: m != n && Recorded(data, m, uuid) && Recorded(data, n, uuid)
  {
    var copies := Copies(data, uuid);
    CopiesOnce(data, uuid);
    if |copies| > 1 {
      CopiesMembers(data, uuid, copies[0]);
      CopiesMembers(data, uuid, copies[1]);
      assert copies[0].node != copies[1].node;
      assert Recorded(data, copies[0].node, uuid) && Recorded(data, copies[1].node, uuid);
    }
    if m: nat, n: nat :| m != n && Recorded(data, m, uuid) && Recorded(data, n, uuid) {
      var k :| 0 <= k < |data| && data[k].node == m && data[k].uuid == uuid;
      var l :| 0 <= l < |data| && data[l].node == n && data[l].uuid == uuid;
      CopiesMembers(data, uuid, data[k]);
      CopiesMembers(data, uuid, data[l]);
      var a :| 0 <= a < |copies| && copies[a] == data[k];
      var b :| 0 <= b < |copies| && copies[b] == data[l];
      assert a != b;
    }
  }

  predicate Duplicated(data: seq<Entry>, uuid: string) {
    uuid != KGB && |Copies(data, uuid)| > 1
  }

  method Report(data: seq<Entry>) returns (errors: seq<Entry>)
    requires EachOnce(data)
    ensures forall e :: e in errors <==> e in data && Duplicated(data, e.uuid)
    ensures EachOnce(errors)
  {
    errors := [];
    var seen: seq<string> := [];
    var i := 0;
    while i < |data|
      invariant 0 <= i <= |data|
      invariant forall u :: u in seen <==> u != KGB && exists k :: 0 <= k < i && data[k].uuid == u
      invariant forall e :: e in errors <==> e in data && e.uuid in seen && Duplicated(data, e.uuid)
      invariant EachOnce(errors)
    {
      var uuid := data[i].uuid;
      if uuid !in seen && uuid != KGB {
        seen := seen + [uuid];
        var copies := Copies(data, uuid);
        forall e ensures e in copies <==> e in data && e.uuid == uuid {
          CopiesMembers(data, uuid, e);
        }
        CopiesOnce(data, uuid);
        if |copies| > 1 {
          OtherUuids(errors, copies, uuid);
          errors := errors + copies;
        }
      }
      i := i + 1;
    }
    forall e | e in data && Duplicated(data, e.uuid) ensures e.uuid in seen {
      var k :| 0 <= k < |data| && data[k] == e;
    }
  }

  lemma {:induction false} OtherUuids(errors: seq<Entry>, copies: seq<Entry>, uuid: string)
    requires EachOnce(errors) && EachOnce(copies)
    requires (forall e :: e in errors ==> e.uuid != uuid) && (forall e :: e in copies ==> e.uuid == uuid)
    ensures EachOnce(errors + copies)
  {
    var all := errors + copies;
    forall i, j | 0 <= i < j < |all| ensures all[i].node != all[j].node || all[i].uuid != all[j].uuid {
      if i < |errors| <= j {
        assert all[i] in errors && all[j] in copies;
      }
    }
  }

  /** The whole validator. It reports nothing exactly when no uuid is shared by two nodes; otherwise it reports
      exactly one error for each node that holds a shared uuid. */
  method ValidateLvmUuids(isLvm: bool, nodes: seq<Node>) returns (errors: seq<Entry>)
    ensures !isLvm ==> errors == []
    ensures isLvm ==> (errors == [] <==> forall u :: !Shared(nodes, u))
    ensures isLvm ==> forall n: nat, u :: Recorded(errors, n, u) <==>
      n < |nodes| && Holds(nodes[n], u) && Shared(nodes, u)
    ensures EachOnce(errors)
  {
    errors := [];
    if isLvm {
      var data := Gather(nodes);
      errors := Report(data);
      ReportedAreShared(nodes, data, errors);
    }
  }

  lemma {:induction false} DuplicatedIsShared(nodes: seq<Node>, data: seq<Entry>, uuid: string)
    requires EachOnce(data) && forall n: nat, u :: Recorded(data, n, u) <==> n < |nodes| && Holds(nodes[n], u)
    ensures Duplicated(data, uuid) <==> Shared(nodes, uuid)
  {
    CopiesMeanShared(data, uuid);
    if Duplicated(data, uuid) {
      var m: nat, n: nat :| m != n && Recorded(data, m, uuid) && Recorded(data, n, uuid);
      assert Holds(nodes[m], uuid) && Holds(nodes[n], uuid);
    }
    if Shared(nodes, uuid) {
      var i, j :| 0 <= i < j < |nodes| && Holds(nodes[i], uuid) && Holds(nodes[j], uuid);
      assert Recorded(data, i, uuid) && Recorded(data, j, uuid);
    }
  }

  lemma {:induction false} ReportedAreShared(nodes: seq<Node>, data: seq<Entry>, errors: seq<Entry>)
    requires EachOnce(data) && forall n: nat, u :: Recorded(data, n, u) <==> n < |nodes| && Holds(nodes[n], u)
    requires forall e :: e in errors <==> e in data && Duplicated(data, e.uuid)
    ensures forall n: nat, u :: Recorded(errors, n, u) <==> n < |nodes| && Holds(nodes[n], u) && Shared(nodes, u)
    ensures errors == [] <==> forall u :: !Shared(nodes, u)
  {
    forall n: nat, u ensures Recorded(errors, n, u) <==> n < |nodes| && Holds(nodes[n], u) && Shared(nodes, u) {
      DuplicatedIsShared(nodes, data, u);
      if Recorded(errors, n, u) {
        var k :| 0 <= k < |errors| && errors[k].node == n && errors[k].uuid == u;
        assert errors[k] in data;
        assert Recorded(data, n, u);
      }
      if n < |nodes| && Holds(nodes[n], u) && Shared(nodes, u) {
        assert Recorded(data, n, u);
        var k :| 0 <= k < |data| && data[k].node == n && data[k].uuid == u;
        assert data[k] in errors;
      }
    }
    if errors != [] {
      assert Recorded(errors, errors[0].node, errors[0].uuid);
    }
    if u :| Shared(nodes, u) {
      var i, j :| 0 <= i < j < |nodes| && Holds(nodes[i], u) && Holds(nodes[j], u);
      assert Recorded(errors, i, u);
    }
  }
}
