/** Which LVM snapshots a plan creates, removes, expects and restores on one node. */
module LvmTargets {
  import opened Seqs
  import opened SnapshotNames

  const MS_ROOT_VG := "vg_root"

  datatype FsType = Ext4 | Xfs | Swap | OtherFs

  datatype FileSystem = FileSystem(
    id: string, fsType: FsType, mountPoint: Option<string>, snapSize: real, external: bool,
    initial: bool, forRemoval: bool)

  /** What the system knows a physical device's name as; every plain disk is also a base disk. */
  datatype Device = PlainDisk | RemoteDisk | UnknownDisk

  /** `devices` is what the node's system knows the group's devices as, `ownDevices` what the system of the group's own
      node, management server or cluster does, if there is one. */
  datatype VolumeGroup = VolumeGroup(
    id: string, name: string, devices: seq<Device>, ownDevices: Option<seq<Device>>, fileSystems: seq<FileSystem>,
    initial: bool, forRemoval: bool)

  /** A file system made by the management server's installation; the snap sizes say whether it is snapped. */
  datatype KickstartFs = KickstartFs(
    fsType: FsType, deploymentSnap: bool, namedSnap: bool, name: string, mountPoint: string)

  /** `installed` is the table of file systems that the management server's installation makes. */
  datatype Node = Node(
    host: string, isMs: bool, forRemoval: bool, hasSystem: bool, volumeGroups: seq<VolumeGroup>,
    installed: seq<KickstartFs>)

  datatype Pair = Pair(vg: VolumeGroup, fs: FileSystem)

  datatype Target = Target(vg: string, snapshot: string)

  // ---------------------------------------------------------------- names and guards

  predicate NonSwapType(fsType: FsType) {
    fsType == Ext4 || fsType == Xfs
  }

  predicate SnapAllowed(fs: FileSystem) {
    NonSwapType(fs.fsType) && fs.snapSize > 0.0 && !fs.external
  }

  /** The name under which the installation made this file system's volume, if it did. */
  function InstalledAs(mountPoint: Option<string>, installed: seq<KickstartFs>): Option<string> {
    if installed == [] then None
    else if mountPoint == Some(installed[0].mountPoint) then Some(installed[0].name)
    else InstalledAs(mountPoint, installed[1..])
  }

  function DeviceName(node: Node, vg: VolumeGroup, fs: FileSystem): string {
    var installed := if node.isMs && vg.name == MS_ROOT_VG then InstalledAs(fs.mountPoint, node.installed) else None;
    if NonSwapType(fs.fsType) && installed.Some? then "lv_" + installed.value else vg.id + "_" + fs.id
  }

  function TargetOf(node: Node, p: Pair, snapshot: string): Target {
    Target(p.vg.name, GenSnapshotName(DeviceName(node, p.vg, p.fs), snapshot))
  }

  /** The group's devices as known to the node's system or else to the group's own. */
  function KnownDevices(node: Node, vg: VolumeGroup): Option<seq<Device>> {
    if node.hasSystem then Some(vg.devices) else vg.ownDevices
  }

  /** Deployment snapshots are taken on local storage only, as far as a system knows; named ones wherever the file
      system allows. */
  predicate LocalStorage(node: Node, vg: VolumeGroup, snapshot: string) {
    snapshot == UPGRADE_SNAPSHOT_NAME && KnownDevices(node, vg).Some? ==> RemoteDisk !in KnownDevices(node, vg).value
  }

  method SnapOperationAllowed(node: Node, vg: VolumeGroup, snapshot: string) returns (allowed: bool)
    ensures allowed == LocalStorage(node, vg, snapshot)
  {
    allowed := true;
    if snapshot == UPGRADE_SNAPSHOT_NAME {
      var known := if node.hasSystem then Some(vg.devices) else vg.ownDevices;
      if known.Some? {
        var devices, baseDisks, disks := known.value, 0, 0;
        var i := 0;
        while i < |devices|
          invariant 0 <= i <= |devices| && disks <= baseDisks
          invariant disks == baseDisks <==> RemoteDisk !in devices[..i]
        {
          if devices[i] != UnknownDisk {
            baseDisks := baseDisks + 1;
          }
          if devices[i] == PlainDisk {
            disks := disks + 1;
          }
          i := i + 1;
        }
        assert devices[..i] == devices;
        allowed := baseDisks == disks;
      }
    }
  }

  // ---------------------------------------------------------------- what can be snapped

  function SnappableFss(vg: VolumeGroup, fss: seq<FileSystem>): seq<Pair> {
    if fss == [] then []
    else SnappableFss(vg, Front(fss)) + if SnapAllowed(Last(fss)) then [Pair(vg, Last(fss))] else []
  }

  function SnappableVgs(vgs: seq<VolumeGroup>): seq<Pair> {
    if vgs == [] then [] else SnappableVgs(Front(vgs)) + SnappableFss(Last(vgs), Last(vgs).fileSystems)
  }

  function LocalVgs(node: Node, vgs: seq<VolumeGroup>, snapshot: string): seq<VolumeGroup> {
    if vgs == [] then []
    else LocalVgs(node, Front(vgs), snapshot) + if LocalStorage(node, Last(vgs), snapshot) then [Last(vgs)] else []
  }

  /** Every volume group and file system of the node that a snapshot of this name takes in, in model order. */
  function Snappable(node: Node, snapshot: string): seq<Pair> {
    SnappableVgs(LocalVgs(node, node.volumeGroups, snapshot))
  }

  predicate SnapsPossible(node: Node, snapshot: string) {
    Snappable(node, snapshot) != []
  }

  ghost predicate UniqueHosts(nodes: seq<Node>) {
    forall i, j :: 0 <= i < j < |nodes| ==> nodes[i].host != nodes[j].host
  }

  predicate IsActive(p: Pair) {
    !p.vg.initial && !p.fs.initial
  }

  predicate InActiveVg(p: Pair) {
    !p.vg.initial
  }

  predicate ActiveVg(vg: VolumeGroup) {
    !vg.initial
  }

  function SnapshotOf(t: Target): string {
    t.snapshot
  }

  function Naming(node: Node, snapshot: string): Pair -> Target {
    (p: Pair) => TargetOf(node, p, snapshot)
  }

  function CreateTargets(node: Node, snapshot: string): seq<Target> {
    Map(Naming(node, snapshot), Filter(IsActive, Snappable(node, snapshot)))
  }

  function RemoveTargets(node: Node, snapshot: string): seq<Target> {
    Map(Naming(node, snapshot), Snappable(node, snapshot))
  }

  function ExpectedNames(node: Node, snapshot: string): seq<string> {
    Map(SnapshotOf, Map(Naming(node, snapshot), Filter(InActiveVg, Snappable(node, snapshot))))
  }

  /** A restore names deployment snapshots whatever the name it is asked to restore. */
  function RestoreTargets(node: Node, snapshot: string): seq<Target> {
    Map(Naming(node, UPGRADE_SNAPSHOT_NAME), Snappable(node, snapshot))
  }

  // ---------------------------------------------------------------- the generators

  method LocalStorageBackedVgs(node: Node, snapshot: string) returns (vgs: seq<VolumeGroup>)
    ensures vgs == LocalVgs(node, node.volumeGroups, snapshot)
  {
    vgs := [];
    var i := 0;
    while i < |node.volumeGroups|
      invariant 0 <= i <= |node.volumeGroups|
      invariant vgs == LocalVgs(node, node.volumeGroups[..i], snapshot)
    {
      var vg := node.volumeGroups[i];
      TakeOneMore(node.volumeGroups, i);
      var allowed := SnapOperationAllowed(node, vg, snapshot);
      if allowed {
        vgs := vgs + [vg];
      }
      i := i + 1;
    }
    assert node.volumeGroups[..i] == node.volumeGroups;
  }

  lemma {:induction false} OneMoreFs(vg: VolumeGroup, fss: seq<FileSystem>, k: nat)
    requires k < |fss|
    ensures SnappableFss(vg, fss[..k + 1])
      == SnappableFss(vg, fss[..k]) + if SnapAllowed(fss[k]) then [Pair(vg, fss[k])] else []
  {
    TakeOneMore(fss, k);
  }

  lemma {:induction false} InitialVgHasNoneActive(vg: VolumeGroup, fss: seq<FileSystem>)
    ensures vg.initial ==> Filter(IsActive, SnappableFss(vg, fss)) == [] == Filter(InActiveVg, SnappableFss(vg, fss))
    ensures !vg.initial ==> Filter(InActiveVg, SnappableFss(vg, fss)) == SnappableFss(vg, fss)
  {
    if fss != [] {
      var front := SnappableFss(vg, Front(fss));
      InitialVgHasNoneActive(vg, Front(fss));
      if SnapAllowed(Last(fss)) {
        FilterOne(IsActive, front, Pair(vg, Last(fss)));
        FilterOne(InActiveVg, front, Pair(vg, Last(fss)));
      } else {
        assert SnappableFss(vg, fss) == front;
      }
    }
  }

  lemma {:induction false} SnappableOne(vgs: seq<VolumeGroup>, vg: VolumeGroup)
    ensures SnappableVgs(vgs + [vg]) == SnappableVgs(vgs) + SnappableFss(vg, vg.fileSystems)
  {
    assert Front(vgs + [vg]) == vgs;
  }

  /** Dropping Initial volume groups first or last makes no difference. */
  lemma {:induction false} ActiveVgsFirst(vgs: seq<VolumeGroup>)
    ensures Filter(IsActive, SnappableVgs(Filter(ActiveVg, vgs))) == Filter(IsActive, SnappableVgs(vgs))
    ensures SnappableVgs(Filter(ActiveVg, vgs)) == Filter(InActiveVg, SnappableVgs(vgs))
  {
    if vgs != [] {
      var vg := Last(vgs);
      var front, mine := SnappableVgs(Front(vgs)), SnappableFss(vg, vg.fileSystems);
      var active := Filter(ActiveVg, Front(vgs));
      ActiveVgsFirst(Front(vgs));
      assert Filter(ActiveVg, vgs) == if vg.initial then active else active + [vg];
      InitialVgHasNoneActive(vg, vg.fileSystems);
      FilterAppend(IsActive, front, mine);
      FilterAppend(InActiveVg, front, mine);
      if !vg.initial {
        FilterAppend(IsActive, SnappableVgs(active), mine);
        SnappableOne(active, vg);
      }
    }
  }

  /** The active groups of the local ones, by their own loop. */
  method ActiveOnly(vgs: seq<VolumeGroup>) returns (active: seq<VolumeGroup>)
    ensures active == Filter(ActiveVg, vgs)
  {
    active := [];
    var i := 0;
    while i < |vgs|
      invariant 0 <= i <= |vgs| && active == Filter(ActiveVg, vgs[..i])
    {
      TakeOneMore(vgs, i);
      if !vgs[i].initial {
        active := active + [vgs[i]];
      }
      i := i + 1;
    }
    assert vgs[..i] == vgs;
  }

  /** The targets of some file systems of a group, in order; Initial ones only when `initialToo`. */
  function VgTargets(name: Pair -> Target, vg: VolumeGroup, fss: seq<FileSystem>, initialToo: bool): seq<Target> {
    Map(name, if initialToo then SnappableFss(vg, fss) else Filter(IsActive, SnappableFss(vg, fss)))
  }

  lemma {:induction false} VgTargetsOneMore(name: Pair -> Target, vg: VolumeGroup, fss: seq<FileSystem>,
      initialToo: bool, k: nat)
    requires k < |fss| && (initialToo || !vg.initial)
    ensures VgTargets(name, vg, fss[..k + 1], initialToo) == VgTargets(name, vg, fss[..k], initialToo)
      + if SnapAllowed(fss[k]) && (initialToo || !fss[k].initial) then [name(Pair(vg, fss[k]))] else []
  {
    var pairs, p := SnappableFss(vg, fss[..k]), Pair(vg, fss[k]);
    OneMoreFs(vg, fss, k);
    FilterOne(IsActive, pairs, p);
    MapOne(name, pairs, p);
    MapOne(name, Filter(IsActive, pairs), p);
    if !SnapAllowed(fss[k]) {
      assert SnappableFss(vg, fss[..k + 1]) == pairs;
    }
  }

  /** The inner loop of the generators. */
  method AddTargets(name: Pair -> Target, vg: VolumeGroup, initialToo: bool, already: seq<Target>)
      returns (targets: seq<Target>)
    requires initialToo || !vg.initial
    ensures targets == already + VgTargets(name, vg, vg.fileSystems, initialToo)
  {
    targets := already;
    var fss := vg.fileSystems;
    var k := 0;
    while k < |fss|
      invariant 0 <= k <= |fss|
      invariant targets == already + VgTargets(name, vg, fss[..k], initialToo)
    {
      VgTargetsOneMore(name, vg, fss, initialToo, k);
      if SnapAllowed(fss[k]) && (initialToo || !fss[k].initial) {
        var t := name(Pair(vg, fss[k]));
        Regroup(already, VgTargets(name, vg, fss[..k], initialToo), [t]);
        targets := targets + [t];
      }
      k := k + 1;
    }
    assert fss[..k] == fss;
  }

  method CreateSnapshotTasks(node: Node, snapshot: string) returns (targets: seq<Target>)
    ensures targets == CreateTargets(node, snapshot)
  {
    var local := LocalStorageBackedVgs(node, snapshot);
    var vgs := ActiveOnly(local);
    var name := Naming(node, snapshot);
    ActiveVgsFirst(local);
    forall vg | vg in vgs ensures !vg.initial {
      FilterMembers(ActiveVg, local, vg);
    }
    targets := [];
    var j := 0;
    while j < |vgs|
      invariant 0 <= j <= |vgs|
      invariant targets == Map(name, Filter(IsActive, SnappableVgs(vgs[..j])))
    {
      ghost var before, mine := SnappableVgs(vgs[..j]), SnappableFss(vgs[j], vgs[j].fileSystems);
      TakeOneMore(vgs, j);
      FilterAppend(IsActive, before, mine);
      MapAppend(name, Filter(IsActive, before), Filter(IsActive, mine));
      targets := AddTargets(name, vgs[j], false, targets);
      j := j + 1;
    }
    assert vgs[..j] == vgs;
  }

  method AllTargets(name: Pair -> Target, vgs: seq<VolumeGroup>) returns (targets: seq<Target>)
    ensures targets == Map(name, SnappableVgs(vgs))
  {
    targets := [];
    var j := 0;
    while j < |vgs|
      invariant 0 <= j <= |vgs|
      invariant targets == Map(name, SnappableVgs(vgs[..j]))
    {
      TakeOneMore(vgs, j);
      MapAppend(name, SnappableVgs(vgs[..j]), SnappableFss(vgs[j], vgs[j].fileSystems));
      targets := AddTargets(name, vgs[j], true, targets);
      j := j + 1;
    }
    assert vgs[..j] == vgs;
  }

  method RemoveSnapshotTasks(node: Node, snapshot: string) returns (targets: seq<Target>)
    ensures targets == RemoveTargets(node, snapshot)
  {
    var vgs := LocalStorageBackedVgs(node, snapshot);
    targets := AllTargets(Naming(node, snapshot), vgs);
  }

  method RestoreLvs(node: Node, snapshot: string) returns (targets: seq<Target>)
    ensures targets == RestoreTargets(node, snapshot)
  {
    var vgs := LocalStorageBackedVgs(node, snapshot);
    targets := AllTargets(Naming(node, UPGRADE_SNAPSHOT_NAME), vgs);
  }

  /** The names of one group, appended to what is there. */
  method AddNames(name: Pair -> Target, vg: VolumeGroup, already: seq<string>) returns (names: seq<string>)
    ensures names == already + Map(SnapshotOf, VgTargets(name, vg, vg.fileSystems, true))
  {
    names := already;
    var fss := vg.fileSystems;
    var k := 0;
    while k < |fss|
      invariant 0 <= k <= |fss|
      invariant names == already + Map(SnapshotOf, VgTargets(name, vg, fss[..k], true))
    {
      VgTargetsOneMore(name, vg, fss, true, k);
      if SnapAllowed(fss[k]) {
        var t := name(Pair(vg, fss[k]));
        ghost var before := VgTargets(name, vg, fss[..k], true);
        MapOne(SnapshotOf, before, t);
        Regroup(already, Map(SnapshotOf, before), [t.snapshot]);
        names := names + [t.snapshot];
      }
      k := k + 1;
    }
    assert fss[..k] == fss;
  }

  method GetExpectedNodeSnapshots(node: Node, snapshot: string) returns (names: seq<string>)
    ensures names == ExpectedNames(node, snapshot)
  {
    var vgs := LocalStorageBackedVgs(node, snapshot);
    var name := Naming(node, snapshot);
    names := [];
    var j := 0;
    while j < |vgs|
      invariant 0 <= j <= |vgs|
      invariant names == Map(SnapshotOf, Map(name, Filter(InActiveVg, SnappableVgs(vgs[..j]))))
    {
      ghost var before, mine := SnappableVgs(vgs[..j]), SnappableFss(vgs[j], vgs[j].fileSystems);
      TakeOneMore(vgs, j);
      InitialVgHasNoneActive(vgs[j], vgs[j].fileSystems);
      FilterAppend(InActiveVg, before, mine);
      if !vgs[j].initial {
        MapAppend(name, Filter(InActiveVg, before), mine);
        MapAppend(SnapshotOf, Map(name, Filter(InActiveVg, before)), Map(name, mine));
        names := AddNames(name, vgs[j], names);
      }
      j := j + 1;
    }
    assert vgs[..j] == vgs;
  }

  // ---------------------------------------------------------------- who is in

  lemma {:induction false} LocalVgsMembers(node: Node, vgs: seq<VolumeGroup>, snapshot: string, vg: VolumeGroup)
    ensures vg in LocalVgs(node, vgs, snapshot) <==> vg in vgs && LocalStorage(node, vg, snapshot)
  {
    if vgs != [] {
      LocalVgsMembers(node, Front(vgs), snapshot, vg);
      assert vgs == Front(vgs) + [Last(vgs)];
    }
  }

  lemma {:induction false} SnappableFssMembers(vg: VolumeGroup, fss: seq<FileSystem>, p: Pair)
    ensures p in SnappableFss(vg, fss) <==> p.vg == vg && p.fs in fss && SnapAllowed(p.fs)
  {
    if fss != [] {
      SnappableFssMembers(vg, Front(fss), p);
      assert fss == Front(fss) + [Last(fss)];
    }
  }

  lemma {:induction false} SnappableVgsMembers(vgs: seq<VolumeGroup>, p: Pair)
    ensures p in SnappableVgs(vgs) <==> p.vg in vgs && p.fs in p.vg.fileSystems && SnapAllowed(p.fs)
  {
    if vgs != [] {
      SnappableVgsMembers(Front(vgs), p);
      SnappableFssMembers(Last(vgs), Last(vgs).fileSystems, p);
      assert vgs == Front(vgs) + [Last(vgs)];
    }
  }

  /** Exactly the allowed file systems of the groups on suitable storage can be snapped. */
  lemma {:induction false} SnappableMembers(node: Node, snapshot: string, p: Pair)
    ensures p in Snappable(node, snapshot) <==>
      && p.vg in node.volumeGroups && LocalStorage(node, p.vg, snapshot)
      && p.fs in p.vg.fileSystems && SnapAllowed(p.fs)
  {
    SnappableVgsMembers(LocalVgs(node, node.volumeGroups, snapshot), p);
    LocalVgsMembers(node, node.volumeGroups, snapshot, p.vg);
  }

  // ---------------------------------------------------------------- the four sets agree

  ghost predicate NothingInitial(pairs: seq<Pair>) {
    forall i :: 0 <= i < |pairs| ==> IsActive(pairs[i])
  }

  lemma {:induction false} ActiveSize(pairs: seq<Pair>)
    ensures |Filter(IsActive, pairs)| == |pairs| <==> NothingInitial(pairs)
    ensures NothingInitial(pairs) ==> Filter(IsActive, pairs) == pairs == Filter(InActiveVg, pairs)
  {
    if NothingInitial(pairs) {
      FilterKeepsAll(IsActive, pairs);
      FilterKeepsAll(InActiveVg, pairs);
    } else {
      var i :| 0 <= i < |pairs| && !IsActive(pairs[i]);
      FilterShrinks(IsActive, pairs, i);
    }
  }

  /** For a deployment snapshot, creation, removal, restore and the checks name the same snapshots exactly
      when nothing that can be snapped is Initial. */
  lemma {:induction false} TargetSetsAgree(node: Node)
    ensures RestoreTargets(node, UPGRADE_SNAPSHOT_NAME) == RemoveTargets(node, UPGRADE_SNAPSHOT_NAME)
    ensures (&& CreateTargets(node, UPGRADE_SNAPSHOT_NAME) == RemoveTargets(node, UPGRADE_SNAPSHOT_NAME)
             && ExpectedNames(node, UPGRADE_SNAPSHOT_NAME)
               == Map(SnapshotOf, RemoveTargets(node, UPGRADE_SNAPSHOT_NAME)))
      <==> NothingInitial(Snappable(node, UPGRADE_SNAPSHOT_NAME))
  {
    var pairs := Snappable(node, UPGRADE_SNAPSHOT_NAME);
    ActiveSize(pairs);
  }

  /** Whatever is Initial, what a plan created can be removed, is expected, and can be restored. */
  lemma {:induction false} CreatedIsCovered(node: Node, snapshot: string, t: Target)
    requires t in CreateTargets(node, snapshot)
    ensures t in RemoveTargets(node, snapshot) && t.snapshot in ExpectedNames(node, snapshot)
    ensures snapshot == UPGRADE_SNAPSHOT_NAME ==> t in RestoreTargets(node, snapshot)
  {
    var pairs := Snappable(node, snapshot);
    var i :| 0 <= i < |Filter(IsActive, pairs)| && CreateTargets(node, snapshot)[i] == t;
    var p := Filter(IsActive, pairs)[i];
    FilterMembers(IsActive, pairs, p);
    FilterMembers(InActiveVg, pairs, p);
    TargetPresent(Naming(node, snapshot), pairs, p);
    TargetPresent(Naming(node, snapshot), Filter(InActiveVg, pairs), p);
  }

  lemma {:induction false} TargetPresent(name: Pair -> Target, pairs: seq<Pair>, p: Pair)
    requires p in pairs
    ensures name(p) in Map(name, pairs)
    ensures name(p).snapshot in Map(SnapshotOf, Map(name, pairs))
  {
    var i :| 0 <= i < |pairs| && pairs[i] == p;
    assert Map(name, pairs)[i] == name(p);
    assert Map(SnapshotOf, Map(name, pairs))[i] == name(p).snapshot;
  }

  // ---------------------------------------------------------------- each named once

  function FsIdOf(fs: FileSystem): string {
    fs.id
  }

  ghost predicate UniqueFsIds(vg: VolumeGroup) {
    DistinctBy(FsIdOf, vg.fileSystems)
  }

  ghost predicate UniqueVgNames(vgs: seq<VolumeGroup>) {
    forall i, j :: 0 <= i < j < |vgs| ==> vgs[i].name != vgs[j].name
  }

  ghost predicate UniqueIds(node: Node) {
    UniqueVgNames(node.volumeGroups) && forall vg :: vg in node.volumeGroups ==> UniqueFsIds(vg)
  }

  lemma {:induction false} LocalVgsDistinct(node: Node, vgs: seq<VolumeGroup>, snapshot: string)
    requires UniqueVgNames(vgs)
    ensures UniqueVgNames(LocalVgs(node, vgs, snapshot))
  {
    if vgs != [] {
      var local := LocalVgs(node, Front(vgs), snapshot);
      LocalVgsDistinct(node, Front(vgs), snapshot);
      forall i | 0 <= i < |local| ensures local[i].name != Last(vgs).name {
        LocalVgsMembers(node, Front(vgs), snapshot, local[i]);
      }
    }
  }

  lemma {:induction false} PeerNamesDiffer(node: Node, snapshot: string, p: Pair, q: Pair)
    requires !node.isMs && p.vg == q.vg && p.fs.id != q.fs.id
    ensures Naming(node, snapshot)(p) != Naming(node, snapshot)(q)
  {
    DifferentFsNames(p.vg.id, p.fs.id, q.fs.id);
    SnapshotNamesInjective(DeviceName(node, p.vg, p.fs), DeviceName(node, q.vg, q.fs), snapshot, "");
  }

  lemma {:induction false} FssDistinct(node: Node, snapshot: string, vg: VolumeGroup, fss: seq<FileSystem>)
    requires !node.isMs && DistinctBy(FsIdOf, fss)
    ensures Distinct(Map(Naming(node, snapshot), SnappableFss(vg, fss)))
  {
    if fss != [] {
      FssDistinct(node, snapshot, vg, Front(fss));
      var name := Naming(node, snapshot);
      var pairs, last := SnappableFss(vg, Front(fss)), Pair(vg, Last(fss));
      if SnapAllowed(Last(fss)) {
        MapOne(name, pairs, last);
        forall i | 0 <= i < |pairs| ensures name(pairs[i]) != name(last) {
          SnappableFssMembers(vg, Front(fss), pairs[i]);
          PeerNamesDiffer(node, snapshot, pairs[i], last);
        }
      }
    }
  }

  lemma {:induction false} DifferentFsNames(vg: string, a: string, b: string)
    requires a != b
    ensures vg + "_" + a != vg + "_" + b
  {
    assert (vg + "_" + a)[|vg| + 1..] == a && (vg + "_" + b)[|vg| + 1..] == b;
  }

  lemma {:induction false} VgsDistinct(node: Node, snapshot: string, vgs: seq<VolumeGroup>)
    requires !node.isMs && UniqueVgNames(vgs) && forall vg :: vg in vgs ==> UniqueFsIds(vg)
    ensures Distinct(Map(Naming(node, snapshot), SnappableVgs(vgs)))
  {
    if vgs != [] {
      var name, vg := Naming(node, snapshot), Last(vgs);
      var a, b := SnappableVgs(Front(vgs)), SnappableFss(vg, vg.fileSystems);
      assert vg == vgs[|vgs| - 1] && UniqueFsIds(vg);
      VgsDistinct(node, snapshot, Front(vgs));
      FssDistinct(node, snapshot, vg, vg.fileSystems);
      forall i | 0 <= i < |a| ensures name(a[i]).vg != vg.name {
        SnappableVgsMembers(Front(vgs), a[i]);
        var k :| 0 <= k < |vgs| - 1 && Front(vgs)[k] == a[i].vg;
        assert vgs[k].name != vgs[|vgs| - 1].name;
      }
      forall i | 0 <= i < |b| ensures name(b[i]).vg == vg.name {
        SnappableFssMembers(vg, vg.fileSystems, b[i]);
      }
      MapAppend(name, a, b);
      DistinctJoin(Map(name, a), Map(name, b), vg.name);
    }
  }

  lemma {:induction false} DistinctJoin(a: seq<Target>, b: seq<Target>, vg: string)
    requires Distinct(a) && Distinct(b)
    requires forall i :: 0 <= i < |a| ==> a[i].vg != vg
    requires forall i :: 0 <= i < |b| ==> b[i].vg == vg
    ensures Distinct(a + b)
  {
  }

  /** No snapshot of a peer node is named twice in a plan. */
  lemma {:induction false} EachTargetOnce(node: Node, snapshot: string)
    requires !node.isMs && UniqueIds(node)
    ensures Distinct(RemoveTargets(node, snapshot))
  {
    var local := LocalVgs(node, node.volumeGroups, snapshot);
    LocalVgsDistinct(node, node.volumeGroups, snapshot);
    forall vg | vg in local ensures vg in node.volumeGroups {
      LocalVgsMembers(node, node.volumeGroups, snapshot, vg);
    }
    VgsDistinct(node, snapshot, local);
  }
}
