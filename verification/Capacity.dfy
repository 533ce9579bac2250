/** Whether volumes and their snapshots fit on the disks. Sizes are whole megabytes; the ceilings and floors that
    the validators compute in floating point are taken of the exact quotients. */
module Capacity {
  import opened Seqs

  datatype FsType = Ext4 | Xfs | Swap | Vxfs

  datatype FileSystem = FileSystem(fsType: FsType, size: nat, snapSize: nat, forRemoval: bool)

  datatype Disk = Disk(name: string, size: nat, bootable: bool, appliedSize: Option<nat>)

  datatype Device = Device(disk: string, forRemoval: bool)

  datatype VolumeGroup = VolumeGroup(
    fileSystems: seq<FileSystem>, devices: seq<Device>, forRemoval: bool, isMsRoot: bool)

  /** A file system of the management server's installation. */
  datatype Installed = Installed(fsType: FsType, size: nat, mountPoint: string)

  /** `counted` are the installed file systems that no modelled one stands for. */
  datatype Node = Node(disks: seq<Disk>, volumeGroups: seq<VolumeGroup>, counted: seq<Installed>)

  const VG_OVERHEAD := 100
  const SLASH_BOOT_SIZE := 500

  // ---------------------------------------------------------------- sizes

  function CeilDiv(a: nat, b: nat): (q: nat)
    requires b > 0
    ensures b * q - b < a <= b * q
  {
    (a + b - 1) / b
  }

  predicate Snapped(t: FsType) {
    t == Ext4 || t == Xfs
  }

  function EffectiveSize(t: FsType, size: nat, snapSize: nat): nat {
    if Snapped(t) then CeilDiv(size * (100 + snapSize), 100) else size
  }

  /** The size of a file system and its snapshot in hundredths of a megabyte, without rounding. */
  function ExactHundredths(t: FsType, size: nat, snapSize: nat): nat {
    if Snapped(t) then size * (100 + snapSize) else size * 100
  }

  /** The validator never counts too little, and overestimates each file system by less than a megabyte. */
  lemma {:induction false} EffectiveIsTight(t: FsType, size: nat, snapSize: nat)
    ensures ExactHundredths(t, size, snapSize) <= 100 * EffectiveSize(t, size, snapSize)
    ensures 100 * EffectiveSize(t, size, snapSize) < ExactHundredths(t, size, snapSize) + 100
  {
    var x := size * (100 + snapSize);
    assert CeilDiv(x, 100) * 100 == 100 * CeilDiv(x, 100);
  }

  // ---------------------------------------------------------------- disks of devices

  function DiskName(disk: Disk): string {
    disk.name
  }

  function DiskFor(disks: seq<Disk>, name: string): Option<Disk> {
    FirstNamed(DiskName, disks, name)
  }

  method GetNodeDiskForPd(disks: seq<Disk>, device: Device) returns (disk: Option<Disk>)
    ensures disk == DiskFor(disks, device.disk)
  {
    var i := 0;
    while i < |disks|
      invariant 0 <= i <= |disks| && DiskFor(disks, device.disk) == DiskFor(disks[i..], device.disk)
    {
      if disks[i].name != "" && disks[i].name == device.disk {
        return Some(disks[i]);
      }
      assert disks[i..][1..] == disks[i + 1..];
      i := i + 1;
    }
    return None;
  }

  function DisksOf(disks: seq<Disk>, devices: seq<Device>): seq<Disk> {
    if devices == [] then []
    else
      var found := DiskFor(disks, Last(devices).disk);
      DisksOf(disks, Front(devices)) + if found.Some? then [found.value] else []
  }

  method GetNodeDisksForVg(disks: seq<Disk>, devices: seq<Device>) returns (found: seq<Disk>)
    ensures found == DisksOf(disks, devices)
  {
    found := [];
    var i := 0;
    while i < |devices|
      invariant 0 <= i <= |devices| && found == DisksOf(disks, devices[..i])
    {
      TakeOneMore(devices, i);
      var disk := GetNodeDiskForPd(disks, devices[i]);
      if disk.Some? {
        found := found + [disk.value];
      }
      i := i + 1;
    }
    assert devices[..i] == devices;
  }

  function References(devices: seq<Device>, name: string): nat {
    if devices == [] then 0
    else References(Front(devices), name) + if Last(devices).disk == name then 1 else 0
  }

  function AllDevices(vgs: seq<VolumeGroup>): seq<Device> {
    if vgs == [] then [] else AllDevices(Front(vgs)) + Last(vgs).devices
  }

  ghost predicate EachDiskOnce(node: Node) {
    forall i :: 0 <= i < |node.disks| ==> References(AllDevices(node.volumeGroups), node.disks[i].name) <= 1
  }

  method ValidatePdDisks(node: Node) returns (errors: seq<Disk>)
    ensures errors == [] <==> EachDiskOnce(node)
    ensures forall d :: d in errors <==> d in node.disks && References(AllDevices(node.volumeGroups), d.name) > 1
  {
    var devices := AllDevices(node.volumeGroups);
    errors := [];
    var i := 0;
    while i < |node.disks|
      invariant 0 <= i <= |node.disks|
      invariant forall d :: d in errors <==> d in node.disks[..i] && References(devices, d.name) > 1
    {
      var refs, k := 0, 0;
      while k < |devices|
        invariant 0 <= k <= |devices| && refs == References(devices[..k], node.disks[i].name)
      {
        TakeOneMore(devices, k);
        if devices[k].disk == node.disks[i].name {
          refs := refs + 1;
        }
        k := k + 1;
      }
      assert devices[..k] == devices;
      if refs > 1 {
        errors := errors + [node.disks[i]];
      }
      i := i + 1;
    }
    assert node.disks[..i] == node.disks;
    if errors != [] {
      assert errors[0] in errors;
    }
  }

  // ---------------------------------------------------------------- the LVM size check

  function Total(disks: seq<Disk>): nat {
    if disks == [] then 0 else Total(Front(disks)) + Last(disks).size
  }

  function BootableCount(disks: seq<Disk>): nat {
    if disks == [] then 0 else BootableCount(Front(disks)) + if Last(disks).bootable then 1 else 0
  }

  predicate Shrunk(d: Disk) {
    d.appliedSize.Some? && d.size < d.appliedSize.value
  }

  function FssSize(fss: seq<FileSystem>): nat {
    if fss == [] then 0
    else
      var fs := Last(fss);
      FssSize(Front(fss)) + if fs.forRemoval then 0 else EffectiveSize(fs.fsType, fs.size, fs.snapSize)
  }

  function InstalledSize(counted: seq<Installed>): nat {
    if counted == [] then 0
    else InstalledSize(Front(counted)) + EffectiveSize(Last(counted).fsType, Last(counted).size, 100)
  }

  function VgSize(node: Node, vg: VolumeGroup): nat {
    (if vg.forRemoval then 0 else FssSize(vg.fileSystems)) + if vg.isMsRoot then InstalledSize(node.counted) else 0
  }

  predicate Fits(node: Node, vg: VolumeGroup, disks: seq<Disk>) {
    VgSize(node, vg) + VG_OVERHEAD + SLASH_BOOT_SIZE * BootableCount(disks) <= Total(disks)
  }

  predicate AnyShrunk(disks: seq<Disk>) {
    exists d :: d in disks && Shrunk(d)
  }

  method ValidateVgSizeAgainstDisks(node: Node, vg: VolumeGroup, disks: seq<Disk>) returns (error: bool)
    ensures error <==> !Fits(node, vg, disks) && !AnyShrunk(disks)
  {
    var diskTotal, overhead, suppress := 0, VG_OVERHEAD, false;
    var i := 0;
    while i < |disks|
      invariant 0 <= i <= |disks| && diskTotal == Total(disks[..i])
      invariant overhead == VG_OVERHEAD + SLASH_BOOT_SIZE * BootableCount(disks[..i])
      invariant suppress <==> AnyShrunk(disks[..i])
    {
      TakeOneMore(disks, i);
      diskTotal := diskTotal + disks[i].size;
      if disks[i].bootable {
        overhead := overhead + SLASH_BOOT_SIZE;
      }
      if Shrunk(disks[i]) {
        suppress := true;
      }
      i := i + 1;
    }
    assert disks[..i] == disks;
    error := VgSize(node, vg) + overhead > diskTotal && !suppress;
  }

  ghost predicate SizeError(node: Node, vg: VolumeGroup) {
    var disks := DisksOf(node.disks, vg.devices);
    disks != [] && !Fits(node, vg, disks) && !AnyShrunk(disks)
  }

  method ValidateDiskSizes(node: Node) returns (errors: seq<VolumeGroup>)
    ensures forall vg :: vg in errors <==> vg in node.volumeGroups && SizeError(node, vg)
  {
    errors := [];
    var vgs := node.volumeGroups;
    var i := 0;
    while i < |vgs|
      invariant 0 <= i <= |vgs|
      invariant forall vg :: vg in errors <==> vg in vgs[..i] && SizeError(node, vg)
    {
      TakeOneMore(vgs, i);
      var disks := GetNodeDisksForVg(node.disks, vgs[i].devices);
      if disks != [] {
        var error := ValidateVgSizeAgainstDisks(node, vgs[i], disks);
        if error {
          errors := errors + [vgs[i]];
        }
      }
      i := i + 1;
    }
    assert vgs[..i] == vgs;
  }

  // ---------------------------------------------------------------- conservation over the node

  /** What all volumes, snapshots and overheads of the groups need, in hundredths of a megabyte, unrounded. */
  function FssExact(fss: seq<FileSystem>): nat {
    if fss == [] then 0
    else
      var fs := Last(fss);
      FssExact(Front(fss)) + if fs.forRemoval then 0 else ExactHundredths(fs.fsType, fs.size, fs.snapSize)
  }

  function InstalledExact(counted: seq<Installed>): nat {
    if counted == [] then 0
    else InstalledExact(Front(counted)) + ExactHundredths(Last(counted).fsType, Last(counted).size, 100)
  }

  function VgExact(node: Node, vg: VolumeGroup): nat {
    (if vg.forRemoval then 0 else FssExact(vg.fileSystems)) + if vg.isMsRoot then InstalledExact(node.counted) else 0
  }

  function NodeExact(node: Node, vgs: seq<VolumeGroup>): nat {
    if vgs == [] then 0
    else
      var boot := BootableCount(DisksOf(node.disks, Last(vgs).devices));
      NodeExact(node, Front(vgs)) + VgExact(node, Last(vgs)) + 100 * (VG_OVERHEAD + SLASH_BOOT_SIZE * boot)
  }

  lemma {:induction false} FssRoundUp(fss: seq<FileSystem>)
    ensures FssExact(fss) <= 100 * FssSize(fss)
  {
    if fss != [] {
      FssRoundUp(Front(fss));
      EffectiveIsTight(Last(fss).fsType, Last(fss).size, Last(fss).snapSize);
    }
  }

  lemma {:induction false} InstalledRoundUp(counted: seq<Installed>)
    ensures InstalledExact(counted) <= 100 * InstalledSize(counted)
  {
    if counted != [] {
      InstalledRoundUp(Front(counted));
      EffectiveIsTight(Last(counted).fsType, Last(counted).size, 100);
    }
  }

  lemma {:induction false} DisksOfAppend(disks: seq<Disk>, a: seq<Device>, b: seq<Device>)
    ensures DisksOf(disks, a + b) == DisksOf(disks, a) + DisksOf(disks, b)
  {
    if b == [] {
      assert a + b == a;
    } else {
      assert Front(a + b) == a + Front(b);
      DisksOfAppend(disks, a, Front(b));
    }
  }

  lemma {:induction false} TotalAppend(a: seq<Disk>, b: seq<Disk>)
    ensures Total(a + b) == Total(a) + Total(b)
  {
    if b == [] {
      assert a + b == a;
    } else {
      assert Front(a + b) == a + Front(b);
      TotalAppend(a, Front(b));
    }
  }

  function SizeFor(disks: seq<Disk>, name: string): nat {
    var found := DiskFor(disks, name);
    if found.Some? then found.value.size else 0
  }

  /** A disk's size once for every device that refers to it. */
  function Charged(d: Disk, devices: seq<Device>): nat {
    if devices == [] then 0 else Charged(d, Front(devices)) + if Last(devices).disk == d.name then d.size else 0
  }

  lemma {:induction false} ChargedOnce(d: Disk, devices: seq<Device>)
    ensures References(devices, d.name) == 0 ==> Charged(d, devices) == 0
    ensures References(devices, d.name) <= 1 ==> Charged(d, devices) <= d.size
  {
    if devices != [] {
      ChargedOnce(d, Front(devices));
    }
  }

  lemma {:induction false} OneFound(disks: seq<Disk>, devices: seq<Device>)
    requires devices != []
    ensures Total(DisksOf(disks, devices)) == Total(DisksOf(disks, Front(devices))) + SizeFor(disks, Last(devices).disk)
  {
    var front, found := DisksOf(disks, Front(devices)), DiskFor(disks, Last(devices).disk);
    if found.Some? {
      TotalAppend(front, [found.value]);
      assert Total([found.value]) == found.value.size;
    } else {
      assert front + [] == front;
    }
  }

  /** Without the first disk, what the devices find is smaller by no more than what they charge to it. */
  lemma {:induction false} FirstDiskCounts(disks: seq<Disk>, devices: seq<Device>)
    requires disks != []
    ensures Total(DisksOf(disks, devices)) <= Charged(disks[0], devices) + Total(DisksOf(disks[1..], devices))
  {
    if devices != [] {
      FirstDiskCounts(disks, Front(devices));
      OneFound(disks, devices);
      OneFound(disks[1..], devices);
    }
  }

  /** Devices that share no disk find no more than all disks hold together. */
  lemma {:induction false} FoundWithinDisks(disks: seq<Disk>, devices: seq<Device>)
    requires forall i :: 0 <= i < |disks| ==> References(devices, disks[i].name) <= 1
    ensures Total(DisksOf(disks, devices)) <= Total(disks)
  {
    if disks == [] {
      NothingFound(devices);
    } else {
      FirstDiskCounts(disks, devices);
      ChargedOnce(disks[0], devices);
      FoundWithinDisks(disks[1..], devices);
      TotalAppend([disks[0]], disks[1..]);
      assert disks == [disks[0]] + disks[1..] && Total([disks[0]]) == disks[0].size;
    }
  }

  lemma {:induction false} NothingFound(devices: seq<Device>)
    ensures DisksOf([], devices) == []
  {
    if devices != [] {
      NothingFound(Front(devices));
    }
  }

  lemma {:induction false} GroupsWithinFound(node: Node, vgs: seq<VolumeGroup>)
    requires forall i :: 0 <= i < |vgs| ==> Fits(node, vgs[i], DisksOf(node.disks, vgs[i].devices))
    ensures NodeExact(node, vgs) <= 100 * Total(DisksOf(node.disks, AllDevices(vgs)))
  {
    if vgs != [] {
      var vg := Last(vgs);
      GroupsWithinFound(node, Front(vgs));
      FssRoundUp(vg.fileSystems);
      InstalledRoundUp(node.counted);
      DisksOfAppend(node.disks, AllDevices(Front(vgs)), vg.devices);
      TotalAppend(DisksOf(node.disks, AllDevices(Front(vgs))), DisksOf(node.disks, vg.devices));
      assert Fits(node, vgs[|vgs| - 1], DisksOf(node.disks, vgs[|vgs| - 1].devices));
    }
  }

  /** When both validators are silent, no disk shrank and every group has a disk, everything the node holds fits
      on its disks together, and no disk is counted twice. */
  lemma {:induction false} NodeFits(node: Node)
    requires EachDiskOnce(node) && forall vg :: vg in node.volumeGroups ==> !SizeError(node, vg)
    requires forall d :: d in node.disks ==> !Shrunk(d)
    requires forall vg :: vg in node.volumeGroups ==> DisksOf(node.disks, vg.devices) != []
    ensures NodeExact(node, node.volumeGroups) <= 100 * Total(node.disks)
  {
    forall i | 0 <= i < |node.volumeGroups|
      ensures Fits(node, node.volumeGroups[i], DisksOf(node.disks, node.volumeGroups[i].devices))
    {
      var vg := node.volumeGroups[i];
      assert !SizeError(node, vg);
      forall d | d in DisksOf(node.disks, vg.devices) ensures d in node.disks {
        FoundAreDisks(node.disks, vg.devices, d);
      }
    }
    GroupsWithinFound(node, node.volumeGroups);
    FoundWithinDisks(node.disks, AllDevices(node.volumeGroups));
  }

  lemma {:induction false} FoundAreDisks(disks: seq<Disk>, devices: seq<Device>, d: Disk)
    requires d in DisksOf(disks, devices)
    ensures d in disks
  {
    if d in DisksOf(disks, Front(devices)) {
      FoundAreDisks(disks, Front(devices), d);
    } else {
      DiskForIsDisk(disks, Last(devices).disk);
    }
  }

  lemma {:induction false} DiskForIsDisk(disks: seq<Disk>, name: string)
    ensures DiskFor(disks, name).Some? ==> DiskFor(disks, name).value in disks
  {
    if disks != [] {
      DiskForIsDisk(disks[1..], name);
    }
  }

  // ---------------------------------------------------------------- the VxVM size check

  /** What the validator sets aside for a snapshot, and what a snapshot request asks for. */
  function SetAside(fs: FileSystem): nat {
    CeilDiv(fs.size * (1 + fs.snapSize), 100)
  }

  function Requested(fs: FileSystem): nat {
    fs.size * fs.snapSize / 100
  }

  function VxvmVgSize(fss: seq<FileSystem>): nat {
    if fss == [] then 0 else VxvmVgSize(Front(fss)) + (Last(fss).size + SetAside(Last(fss)))
  }

  function PlainSize(fss: seq<FileSystem>): nat {
    if fss == [] then 0 else PlainSize(Front(fss)) + Last(fss).size
  }

  function RequestedSize(fss: seq<FileSystem>): nat {
    if fss == [] then 0 else RequestedSize(Front(fss)) + Requested(Last(fss))
  }

  function Staying(devices: seq<Device>): seq<Device> {
    if devices == [] then [] else Staying(Front(devices)) + if Last(devices).forRemoval then [] else [Last(devices)]
  }

  method ValidateVxvmVgSize(disks: seq<Disk>, vg: VolumeGroup) returns (error: bool)
    ensures var found := DisksOf(disks, Staying(vg.devices));
      error <==> found != [] && VxvmVgSize(vg.fileSystems) > Total(found)
  {
    var found := GetNodeDisksForVg(disks, Staying(vg.devices));
    error := false;
    if found != [] {
      var total, i := 0, 0;
      while i < |vg.fileSystems|
        invariant 0 <= i <= |vg.fileSystems| && total == VxvmVgSize(vg.fileSystems[..i])
      {
        TakeOneMore(vg.fileSystems, i);
        total := total + (vg.fileSystems[i].size + SetAside(vg.fileSystems[i]));
        i := i + 1;
      }
      assert vg.fileSystems[..i] == vg.fileSystems;
      error := total > Total(found);
    }
  }

  /** The two formulas differ: one adds a percent and rounds up, the other rounds down. */
  lemma {:induction false} SetAsideCoversRequest(fs: FileSystem)
    ensures 100 * SetAside(fs) >= 100 * Requested(fs) + fs.size
  {
    assert fs.size * (1 + fs.snapSize) == fs.size + fs.size * fs.snapSize;
    assert 100 * (fs.size * fs.snapSize / 100) <= fs.size * fs.snapSize;
  }

  lemma {:induction false} GroupCoversRequests(fss: seq<FileSystem>)
    ensures 100 * VxvmVgSize(fss) >= 100 * (PlainSize(fss) + RequestedSize(fss)) + PlainSize(fss)
  {
    if fss != [] {
      GroupCoversRequests(Front(fss));
      SetAsideCoversRequest(Last(fss));
    }
  }

  /** A group that the check accepts holds its volumes and every snapshot at the requested size, and a percent of
      its file systems' total size is to spare. */
  lemma {:induction false} AcceptedGroupHoldsSnapshots(disks: seq<Disk>, vg: VolumeGroup)
    requires var found := DisksOf(disks, Staying(vg.devices));
      found != [] && VxvmVgSize(vg.fileSystems) <= Total(found)
    ensures 100 * (PlainSize(vg.fileSystems) + RequestedSize(vg.fileSystems)) + PlainSize(vg.fileSystems)
      <= 100 * Total(DisksOf(disks, Staying(vg.devices)))
  {
    GroupCoversRequests(vg.fileSystems);
  }
}
