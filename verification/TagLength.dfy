/** How long the tag of a named snapshot may be, so that every name derived from it is legal. */
module TagLength {
  import opened Seqs
  import opened SnapshotNames

  const MAX_VXVM_VOL_LENGTH: int := 31
  const MAX_LVM_SNAP_VOL_LENGTH: int := 122
  const LITP_EXTRA_CHARS := 3
  const MS_ROOT_VG := "vg_root"

  /** `snapped` says that the current snapshot size is not the text 0. */
  datatype FileSystem = FileSystem(id: string, nonSwapLvm: bool, snapped: bool)

  datatype VolumeGroup = VolumeGroup(id: string, name: string, fileSystems: seq<FileSystem>)

  type Profile = seq<VolumeGroup>

  // ---------------------------------------------------------------- names and lengths

  function Hyphens(s: string): nat {
    if s == "" then 0 else Hyphens(s[1..]) + if s[0] == '-' then 1 else 0
  }

  /** The device mapper writes every hyphen twice. */
  function Doubled(s: string): nat {
    |s| + Hyphens(s)
  }

  function LvmName(vg: string, lv: string): string {
    vg + "/" + lv
  }

  function KickstartLv(name: string): string {
    "lv_" + name
  }

  function ModeledLv(vg: VolumeGroup, fs: FileSystem): string {
    vg.id + "_" + fs.id
  }

  /** The longest of the names so far; a name counts for its doubled length once its plain length is longer. */
  function Longest(start: nat, names: seq<string>, doubling: bool): nat {
    if names == [] then start
    else
      var longest := Longest(start, Front(names), doubling);
      if |Last(names)| > longest then (if doubling then Doubled(Last(names)) else |Last(names)|) else longest
  }

  lemma {:induction false} LongestAppend(start: nat, a: seq<string>, b: seq<string>, doubling: bool)
    ensures Longest(start, a + b, doubling) == Longest(Longest(start, a, doubling), b, doubling)
  {
    if b == [] {
      assert a + b == a;
    } else {
      assert Front(a + b) == a + Front(b) && Last(a + b) == Last(b);
      LongestAppend(start, a, Front(b), doubling);
    }
  }

  /** No name is longer than the result, doubled or not, as far as plain lengths go. */
  lemma {:induction false} LongestBoundsPlain(start: nat, names: seq<string>, doubling: bool, i: nat)
    requires i < |names|
    ensures |names[i]| <= Longest(start, names, doubling) && start <= Longest(start, names, doubling)
  {
    if i < |names| - 1 {
      assert Front(names)[i] == names[i];
      LongestBoundsPlain(start, Front(names), doubling, i);
    } else {
      LongestAtLeastStart(start, Front(names), doubling);
    }
  }

  lemma {:induction false} LongestAtLeastStart(start: nat, names: seq<string>, doubling: bool)
    ensures start <= Longest(start, names, doubling)
  {
    if names != [] {
      LongestAtLeastStart(start, Front(names), doubling);
    }
  }

  // ---------------------------------------------------------------- the loops

  function VxvmIds(vg: VolumeGroup, fss: seq<FileSystem>): seq<string> {
    if fss == [] then [] else VxvmIds(vg, Front(fss)) + [Last(fss).id]
  }

  function LvmNames(vg: VolumeGroup, fss: seq<FileSystem>): seq<string> {
    if fss == [] then []
    else LvmNames(vg, Front(fss)) + if Last(fss).nonSwapLvm then [LvmName(vg.name, ModeledLv(vg, Last(fss)))] else []
  }

  /** The volume names of a group whose length matters to one driver. */
  function VgNames(vg: VolumeGroup, lvm: bool): seq<string> {
    if lvm then LvmNames(vg, vg.fileSystems) else VxvmIds(vg, vg.fileSystems)
  }

  function ProfileNames(vgs: seq<VolumeGroup>, lvm: bool): seq<string> {
    if vgs == [] then [] else ProfileNames(Front(vgs), lvm) + VgNames(Last(vgs), lvm)
  }

  function AllNames(profiles: seq<Profile>, lvm: bool): seq<string> {
    if profiles == [] then [] else AllNames(Front(profiles), lvm) + ProfileNames(Last(profiles), lvm)
  }

  function KickstartNames(installed: seq<string>): seq<string> {
    if installed == [] then []
    else KickstartNames(Front(installed)) + [LvmName(MS_ROOT_VG, KickstartLv(Last(installed)))]
  }

  function Max0(n: int): nat {
    if n > 0 then n else 0
  }

  function VxvmMaxTag(profiles: seq<Profile>): nat {
    Max0(MAX_VXVM_VOL_LENGTH - LITP_EXTRA_CHARS - Longest(0, AllNames(profiles, false), false))
  }

  function LvmVolumeNames(installed: seq<string>, profiles: seq<Profile>): seq<string> {
    KickstartNames(installed) + AllNames(profiles, true)
  }

  function LvmLongest(installed: seq<string>, profiles: seq<Profile>): nat {
    Longest(0, LvmVolumeNames(installed, profiles), true)
  }

  function LvmMaxTag(installed: seq<string>, profiles: seq<Profile>): nat {
    Max0(MAX_LVM_SNAP_VOL_LENGTH - LITP_EXTRA_CHARS - LvmLongest(installed, profiles))
  }

  method GetKsFsMaxLength(installed: seq<string>) returns (longest: nat)
    ensures longest == Longest(0, KickstartNames(installed), true)
  {
    longest := 0;
    var i := 0;
    while i < |installed|
      invariant 0 <= i <= |installed| && longest == Longest(0, KickstartNames(installed[..i]), true)
    {
      var name := LvmName(MS_ROOT_VG, KickstartLv(installed[i]));
      TakeOneMore(installed, i);
      assert Front(KickstartNames(installed[..i]) + [name]) == KickstartNames(installed[..i]);
      if |name| > longest {
        longest := Doubled(name);
      }
      i := i + 1;
    }
    assert installed[..i] == installed;
  }

  method LongestInVg(start: nat, vg: VolumeGroup, lvm: bool) returns (longest: nat)
    ensures longest == Longest(start, VgNames(vg, lvm), lvm)
  {
    longest := start;
    var fss := vg.fileSystems;
    var i := 0;
    while i < |fss|
      invariant 0 <= i <= |fss|
      invariant longest == Longest(start, if lvm then LvmNames(vg, fss[..i]) else VxvmIds(vg, fss[..i]), lvm)
    {
      var name := if lvm then LvmName(vg.name, ModeledLv(vg, fss[i])) else fss[i].id;
      ghost var before := if lvm then LvmNames(vg, fss[..i]) else VxvmIds(vg, fss[..i]);
      TakeOneMore(fss, i);
      assert Front(before + [name]) == before;
      assert before + [] == before;
      if !lvm || fss[i].nonSwapLvm {
        if |name| > longest {
          longest := if lvm then Doubled(name) else |name|;
        }
      }
      i := i + 1;
    }
    assert fss[..i] == fss;
  }

  method LongestInProfile(start: nat, vgs: Profile, lvm: bool) returns (longest: nat)
    ensures longest == Longest(start, ProfileNames(vgs, lvm), lvm)
  {
    longest := start;
    var k := 0;
    while k < |vgs|
      invariant 0 <= k <= |vgs| && longest == Longest(start, ProfileNames(vgs[..k], lvm), lvm)
    {
      TakeOneMore(vgs, k);
      LongestAppend(start, ProfileNames(vgs[..k], lvm), VgNames(vgs[k], lvm), lvm);
      longest := LongestInVg(longest, vgs[k], lvm);
      k := k + 1;
    }
    assert vgs[..k] == vgs;
  }

  method LongestInProfiles(start: nat, profiles: seq<Profile>, lvm: bool) returns (longest: nat)
    ensures longest == Longest(start, AllNames(profiles, lvm), lvm)
  {
    longest := start;
    var i := 0;
    while i < |profiles|
      invariant 0 <= i <= |profiles| && longest == Longest(start, AllNames(profiles[..i], lvm), lvm)
    {
      TakeOneMore(profiles, i);
      LongestAppend(start, AllNames(profiles[..i], lvm), ProfileNames(profiles[i], lvm), lvm);
      longest := LongestInProfile(longest, profiles[i], lvm);
      i := i + 1;
    }
    assert profiles[..i] == profiles;
  }

  method GetVxfsTagMaxLength(profiles: seq<Profile>) returns (max: nat)
    ensures max == VxvmMaxTag(profiles)
  {
    var longest := LongestInProfiles(0, profiles, false);
    max := Max0(MAX_VXVM_VOL_LENGTH - LITP_EXTRA_CHARS - longest);
  }

  method GetLvmfsTagMaxLength(installed: seq<string>, profiles: seq<Profile>) returns (max: nat)
    ensures max == LvmMaxTag(installed, profiles)
  {
    var longest := GetKsFsMaxLength(installed);
    LongestAppend(0, KickstartNames(installed), AllNames(profiles, true), true);
    longest := LongestInProfiles(longest, profiles, true);
    max := Max0(MAX_LVM_SNAP_VOL_LENGTH - LITP_EXTRA_CHARS - longest);
  }

  predicate UsesVxvm(profiles: seq<Profile>) {
    exists p, vg, fs :: p in profiles && vg in p && fs in vg.fileSystems && fs.snapped
  }

  function Available(vxvm: seq<Profile>, lvm: seq<Profile>, installed: seq<string>): nat {
    var forLvm := LvmMaxTag(installed, lvm);
    if UsesVxvm(vxvm) && VxvmMaxTag(vxvm) < forLvm then VxvmMaxTag(vxvm) else forLvm
  }

  /** Hyphens of the tag count only when the available length is not that of VxVM. */
  function TagSize(tag: string, available: nat, vxvmMax: nat): nat {
    if available == vxvmMax then |tag| else Doubled(tag)
  }

  /** A deployment snapshot has no tag and is never refused. */
  predicate Accepted(tag: string, vxvm: seq<Profile>, lvm: seq<Profile>, installed: seq<string>) {
    tag == "" || TagSize(tag, Available(vxvm, lvm, installed), VxvmMaxTag(vxvm)) <= Available(vxvm, lvm, installed)
  }

  method ShouldUseVxvm(profiles: seq<Profile>) returns (use: bool)
    ensures use == UsesVxvm(profiles)
  {
    var i := 0;
    while i < |profiles|
      invariant 0 <= i <= |profiles|
      invariant forall p, vg, fs :: p in profiles[..i] && vg in p && fs in vg.fileSystems ==> !fs.snapped
    {
      var vgs := profiles[i];
      var k := 0;
      while k < |vgs|
        invariant 0 <= k <= |vgs|
        invariant forall vg, fs :: vg in vgs[..k] && fs in vg.fileSystems ==> !fs.snapped
      {
        var fss := vgs[k].fileSystems;
        var m := 0;
        while m < |fss|
          invariant 0 <= m <= |fss| && forall fs :: fs in fss[..m] ==> !fs.snapped
        {
          if fss[m].snapped {
            assert vgs in profiles && vgs[k] in vgs && fss[m] in vgs[k].fileSystems;
            return true;
          }
          m := m + 1;
        }
        assert fss[..m] == fss;
        k := k + 1;
      }
      assert vgs[..k] == vgs;
      i := i + 1;
    }
    assert profiles[..i] == profiles;
    return false;
  }

  method ValidateSnapTagLength(tag: string, vxvm: seq<Profile>, lvm: seq<Profile>, installed: seq<string>)
      returns (error: bool)
    ensures error == !Accepted(tag, vxvm, lvm, installed)
  {
    var vxvmMax := GetVxfsTagMaxLength(vxvm);
    var lvmMax := GetLvmfsTagMaxLength(installed, lvm);
    var use := ShouldUseVxvm(vxvm);
    var available := lvmMax;
    if vxvm != [] && use && vxvmMax < lvmMax {
      available := vxvmMax;
    }
    var size := if available == vxvmMax then |tag| else Doubled(tag);
    error := tag != "" && size > available;
  }

  // ---------------------------------------------------------------- which names exist

  predicate IsVxvmVolume(profiles: seq<Profile>, id: string) {
    exists p, vg, fs :: p in profiles && vg in p && fs in vg.fileSystems && fs.id == id
  }

  /** A volume of LVM that can be snapped: a modelled one or one of the installation. */
  predicate IsLvmVolume(profiles: seq<Profile>, installed: seq<string>, vg: string, lv: string) {
    || (vg == MS_ROOT_VG && exists name :: name in installed && lv == KickstartLv(name))
    || exists p, g, fs :: p in profiles && g in p && fs in g.fileSystems && fs.nonSwapLvm
         && vg == g.name && lv == ModeledLv(g, fs)
  }

  lemma {:induction false} VxvmIdListed(vg: VolumeGroup, fss: seq<FileSystem>, fs: FileSystem)
    requires fs in fss
    ensures fs.id in VxvmIds(vg, fss)
    ensures fs.nonSwapLvm ==> LvmName(vg.name, ModeledLv(vg, fs)) in LvmNames(vg, fss)
  {
    if fs != Last(fss) {
      assert fss == Front(fss) + [Last(fss)];
      VxvmIdListed(vg, Front(fss), fs);
    }
  }

  lemma {:induction false} ListedInProfile(vgs: seq<VolumeGroup>, vg: VolumeGroup, name: string, lvm: bool)
    requires vg in vgs && name in VgNames(vg, lvm)
    ensures name in ProfileNames(vgs, lvm)
  {
    if vg != Last(vgs) {
      assert vgs == Front(vgs) + [Last(vgs)];
      ListedInProfile(Front(vgs), vg, name, lvm);
    }
  }

  lemma {:induction false} ListedInAll(profiles: seq<Profile>, p: Profile, name: string, lvm: bool)
    requires p in profiles && name in ProfileNames(p, lvm)
    ensures name in AllNames(profiles, lvm)
  {
    if p != Last(profiles) {
      assert profiles == Front(profiles) + [Last(profiles)];
      ListedInAll(Front(profiles), p, name, lvm);
    }
  }

  lemma {:induction false} KickstartListed(installed: seq<string>, name: string)
    requires name in installed
    ensures LvmName(MS_ROOT_VG, KickstartLv(name)) in KickstartNames(installed)
  {
    if name != Last(installed) {
      assert installed == Front(installed) + [Last(installed)];
      KickstartListed(Front(installed), name);
    }
  }

  lemma {:induction false} VxvmVolumeWithin(profiles: seq<Profile>, id: string)
    requires IsVxvmVolume(profiles, id)
    ensures |id| <= Longest(0, AllNames(profiles, false), false)
  {
    var p, vg, fs :| p in profiles && vg in p && fs in vg.fileSystems && fs.id == id;
    VxvmIdListed(vg, vg.fileSystems, fs);
    ListedInProfile(p, vg, id, false);
    ListedInAll(profiles, p, id, false);
    var names := AllNames(profiles, false);
    var i :| 0 <= i < |names| && names[i] == id;
    LongestBoundsPlain(0, names, false, i);
  }

  lemma {:induction false} LvmVolumeListed(profiles: seq<Profile>, installed: seq<string>, vg: string, lv: string)
    requires IsLvmVolume(profiles, installed, vg, lv)
    ensures LvmName(vg, lv) in LvmVolumeNames(installed, profiles)
  {
    if vg == MS_ROOT_VG && exists name :: name in installed && lv == KickstartLv(name) {
      var name :| name in installed && lv == KickstartLv(name);
      KickstartListed(installed, name);
    } else {
      var p, g, fs :| p in profiles && g in p && fs in g.fileSystems && fs.nonSwapLvm
        && vg == g.name && lv == ModeledLv(g, fs);
      VxvmIdListed(g, g.fileSystems, fs);
      ListedInProfile(p, g, LvmName(vg, lv), true);
      ListedInAll(profiles, p, LvmName(vg, lv), true);
    }
  }

  lemma {:induction false} LvmVolumeWithin(profiles: seq<Profile>, installed: seq<string>, vg: string, lv: string)
    requires IsLvmVolume(profiles, installed, vg, lv)
    ensures |LvmName(vg, lv)| <= LvmLongest(installed, profiles)
  {
    var names := LvmVolumeNames(installed, profiles);
    LvmVolumeListed(profiles, installed, vg, lv);
    var i :| 0 <= i < |names| && names[i] == LvmName(vg, lv);
    LongestBoundsPlain(0, names, true, i);
  }

  // ---------------------------------------------------------------- accepted tags give legal names

  lemma {:induction false} SnapshotNameLength(volume: string, tag: string)
    requires tag != UPGRADE_SNAPSHOT_NAME
    ensures |GenSnapshotName(volume, tag)| == |volume| + LITP_EXTRA_CHARS + |tag|
    ensures "L_" <= GenSnapshotName(volume, tag)
  {
  }

  /** When VxVM file systems are snapped, an accepted tag keeps snapshot and cache names within the limit. */
  lemma {:induction false} VxvmNamesFit(tag: string, vxvm: seq<Profile>, lvm: seq<Profile>, installed: seq<string>,
      id: string)
    requires tag != "" && tag != UPGRADE_SNAPSHOT_NAME && Accepted(tag, vxvm, lvm, installed)
    requires UsesVxvm(vxvm) && IsVxvmVolume(vxvm, id)
    ensures |GenSnapshotName(id, tag)| <= MAX_VXVM_VOL_LENGTH
    ensures |CacheObject(GenSnapshotName(id, tag))| <= MAX_VXVM_VOL_LENGTH
    ensures |CacheVolume(GenSnapshotName(id, tag))| <= MAX_VXVM_VOL_LENGTH
  {
    VxvmVolumeWithin(vxvm, id);
    SnapshotNameLength(id, tag);
    CacheNames(GenSnapshotName(id, tag));
  }

  /** An accepted tag keeps every LVM name, kickstart volumes included, within the limit for plain lengths. */
  lemma {:induction false} LvmNamesFit(tag: string, vxvm: seq<Profile>, lvm: seq<Profile>, installed: seq<string>,
      vg: string, lv: string)
    requires tag != "" && tag != UPGRADE_SNAPSHOT_NAME && Accepted(tag, vxvm, lvm, installed)
    requires IsLvmVolume(lvm, installed, vg, lv)
    ensures |LvmName(vg, GenSnapshotName(lv, tag))| <= MAX_LVM_SNAP_VOL_LENGTH
  {
    LvmVolumeWithin(lvm, installed, vg, lv);
    SnapshotNameLength(lv, tag);
  }

  // ---------------------------------------------------------------- doubled hyphens

  /** A name's doubled length is within the result exactly when its plain length beat the running maximum, or the
      result is large enough anyway. */
  lemma {:induction false} LongestBoundsDoubled(start: nat, names: seq<string>, i: nat)
    requires i < |names|
    ensures |names[i]| > Longest(start, names[..i], true) ==> Doubled(names[i]) <= Longest(start, names, true)
  {
    if i < |names| - 1 {
      assert Front(names)[i] == names[i] && Front(names)[..i] == names[..i];
      LongestBoundsDoubled(start, Front(names), i);
    } else {
      assert Front(names) == names[..i];
    }
  }

  function Size(name: string, doubling: bool): nat {
    if doubling then Doubled(name) else |name|
  }

  /** The running maximum is at most some name's length; when it is positive, that of a name it did not pass over. */
  lemma {:induction false} LongestIsReached(names: seq<string>, doubling: bool) returns (i: nat)
    requires names != []
    ensures i < |names| && Longest(0, names, doubling) <= Size(names[i], doubling)
    ensures Longest(0, names, doubling) > 0 ==>
      Longest(0, names, doubling) == Size(names[i], doubling) && |names[i]| > Longest(0, names[..i], doubling)
  {
    i := |names| - 1;
    assert names[..i] == Front(names);
    if |names| > 1 && |Last(names)| <= Longest(0, Front(names), doubling) {
      i := LongestIsReached(Front(names), doubling);
      assert names[i] == Front(names)[i] && names[..i] == Front(names)[..i];
    }
  }

  /** Some name of the greatest doubled length is longer than the running maximum when its turn comes. */
  ghost predicate LongestPasses(names: seq<string>) {
    exists i :: 0 <= i < |names| && IsLongest(names, names[i]) && |names[i]| > Longest(0, names[..i], true)
  }

  ghost predicate IsLongest(names: seq<string>, name: string) {
    forall j :: 0 <= j < |names| ==> Doubled(names[j]) <= Doubled(name)
  }

  /** So the result bounds every doubled length if and only if one of the longest doubled names is not passed over. */
  lemma {:induction false} DoubledBoundIsExact(names: seq<string>)
    requires exists name :: name in names && name != ""
    ensures (forall i :: 0 <= i < |names| ==> Doubled(names[i]) <= Longest(0, names, true)) <==> LongestPasses(names)
  {
    if LongestPasses(names) {
      var i :| 0 <= i < |names| && IsLongest(names, names[i]) && |names[i]| > Longest(0, names[..i], true);
      LongestBoundsDoubled(0, names, i);
    }
    if forall i :: 0 <= i < |names| ==> Doubled(names[i]) <= Longest(0, names, true) {
      var name :| name in names && name != "";
      var k :| 0 <= k < |names| && names[k] == name;
      LongestBoundsPlain(0, names, true, k);
      var i := LongestIsReached(names, true);
      assert IsLongest(names, names[i]);
    }
  }

  /** It can fail: a hyphenated name that is no longer than an earlier one is passed over. */
  lemma {:induction false} HyphenatedNamePassedOver(first: string, second: string)
    requires |second| <= Doubled(first) < Doubled(second)
    ensures Longest(0, [first, second], true) < Doubled(second)
  {
    assert Front([first, second]) == [first] && Last([first, second]) == second;
    assert Front([first]) == [] && Last([first]) == first && Longest(0, [], true) == 0;
    assert Longest(0, [first], true) == Doubled(first);
  }

  lemma {:induction false} NoHyphens(s: string)
    requires forall i :: 0 <= i < |s| ==> s[i] != '-'
    ensures Hyphens(s) == 0
  {
    if s != "" {
      NoHyphens(s[1..]);
    }
  }

  lemma {:induction false} HyphensAppend(a: string, b: string)
    ensures Hyphens(a + b) == Hyphens(a) + Hyphens(b)
  {
    if a == "" {
      assert a + b == b;
    } else {
      assert (a + b)[1..] == a[1..] + b;
      HyphensAppend(a[1..], b);
    }
  }

  lemma {:induction false} SnapshotNameParts(vg: string, lv: string, tag: string)
    requires tag != UPGRADE_SNAPSHOT_NAME
    ensures LvmName(vg, GenSnapshotName(lv, tag)) == vg + ("/L_" + (lv + ("_" + tag)))
  {
    assert GenSnapshotName(lv, tag) == "L_" + (lv + ("_" + tag));
    assert "/" + "L_" == "/L_";
    Regroup("/", "L_", lv + ("_" + tag));
    Regroup(vg, "/", "L_" + (lv + ("_" + tag)));
  }

  lemma {:induction false} DoubledSnapshotName(vg: string, lv: string, tag: string)
    requires tag != UPGRADE_SNAPSHOT_NAME
    ensures Doubled(LvmName(vg, GenSnapshotName(lv, tag))) == Doubled(LvmName(vg, lv)) + LITP_EXTRA_CHARS + Doubled(tag)
  {
    HyphensAppend("_", tag);
    HyphensAppend(lv, "_" + tag);
    HyphensAppend("/L_", lv + ("_" + tag));
    HyphensAppend(vg, "/L_" + (lv + ("_" + tag)));
    NoHyphens("/L_");
    NoHyphens("_");
    NoHyphens("/");
    SnapshotNameParts(vg, lv, tag);
    Regroup(vg, "/", lv);
    HyphensAppend(vg, "/" + lv);
    HyphensAppend("/", lv);
  }

  /** For hyphen-free volumes the bound holds of the doubled length too, unless the tag has hyphens and the
      available length coincides with that of VxVM. */
  lemma {:induction false} DoubledNamesFit(tag: string, vxvm: seq<Profile>, lvm: seq<Profile>, installed: seq<string>,
      vg: string, lv: string)
    requires tag != "" && tag != UPGRADE_SNAPSHOT_NAME && Accepted(tag, vxvm, lvm, installed)
    requires IsLvmVolume(lvm, installed, vg, lv) && Hyphens(vg) == 0 && Hyphens(lv) == 0
    requires Hyphens(tag) == 0 || Available(vxvm, lvm, installed) != VxvmMaxTag(vxvm)
    ensures Doubled(LvmName(vg, GenSnapshotName(lv, tag))) <= MAX_LVM_SNAP_VOL_LENGTH
  {
    LvmVolumeWithin(lvm, installed, vg, lv);
    DoubledSnapshotName(vg, lv, tag);
    HyphensAppend(vg, "/" + lv);
    HyphensAppend("/", lv);
    NoHyphens("/");
    Regroup(vg, "/", lv);
  }

  // ---------------------------------------------------------------- refused tags give an illegal name

  lemma {:induction false} ListedIsVxvm(profiles: seq<Profile>, id: string)
    requires id in AllNames(profiles, false)
    ensures IsVxvmVolume(profiles, id)
  {
    var p := ListedInSome(profiles, id, false);
    var vg := ListedInSomeVg(p, id, false);
    VxvmIdIsOf(vg, vg.fileSystems, id);
  }

  lemma {:induction false} ListedInSome(profiles: seq<Profile>, name: string, lvm: bool) returns (p: Profile)
    requires name in AllNames(profiles, lvm)
    ensures p in profiles && name in ProfileNames(p, lvm)
  {
    p := Last(profiles);
    if name !in ProfileNames(p, lvm) {
      p := ListedInSome(Front(profiles), name, lvm);
    }
  }

  lemma {:induction false} ListedInSomeVg(vgs: Profile, name: string, lvm: bool) returns (vg: VolumeGroup)
    requires name in ProfileNames(vgs, lvm)
    ensures vg in vgs && name in VgNames(vg, lvm)
  {
    vg := Last(vgs);
    if name !in VgNames(vg, lvm) {
      vg := ListedInSomeVg(Front(vgs), name, lvm);
    }
  }

  lemma {:induction false} VxvmIdIsOf(vg: VolumeGroup, fss: seq<FileSystem>, id: string)
    requires id in VxvmIds(vg, fss)
    ensures exists fs :: fs in fss && fs.id == id
  {
    if id != Last(fss).id {
      VxvmIdIsOf(vg, Front(fss), id);
    } else {
      assert Last(fss) in fss;
    }
  }

  lemma {:induction false} LvmNameIsOf(vg: VolumeGroup, fss: seq<FileSystem>, name: string)
    requires name in LvmNames(vg, fss)
    ensures exists fs :: fs in fss && fs.nonSwapLvm && name == LvmName(vg.name, ModeledLv(vg, fs))
  {
    if name in LvmNames(vg, Front(fss)) {
      LvmNameIsOf(vg, Front(fss), name);
    } else {
      assert Last(fss) in fss;
    }
  }

  lemma {:induction false} KickstartIsOf(installed: seq<string>, name: string)
    requires name in KickstartNames(installed)
    ensures exists k :: k in installed && name == LvmName(MS_ROOT_VG, KickstartLv(k))
  {
    if name in KickstartNames(Front(installed)) {
      KickstartIsOf(Front(installed), name);
    } else {
      assert Last(installed) in installed;
    }
  }

  lemma {:induction false} ListedIsLvm(profiles: seq<Profile>, installed: seq<string>, name: string)
    returns (vg: string, lv: string)
    requires name in LvmVolumeNames(installed, profiles)
    ensures IsLvmVolume(profiles, installed, vg, lv) && name == LvmName(vg, lv)
  {
    if name in KickstartNames(installed) {
      KickstartIsOf(installed, name);
      var k :| k in installed && name == LvmName(MS_ROOT_VG, KickstartLv(k));
      vg, lv := MS_ROOT_VG, KickstartLv(k);
    } else {
      var p := ListedInSome(profiles, name, true);
      var g := ListedInSomeVg(p, name, true);
      LvmNameIsOf(g, g.fileSystems, name);
      var fs :| fs in g.fileSystems && fs.nonSwapLvm && name == LvmName(g.name, ModeledLv(g, fs));
      vg, lv := g.name, ModeledLv(g, fs);
    }
  }

  ghost predicate VxvmNamesLegal(tag: string, profiles: seq<Profile>) {
    forall id :: IsVxvmVolume(profiles, id) ==> |GenSnapshotName(id, tag)| <= MAX_VXVM_VOL_LENGTH
  }

  /** Every LVM name is legal with its hyphens counted twice. */
  ghost predicate LvmNamesLegal(tag: string, profiles: seq<Profile>, installed: seq<string>) {
    forall vg, lv :: IsLvmVolume(profiles, installed, vg, lv) ==>
      Doubled(LvmName(vg, GenSnapshotName(lv, tag))) <= MAX_LVM_SNAP_VOL_LENGTH
  }

  lemma {:induction false} TooLongForVxvm(tag: string, profiles: seq<Profile>)
    requires tag != UPGRADE_SNAPSHOT_NAME && UsesVxvm(profiles) && |tag| > VxvmMaxTag(profiles)
    ensures !VxvmNamesLegal(tag, profiles)
  {
    var p, vg, fs :| p in profiles && vg in p && fs in vg.fileSystems && fs.snapped;
    VxvmIdListed(vg, vg.fileSystems, fs);
    ListedInProfile(p, vg, fs.id, false);
    ListedInAll(profiles, p, fs.id, false);
    var names := AllNames(profiles, false);
    var i := LongestIsReached(names, false);
    ListedIsVxvm(profiles, names[i]);
    SnapshotNameLength(names[i], tag);
  }

  lemma {:induction false} TooLongForLvm(tag: string, profiles: seq<Profile>, installed: seq<string>)
    requires tag != UPGRADE_SNAPSHOT_NAME && installed != [] && Doubled(tag) > LvmMaxTag(installed, profiles)
    ensures !LvmNamesLegal(tag, profiles, installed)
  {
    var names := LvmVolumeNames(installed, profiles);
    var i := LongestIsReached(names, true);
    assert names[i] in names;
    var vg, lv := ListedIsLvm(profiles, installed, names[i]);
    DoubledSnapshotName(vg, lv, tag);
  }

  /** A tag is refused only when some derived name would be too long, hyphens of LVM names counted twice. */
  lemma {:induction false} RefusedForAReason(tag: string, vxvm: seq<Profile>, lvm: seq<Profile>, installed: seq<string>)
    requires tag != "" && tag != UPGRADE_SNAPSHOT_NAME && installed != [] && !Accepted(tag, vxvm, lvm, installed)
    ensures (UsesVxvm(vxvm) && !VxvmNamesLegal(tag, vxvm)) || !LvmNamesLegal(tag, lvm, installed)
  {
    if UsesVxvm(vxvm) && VxvmMaxTag(vxvm) < LvmMaxTag(installed, lvm) {
      TooLongForVxvm(tag, vxvm);
    } else {
      TooLongForLvm(tag, lvm, installed);
    }
  }

  lemma {:induction false} LegalMeansShort(tag: string, profiles: seq<Profile>, installed: seq<string>)
    requires tag != "" && tag != UPGRADE_SNAPSHOT_NAME
    ensures LvmNamesLegal(tag, profiles, installed) <==>
      forall i :: 0 <= i < |LvmVolumeNames(installed, profiles)| ==>
        Doubled(LvmVolumeNames(installed, profiles)[i]) + LITP_EXTRA_CHARS + Doubled(tag) <= MAX_LVM_SNAP_VOL_LENGTH
  {
    var names := LvmVolumeNames(installed, profiles);
    if LvmNamesLegal(tag, profiles, installed) {
      forall i | 0 <= i < |names|
        ensures Doubled(names[i]) + LITP_EXTRA_CHARS + Doubled(tag) <= MAX_LVM_SNAP_VOL_LENGTH
      {
        var vg, lv := ListedIsLvm(profiles, installed, names[i]);
        DoubledSnapshotName(vg, lv, tag);
      }
    }
    if forall i :: 0 <= i < |names| ==> Doubled(names[i]) + LITP_EXTRA_CHARS + Doubled(tag) <= MAX_LVM_SNAP_VOL_LENGTH {
      forall vg, lv | IsLvmVolume(profiles, installed, vg, lv)
        ensures Doubled(LvmName(vg, GenSnapshotName(lv, tag))) <= MAX_LVM_SNAP_VOL_LENGTH
      {
        LvmVolumeListed(profiles, installed, vg, lv);
        var i :| 0 <= i < |names| && names[i] == LvmName(vg, lv);
        DoubledSnapshotName(vg, lv, tag);
      }
    }
  }

  lemma {:induction false} SomeLvmName(installed: seq<string>, profiles: seq<Profile>)
    requires installed != []
    ensures exists name :: name in LvmVolumeNames(installed, profiles) && name != ""
  {
    KickstartListed(installed, installed[0]);
    assert LvmName(MS_ROOT_VG, KickstartLv(installed[0])) in LvmVolumeNames(installed, profiles);
  }

  /** When one of the longest doubled names is not passed over, a tag keeps every LVM name legal if and only if its
      own doubled length is within what is left for LVM. */
  lemma {:induction false} LegalIsExact(tag: string, profiles: seq<Profile>, installed: seq<string>)
    requires tag != "" && tag != UPGRADE_SNAPSHOT_NAME && installed != []
    requires LongestPasses(LvmVolumeNames(installed, profiles))
    ensures LvmNamesLegal(tag, profiles, installed) <==> Doubled(tag) <= LvmMaxTag(installed, profiles)
  {
    var names := LvmVolumeNames(installed, profiles);
    SomeLvmName(installed, profiles);
    DoubledBoundIsExact(names);
    LegalMeansShort(tag, profiles, installed);
    if Doubled(tag) > LvmMaxTag(installed, profiles) {
      TooLongForLvm(tag, profiles, installed);
    }
  }

  lemma {:induction false} RepeatedHasNoHyphens(n: nat)
    ensures Hyphens(seq(n, _ => 'a')) == 0
  {
    NoHyphens(seq(n, _ => 'a'));
  }

  /** What is left for LVM is safe for every tag if and only if one of the longest doubled names is not passed over. */
  lemma {:induction false} BudgetIsExact(profiles: seq<Profile>, installed: seq<string>)
    requires installed != [] && LvmMaxTag(installed, profiles) > 0
    ensures (forall tag ::
              tag != "" && tag != UPGRADE_SNAPSHOT_NAME && Doubled(tag) <= LvmMaxTag(installed, profiles) ==>
              LvmNamesLegal(tag, profiles, installed)) <==>
      LongestPasses(LvmVolumeNames(installed, profiles))
  {
    var names := LvmVolumeNames(installed, profiles);
    SomeLvmName(installed, profiles);
    DoubledBoundIsExact(names);
    if LongestPasses(names) {
      forall tag | tag != "" && tag != UPGRADE_SNAPSHOT_NAME && Doubled(tag) <= LvmMaxTag(installed, profiles)
        ensures LvmNamesLegal(tag, profiles, installed)
      {
        LegalIsExact(tag, profiles, installed);
      }
    } else {
      var tag := seq(LvmMaxTag(installed, profiles), _ => 'a');
      RepeatedHasNoHyphens(|tag|);
      LegalMeansShort(tag, profiles, installed);
      assert tag[0] == 'a' && tag != UPGRADE_SNAPSHOT_NAME;
      assert !LvmNamesLegal(tag, profiles, installed);
    }
  }

  /** An accepted tag keeps the names of hyphen-free volumes legal if and only if its doubled length is within what is
      left for LVM; it is counted so unless the available length is VxVM's. */
  lemma {:induction false} AcceptedTagIsLegal(tag: string, vxvm: seq<Profile>, lvm: seq<Profile>,
      installed: seq<string>)
    requires tag != "" && tag != UPGRADE_SNAPSHOT_NAME && installed != [] && Accepted(tag, vxvm, lvm, installed)
    requires forall vg, lv :: IsLvmVolume(lvm, installed, vg, lv) ==> Hyphens(vg) == 0 && Hyphens(lv) == 0
    ensures LvmNamesLegal(tag, lvm, installed) <==> Doubled(tag) <= LvmMaxTag(installed, lvm)
    ensures Available(vxvm, lvm, installed) != VxvmMaxTag(vxvm) || Hyphens(tag) == 0 ==>
      LvmNamesLegal(tag, lvm, installed)
  {
    HyphenFreePasses(lvm, installed);
    LegalIsExact(tag, lvm, installed);
  }

  /** An input where it is not: nothing of VxVM, whose empty limit of 28 equals what a name of 91 characters leaves for
      LVM, and a tag of 28 characters with one hyphen. */
  lemma {:induction false} HyphenatedTagAccepted(name: string, tag: string)
    requires |name| == 87 && Hyphens(name) == 0
    requires |tag| == 28 && Hyphens(tag) == 1
    ensures var lvm := [[VolumeGroup("g", name, [FileSystem("f", true, false)])]];
      Accepted(tag, [], lvm, ["root"]) && !LvmNamesLegal(tag, lvm, ["root"])
  {
    var fs := FileSystem("f", true, false);
    var vg := VolumeGroup("g", name, [fs]);
    var root, data := LvmName(MS_ROOT_VG, KickstartLv("root")), LvmName(name, "g_f");
    assert Front(["root"]) == [] && KickstartNames([]) == [] && KickstartNames(["root"]) == [root];
    assert Front([fs]) == [] && Last([fs]) == fs && ModeledLv(vg, fs) == "g_f" && LvmNames(vg, [fs]) == [data];
    assert Front([vg]) == [] && Last([vg]) == vg && ProfileNames([vg], true) == [data];
    assert Front([[vg]]) == [] && Last([[vg]]) == [vg] && AllNames([[vg]], true) == [data];
    assert [root] + [data] == [root, data];
    assert Front([root, data]) == [root] && Last([root, data]) == data && Front([root]) == [] && Last([root]) == root;
    HyphensAppend(name, "/" + "g_f");
    NoHyphens("/" + "g_f");
    Regroup(name, "/", "g_f");
    NoHyphens(root);
    assert Doubled(root) == 15 && Longest(0, [root], true) == 15;
    assert Doubled(data) == 91 && LvmMaxTag(["root"], [[vg]]) == 28 == VxvmMaxTag([]);
    TooLongForLvm(tag, [[vg]], ["root"]);
  }

  lemma {:induction false} HyphenFreePasses(profiles: seq<Profile>, installed: seq<string>)
    requires installed != []
    requires forall vg, lv :: IsLvmVolume(profiles, installed, vg, lv) ==> Hyphens(vg) == 0 && Hyphens(lv) == 0
    ensures LongestPasses(LvmVolumeNames(installed, profiles))
  {
    var names := LvmVolumeNames(installed, profiles);
    forall i | 0 <= i < |names| ensures Doubled(names[i]) <= Longest(0, names, true) {
      var vg, lv := ListedIsLvm(profiles, installed, names[i]);
      HyphensAppend(vg, "/" + lv);
      HyphensAppend("/", lv);
      NoHyphens("/");
      Regroup(vg, "/", lv);
      LongestBoundsPlain(0, names, true, i);
    }
    SomeLvmName(installed, profiles);
    DoubledBoundIsExact(names);
  }

  /** Without hyphens anywhere, a tag is accepted exactly when every name derived from it is legal. */
  lemma {:induction false} AcceptedIsExact(tag: string, vxvm: seq<Profile>, lvm: seq<Profile>, installed: seq<string>)
    requires tag != "" && tag != UPGRADE_SNAPSHOT_NAME && installed != [] && Hyphens(tag) == 0
    requires forall vg, lv :: IsLvmVolume(lvm, installed, vg, lv) ==> Hyphens(vg) == 0 && Hyphens(lv) == 0
    ensures Accepted(tag, vxvm, lvm, installed) <==>
      (UsesVxvm(vxvm) ==> VxvmNamesLegal(tag, vxvm)) && LvmNamesLegal(tag, lvm, installed)
  {
    if Accepted(tag, vxvm, lvm, installed) {
      forall vg, lv | IsLvmVolume(lvm, installed, vg, lv)
        ensures Doubled(LvmName(vg, GenSnapshotName(lv, tag))) <= MAX_LVM_SNAP_VOL_LENGTH
      {
        DoubledNamesFit(tag, vxvm, lvm, installed, vg, lv);
      }
      if UsesVxvm(vxvm) {
        forall id | IsVxvmVolume(vxvm, id) ensures |GenSnapshotName(id, tag)| <= MAX_VXVM_VOL_LENGTH {
          VxvmNamesFit(tag, vxvm, lvm, installed, id);
        }
      }
    } else {
      RefusedForAReason(tag, vxvm, lvm, installed);
    }
  }
}
