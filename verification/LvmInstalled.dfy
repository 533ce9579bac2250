/** The file systems that the management server's installation made and that are not modelled as well. */
module LvmInstalled {
  import opened Seqs
  import opened SnapshotNames
  import opened LvmTargets

  predicate MountIn(fss: seq<FileSystem>, mountPoint: string) {
    exists fs :: fs in fss && !fs.forRemoval && fs.mountPoint == Some(mountPoint)
  }

  ghost predicate ModeledMount(node: Node, mountPoint: string) {
    exists vg :: vg in node.volumeGroups && !vg.forRemoval && MountIn(vg.fileSystems, mountPoint)
  }

  /** The installed file systems that are snapped under this name and are not modelled as well. */
  ghost function InstalledTargets(node: Node, installed: seq<KickstartFs>, snapshot: string): seq<Target> {
    if installed == [] then []
    else
      var fs := Last(installed);
      var snapped := if snapshot == UPGRADE_SNAPSHOT_NAME then fs.deploymentSnap else fs.namedSnap;
      InstalledTargets(node, Front(installed), snapshot)
      + if snapped && !ModeledMount(node, fs.mountPoint)
        then [Target(MS_ROOT_VG, GenSnapshotName("lv_" + fs.name, snapshot))] else []
  }

  /** The mount points of the modelled file systems that stay. */
  method GetModeledMounts(node: Node) returns (mounts: set<string>)
    ensures forall m :: m in mounts <==> ModeledMount(node, m)
  {
    mounts := {};
    var vgs := node.volumeGroups;
    var i := 0;
    while i < |vgs|
      invariant 0 <= i <= |vgs|
      invariant forall m :: m in mounts <==>
        exists j :: 0 <= j < i && !vgs[j].forRemoval && MountIn(vgs[j].fileSystems, m)
    {
      if !vgs[i].forRemoval {
        var more := MountsOf(vgs[i].fileSystems);
        mounts := mounts + more;
      }
      i := i + 1;
    }
    forall m ensures m in mounts <==> ModeledMount(node, m) {
      if j :| 0 <= j < |vgs| && !vgs[j].forRemoval && MountIn(vgs[j].fileSystems, m) {
        assert vgs[j] in node.volumeGroups;
      }
      if vg :| vg in node.volumeGroups && !vg.forRemoval && MountIn(vg.fileSystems, m) {
        var j :| 0 <= j < |vgs| && vgs[j] == vg;
      }
    }
  }

  method MountsOf(fss: seq<FileSystem>) returns (mounts: set<string>)
    ensures forall m :: m in mounts <==> MountIn(fss, m)
  {
    mounts := {};
    var i := 0;
    while i < |fss|
      invariant 0 <= i <= |fss|
      invariant forall m :: m in mounts <==> MountIn(fss[..i], m)
    {
      assert fss[..i + 1] == fss[..i] + [fss[i]];
      if !fss[i].forRemoval && fss[i].mountPoint.Some? {
        mounts := mounts + {fss[i].mountPoint.value};
      }
      i := i + 1;
    }
    assert fss[..i] == fss;
  }

  /** The loop over the installation's file systems. */
  method GetExpectedInstalled(node: Node, snapshot: string) returns (targets: seq<Target>)
    ensures targets == InstalledTargets(node, node.installed, snapshot)
  {
    var mounts := GetModeledMounts(node);
    targets := [];
    var i := 0;
    while i < |node.installed|
      invariant 0 <= i <= |node.installed| && targets == InstalledTargets(node, node.installed[..i], snapshot)
    {
      var fs := node.installed[i];
      TakeOneMore(node.installed, i);
      var snapped := if snapshot == UPGRADE_SNAPSHOT_NAME then fs.deploymentSnap else fs.namedSnap;
      if snapped && fs.mountPoint !in mounts {
        targets := targets + [Target(MS_ROOT_VG, GenSnapshotName("lv_" + fs.name, snapshot))];
      }
      i := i + 1;
    }
    assert node.installed[..i] == node.installed;
  }
}
