/** Removing LVM snapshots: every snapshot that may be removed is first checked not to be merging back into its
    volume. The plan is executed serially, validation first, and stops at the first task that fails. */
module LvmRemove {
  import opened Seqs
  import opened SnapshotNames
  import opened LvmInstalled
  import opened LvmTargets
  import opened SnapshotPlan

  type HostData = map<string, seq<string>>
  type SnapData = map<string, HostData>

  /** `pinged` removals reach the agent only if the host answers a ping. */
  datatype Task =
    | CheckReachable(hosts: seq<string>)
    | CheckMerging(data: SnapData, forced: bool)
    | Remove(host: string, target: Target, pinged: bool)
    | RemoveGrub(host: string)

  // ---------------------------------------------------------------- what is to be checked

  function GroupNames(name: Pair -> Target, vg: VolumeGroup): seq<string> {
    Map(SnapshotOf, VgTargets(name, vg, vg.fileSystems, true))
  }

  function GroupName(vg: VolumeGroup): string {
    vg.name
  }

  function NamesOfGroups(name: Pair -> Target): VolumeGroup -> seq<string> {
    (vg: VolumeGroup) => GroupNames(name, vg)
  }

  /** A later group of the same name replaces what an earlier one recorded. */
  function VgData(name: Pair -> Target, vgs: seq<VolumeGroup>): HostData {
    Index(GroupName, NamesOfGroups(name), vgs)
  }

  function InstalledNames(installed: seq<KickstartFs>, fsType: FsType, snapshot: string): seq<string> {
    if installed == [] then []
    else
      var k := Last(installed);
      InstalledNames(Front(installed), fsType, snapshot)
      + if k.fsType == fsType then [GenSnapshotName("lv_" + k.name, snapshot)] else []
  }

  function AddInstalled(data: HostData, installed: seq<KickstartFs>, snapshot: string): HostData {
    data[MS_ROOT_VG := (if MS_ROOT_VG in data then data[MS_ROOT_VG] else [])
      + (InstalledNames(installed, Ext4, snapshot) + InstalledNames(installed, Xfs, snapshot))]
  }

  function NodeData(node: Node, snapshot: string): HostData {
    var modeled := VgData(Naming(node, snapshot), LocalVgs(node, node.volumeGroups, snapshot));
    if node.isMs then AddInstalled(modeled, node.installed, snapshot) else modeled
  }

  function DataFor(nodes: seq<Node>, snapshot: string): SnapData {
    if nodes == [] then map[]
    else
      var before := DataFor(Front(nodes), snapshot);
      if Last(nodes).isMs || SnapsPossible(Last(nodes), snapshot)
      then before[Last(nodes).host := NodeData(Last(nodes), snapshot)]
      else before
  }

  method NamesOfGroup(name: Pair -> Target, vg: VolumeGroup) returns (names: seq<string>)
    ensures names == GroupNames(name, vg)
  {
    names := AddNames(name, vg, []);
  }

  method GatherVgData(name: Pair -> Target, vgs: seq<VolumeGroup>) returns (data: HostData)
    ensures data == VgData(name, vgs)
  {
    data := map[];
    var i := 0;
    while i < |vgs|
      invariant 0 <= i <= |vgs| && data == VgData(name, vgs[..i])
    {
      TakeOneMore(vgs, i);
      var names := NamesOfGroup(name, vgs[i]);
      data := data[vgs[i].name := names];
      i := i + 1;
    }
    assert vgs[..i] == vgs;
  }

  method GatherNodeData(node: Node, snapshot: string) returns (data: HostData)
    ensures data == NodeData(node, snapshot)
  {
    var vgs := LocalStorageBackedVgs(node, snapshot);
    data := GatherVgData(Naming(node, snapshot), vgs);
    if node.isMs {
      data := GatherInstalled(data, node.installed, snapshot);
    }
  }

  /** The inner loop: the installed volumes of one type, appended to what is there. */
  method AddInstalledNames(installed: seq<KickstartFs>, fsType: FsType, snapshot: string, already: seq<string>)
      returns (names: seq<string>)
    ensures names == already + InstalledNames(installed, fsType, snapshot)
  {
    names := already;
    var k := 0;
    while k < |installed|
      invariant 0 <= k <= |installed| && names == already + InstalledNames(installed[..k], fsType, snapshot)
    {
      TakeOneMore(installed, k);
      if installed[k].fsType == fsType {
        var name := GenSnapshotName("lv_" + installed[k].name, snapshot);
        Regroup(already, InstalledNames(installed[..k], fsType, snapshot), [name]);
        names := names + [name];
      }
      k := k + 1;
    }
    assert installed[..k] == installed;
  }

  method GatherInstalled(already: HostData, installed: seq<KickstartFs>, snapshot: string) returns (data: HostData)
    ensures data == AddInstalled(already, installed, snapshot)
  {
    data := already;
    if MS_ROOT_VG !in data {
      data := data[MS_ROOT_VG := []];
    }
    var names := AddInstalledNames(installed, Ext4, snapshot, []);
    names := AddInstalledNames(installed, Xfs, snapshot, names);
    assert [] + InstalledNames(installed, Ext4, snapshot) == InstalledNames(installed, Ext4, snapshot);
    data := data[MS_ROOT_VG := data[MS_ROOT_VG] + names];
  }

  method GatherSnapData(nodes: seq<Node>, snapshot: string) returns (data: SnapData)
    ensures data == DataFor(nodes, snapshot)
  {
    data := map[];
    var i := 0;
    while i < |nodes|
      invariant 0 <= i <= |nodes| && data == DataFor(nodes[..i], snapshot)
    {
      TakeOneMore(nodes, i);
      if nodes[i].isMs || SnapsPossible(nodes[i], snapshot) {
        var nodeData := GatherNodeData(nodes[i], snapshot);
        data := data[nodes[i].host := nodeData];
      }
      i := i + 1;
    }
    assert nodes[..i] == nodes;
  }

  // ---------------------------------------------------------------- what is to be removed

  function Removes(host: string, targets: seq<Target>, pinged: bool): (r: seq<Task>)
    ensures |r| == |targets| && forall i :: 0 <= i < |r| ==> r[i] == Remove(host, targets[i], pinged)
  {
    if targets == [] then [] else Removes(host, Front(targets), pinged) + [Remove(host, Last(targets), pinged)]
  }

  function NodeTasks(node: Node, snapshot: string, forced: bool): seq<Task> {
    Removes(node.host, RemoveTargets(node, snapshot), forced && !node.isMs)
    + if SnapsPossible(node, snapshot) && snapshot == UPGRADE_SNAPSHOT_NAME && !node.isMs
      then [RemoveGrub(node.host)] else []
  }

  /** Nodes that cannot have snapshots contribute nothing. */
  function ModeledTasks(nodes: seq<Node>, snapshot: string, forced: bool): seq<Task> {
    if nodes == [] then [] else ModeledTasks(Front(nodes), snapshot, forced) + NodeTasks(Last(nodes), snapshot, forced)
  }

  ghost function InstalledTasks(mses: seq<Node>, snapshot: string, forced: bool): seq<Task> {
    if mses == [] then []
    else
      var ms := Last(mses);
      InstalledTasks(Front(mses), snapshot, forced)
      + Removes(ms.host, InstalledTargets(ms, ms.installed, snapshot), forced && !ms.isMs)
      + if snapshot == UPGRADE_SNAPSHOT_NAME then [RemoveGrub(ms.host)] else []
  }

  function PeerHosts(nodes: seq<Node>, snapshot: string): seq<string> {
    if nodes == [] then []
    else
      var n := Last(nodes);
      PeerHosts(Front(nodes), snapshot) + if !n.isMs && SnapsPossible(n, snapshot) then [n.host] else []
  }

  /** `nodes` are those given to the LVM driver, `mses` every management server. */
  ghost function RemovePlan(nodes: seq<Node>, mses: seq<Node>, snapshot: string, forced: bool): seq<Task> {
    (if !forced && PeerHosts(nodes, snapshot) != [] then [CheckReachable(PeerHosts(nodes, snapshot))] else [])
    + [CheckMerging(DataFor(nodes, snapshot), forced)]
    + ModeledTasks(nodes, snapshot, forced)
    + InstalledTasks(mses, snapshot, forced)
  }

  method RemoveTasksFor(host: string, targets: seq<Target>, pinged: bool) returns (tasks: seq<Task>)
    ensures tasks == Removes(host, targets, pinged)
  {
    tasks := [];
    var k := 0;
    while k < |targets|
      invariant 0 <= k <= |targets| && tasks == Removes(host, targets[..k], pinged)
    {
      TakeOneMore(targets, k);
      tasks := tasks + [Remove(host, targets[k], pinged)];
      k := k + 1;
    }
    assert targets[..k] == targets;
  }

  method RemoveTasksOn(node: Node, snapshot: string, forced: bool) returns (tasks: seq<Task>)
    ensures tasks == NodeTasks(node, snapshot, forced)
  {
    var targets := RemoveSnapshotTasks(node, snapshot);
    tasks := RemoveTasksFor(node.host, targets, forced && !node.isMs);
    if tasks != [] && snapshot == UPGRADE_SNAPSHOT_NAME && !node.isMs {
      tasks := tasks + [RemoveGrub(node.host)];
    }
  }

  lemma {:induction false} NoTasksUnlessPossible(node: Node, snapshot: string, forced: bool)
    requires !SnapsPossible(node, snapshot)
    ensures NodeTasks(node, snapshot, forced) == []
  {
    assert RemoveTargets(node, snapshot) == [];
  }

  /** Only nodes with file systems that can be snapped are processed. */
  method RemoveIfPossible(node: Node, snapshot: string, forced: bool) returns (tasks: seq<Task>)
    ensures tasks == NodeTasks(node, snapshot, forced)
  {
    if SnapsPossible(node, snapshot) {
      tasks := RemoveTasksOn(node, snapshot, forced);
    } else {
      NoTasksUnlessPossible(node, snapshot, forced);
      tasks := [];
    }
  }

  method RemoveModeled(nodes: seq<Node>, snapshot: string, forced: bool) returns (tasks: seq<Task>)
    ensures tasks == ModeledTasks(nodes, snapshot, forced)
  {
    tasks := [];
    var i := 0;
    while i < |nodes|
      invariant 0 <= i <= |nodes| && tasks == ModeledTasks(nodes[..i], snapshot, forced)
    {
      TakeOneMore(nodes, i);
      var more := RemoveIfPossible(nodes[i], snapshot, forced);
      tasks := tasks + more;
      i := i + 1;
    }
    assert nodes[..i] == nodes;
  }

  /** The removals of the installed file systems of every management server. */
  method RemoveInstalled(mses: seq<Node>, snapshot: string, forced: bool) returns (tasks: seq<Task>)
    ensures tasks == InstalledTasks(mses, snapshot, forced)
  {
    tasks := [];
    var i := 0;
    while i < |mses|
      invariant 0 <= i <= |mses| && tasks == InstalledTasks(mses[..i], snapshot, forced)
    {
      TakeOneMore(mses, i);
      var targets := GetExpectedInstalled(mses[i], snapshot);
      var more := RemoveTasksFor(mses[i].host, targets, forced && !mses[i].isMs);
      tasks := tasks + more;
      if snapshot == UPGRADE_SNAPSHOT_NAME {
        tasks := tasks + [RemoveGrub(mses[i].host)];
      }
      i := i + 1;
    }
    assert mses[..i] == mses;
  }

  // ---------------------------------------------------------------- every removal is checked

  predicate Checked(data: SnapData, host: string, t: Target) {
    host in data && t.vg in data[host] && t.snapshot in data[host][t.vg]
  }

  /** The installation snaps no swap volume. */
  ghost predicate SnapsNoSwap(installed: seq<KickstartFs>) {
    forall k :: k in installed && (k.deploymentSnap || k.namedSnap) ==> NonSwapType(k.fsType)
  }

  lemma {:induction false} DataOf(nodes: seq<Node>, snapshot: string, n: Node)
    requires UniqueHosts(nodes) && n in nodes && (n.isMs || SnapsPossible(n, snapshot))
    ensures n.host in DataFor(nodes, snapshot) && DataFor(nodes, snapshot)[n.host] == NodeData(n, snapshot)
  {
    var i :| 0 <= i < |nodes| && nodes[i] == n;
    if i < |nodes| - 1 {
      assert Front(nodes)[i] == n;
      DataOf(Front(nodes), snapshot, n);
    }
  }

  /** Of the groups that share a name the last one's snapshots are the checked ones. */
  lemma {:induction false} LastGroupOfNameIsChecked(name: Pair -> Target, vgs: seq<VolumeGroup>, i: nat)
    requires i < |vgs| && forall j :: i < j < |vgs| ==> vgs[j].name != vgs[i].name
    ensures vgs[i].name in VgData(name, vgs) && VgData(name, vgs)[vgs[i].name] == GroupNames(name, vgs[i])
  {
    IndexOfLast(GroupName, NamesOfGroups(name), vgs, i);
  }

  lemma {:induction false} PairsOfVg(vg: VolumeGroup, fss: seq<FileSystem>, p: Pair)
    requires p.vg == vg && p.fs in fss && SnapAllowed(p.fs)
    ensures p in SnappableFss(vg, fss)
  {
    SnappableFssMembers(vg, fss, p);
  }

  lemma {:induction false} GroupIsChecked(name: Pair -> Target, vgs: seq<VolumeGroup>, p: Pair)
    requires UniqueVgNames(vgs) && p in SnappableVgs(vgs)
    ensures p.vg.name in VgData(name, vgs) && name(p).snapshot in VgData(name, vgs)[p.vg.name]
  {
    SnappableVgsMembers(vgs, p);
    var i :| 0 <= i < |vgs| && vgs[i] == p.vg;
    LastGroupOfNameIsChecked(name, vgs, i);
    PairsOfVg(p.vg, p.vg.fileSystems, p);
    TargetPresent(name, SnappableFss(p.vg, p.vg.fileSystems), p);
  }

  lemma {:induction false} InstalledOnlyAdds(data: HostData, installed: seq<KickstartFs>, snapshot: string,
      vg: string, name: string)
    requires vg in data && name in data[vg]
    ensures vg in AddInstalled(data, installed, snapshot) && name in AddInstalled(data, installed, snapshot)[vg]
  {
  }

  lemma {:induction false} ModeledTargetIsChecked(node: Node, snapshot: string, p: Pair)
    requires UniqueVgNames(node.volumeGroups) && p in Snappable(node, snapshot)
    ensures var t := TargetOf(node, p, snapshot);
      t.vg in NodeData(node, snapshot) && t.snapshot in NodeData(node, snapshot)[t.vg]
  {
    var name, vgs := Naming(node, snapshot), LocalVgs(node, node.volumeGroups, snapshot);
    LocalVgsDistinct(node, node.volumeGroups, snapshot);
    GroupIsChecked(name, vgs, p);
    InstalledOnlyAdds(VgData(name, vgs), node.installed, snapshot, p.vg.name, name(p).snapshot);
  }

  lemma {:induction false} InstalledNameIsListed(installed: seq<KickstartFs>, k: KickstartFs, snapshot: string)
    requires k in installed
    ensures GenSnapshotName("lv_" + k.name, snapshot) in InstalledNames(installed, k.fsType, snapshot)
  {
    if k != Last(installed) {
      var i :| 0 <= i < |installed| && installed[i] == k;
      assert Front(installed)[i] == k;
      InstalledNameIsListed(Front(installed), k, snapshot);
    }
  }

  lemma {:induction false} InstalledTargetIsOf(node: Node, installed: seq<KickstartFs>, snapshot: string, t: Target)
    requires t in InstalledTargets(node, installed, snapshot)
    ensures exists k ::
      k in installed && (k.deploymentSnap || k.namedSnap)
        && t == Target(MS_ROOT_VG, GenSnapshotName("lv_" + k.name, snapshot))
  {
    if t in InstalledTargets(node, Front(installed), snapshot) {
      InstalledTargetIsOf(node, Front(installed), snapshot, t);
    } else {
      assert Last(installed) == installed[|installed| - 1];
    }
  }

  lemma {:induction false} InstalledTargetIsChecked(node: Node, snapshot: string, t: Target)
    requires node.isMs && SnapsNoSwap(node.installed) && t in InstalledTargets(node, node.installed, snapshot)
    ensures t.vg in NodeData(node, snapshot) && t.snapshot in NodeData(node, snapshot)[t.vg]
  {
    InstalledTargetIsOf(node, node.installed, snapshot, t);
    var k :| k in node.installed && (k.deploymentSnap || k.namedSnap)
      && t == Target(MS_ROOT_VG, GenSnapshotName("lv_" + k.name, snapshot));
    InstalledNameIsListed(node.installed, k, snapshot);
  }

  lemma {:induction false} ModeledRemoveIsOf(nodes: seq<Node>, snapshot: string, forced: bool, t: Task)
    requires t in ModeledTasks(nodes, snapshot, forced) && t.Remove?
    ensures exists n :: n in nodes && n.host == t.host && t.target in RemoveTargets(n, snapshot)
  {
    if t in ModeledTasks(Front(nodes), snapshot, forced) {
      ModeledRemoveIsOf(Front(nodes), snapshot, forced, t);
    } else {
      var n := Last(nodes);
      assert n == nodes[|nodes| - 1];
      assert t in Removes(n.host, RemoveTargets(n, snapshot), forced && !n.isMs);
    }
  }

  lemma {:induction false} InstalledRemoveIsOf(mses: seq<Node>, snapshot: string, forced: bool, t: Task)
    requires t in InstalledTasks(mses, snapshot, forced) && t.Remove?
    ensures exists n :: n in mses && n.host == t.host && t.target in InstalledTargets(n, n.installed, snapshot)
  {
    if t in InstalledTasks(Front(mses), snapshot, forced) {
      InstalledRemoveIsOf(Front(mses), snapshot, forced, t);
    } else {
      var n := Last(mses);
      assert n == mses[|mses| - 1];
      assert t in Removes(n.host, InstalledTargets(n, n.installed, snapshot), forced && !n.isMs);
    }
  }

  /** What the model promises of the nodes: one name per host and per volume group, and a management server that
      is among the nodes given to the driver. */
  ghost predicate WellNamed(nodes: seq<Node>, mses: seq<Node>) {
    && UniqueHosts(nodes)
    && (forall n :: n in nodes ==> UniqueVgNames(n.volumeGroups))
    && (forall m :: m in mses ==> m in nodes && m.isMs && SnapsNoSwap(m.installed))
  }

  lemma {:induction false} ModeledIsChecked(nodes: seq<Node>, mses: seq<Node>, snapshot: string, forced: bool,
      t: Task)
    requires WellNamed(nodes, mses) && t in ModeledTasks(nodes, snapshot, forced) && t.Remove?
    ensures Checked(DataFor(nodes, snapshot), t.host, t.target)
  {
    ModeledRemoveIsOf(nodes, snapshot, forced, t);
    var n :| n in nodes && n.host == t.host && t.target in RemoveTargets(n, snapshot);
    var i :| 0 <= i < |RemoveTargets(n, snapshot)| && RemoveTargets(n, snapshot)[i] == t.target;
    assert SnapsPossible(n, snapshot);
    DataOf(nodes, snapshot, n);
    ModeledTargetIsChecked(n, snapshot, Snappable(n, snapshot)[i]);
  }

  lemma {:induction false} InstalledIsChecked(nodes: seq<Node>, mses: seq<Node>, snapshot: string, forced: bool,
      t: Task)
    requires WellNamed(nodes, mses) && t in InstalledTasks(mses, snapshot, forced) && t.Remove?
    ensures Checked(DataFor(nodes, snapshot), t.host, t.target)
  {
    InstalledRemoveIsOf(mses, snapshot, forced, t);
    var n :| n in mses && n.host == t.host && t.target in InstalledTargets(n, n.installed, snapshot);
    DataOf(nodes, snapshot, n);
    InstalledTargetIsChecked(n, snapshot, t.target);
  }

  /** Every snapshot that any task of the plan would remove is in the data of the merging check. */
  lemma {:induction false} EveryRemovalIsChecked(nodes: seq<Node>, mses: seq<Node>, snapshot: string, forced: bool,
      t: Task)
    requires WellNamed(nodes, mses) && t in RemovePlan(nodes, mses, snapshot, forced) && t.Remove?
    ensures Checked(DataFor(nodes, snapshot), t.host, t.target)
  {
    if t in ModeledTasks(nodes, snapshot, forced) {
      ModeledIsChecked(nodes, mses, snapshot, forced, t);
    } else {
      InstalledIsChecked(nodes, mses, snapshot, forced, t);
    }
  }

  /** Nothing is forgotten: every removal target of every given node has its task. */
  lemma {:induction false} EveryTargetIsRemoved(nodes: seq<Node>, mses: seq<Node>, snapshot: string, forced: bool,
      n: Node, t: Target)
    requires n in nodes && t in RemoveTargets(n, snapshot)
    ensures Remove(n.host, t, forced && !n.isMs) in RemovePlan(nodes, mses, snapshot, forced)
  {
    NodeIsProcessed(nodes, snapshot, forced, n, t);
  }

  lemma {:induction false} NodeIsProcessed(nodes: seq<Node>, snapshot: string, forced: bool, n: Node, t: Target)
    requires n in nodes && t in RemoveTargets(n, snapshot)
    ensures Remove(n.host, t, forced && !n.isMs) in ModeledTasks(nodes, snapshot, forced)
  {
    if n == Last(nodes) {
      var targets := RemoveTargets(n, snapshot);
      var i :| 0 <= i < |targets| && targets[i] == t;
      assert Removes(n.host, targets, forced && !n.isMs)[i] == Remove(n.host, t, forced && !n.isMs);
    } else {
      assert nodes == Front(nodes) + [Last(nodes)];
      NodeIsProcessed(Front(nodes), snapshot, forced, n, t);
    }
  }

  // ---------------------------------------------------------------- the merging check

  /** What a host says when asked about one snapshot. Merging is reported as an error like any other. */
  datatype Answer = NotMerging | Merging | OtherError | NoReply

  datatype Replies = Replies(reachable: string -> bool, answer: (string, string, string) -> Answer)

  /** The answer's errors are keyed by host, and the callback looks for its phrase among the keys. */
  method IsLvmMerging(r: Replies, host: string, vg: string, name: string) returns (raised: bool, merging: bool)
    ensures raised || merging <==> r.answer(host, vg, name) != NotMerging
  {
    raised, merging := false, false;
    match r.answer(host, vg, name)
    case NotMerging =>
    case NoReply =>
      raised := true;
    case _ =>
      if host == "is merging" {
        merging := true;
      } else {
        raised := true;
      }
  }

  predicate AllQuiet(r: Replies, host: string, data: HostData) {
    forall vg, name :: vg in data && name in data[vg] ==> r.answer(host, vg, name) == NotMerging
  }

  predicate Passes(task: Task, r: Replies) {
    match task
    case CheckReachable(hosts) => forall h :: h in hosts ==> r.reachable(h)
    case CheckMerging(data, forced) => forall h :: h in data && (forced ==> r.reachable(h)) ==> AllQuiet(r, h, data[h])
    case _ => true
  }

  method AnyMergingIn(r: Replies, host: string, vg: string, names: seq<string>) returns (raised: bool, merging: bool)
    ensures raised || merging <==> exists name :: name in names && r.answer(host, vg, name) != NotMerging
  {
    raised, merging := false, false;
    var i := 0;
    while i < |names| && !raised
      invariant 0 <= i <= |names|
      invariant raised || merging <==> exists k :: 0 <= k < i && r.answer(host, vg, names[k]) != NotMerging
    {
      var found: bool;
      raised, found := IsLvmMerging(r, host, vg, names[i]);
      merging := merging || found;
      i := i + 1;
    }
  }

  /** Groups of a host in any order. */
  method AnyMergingOn(r: Replies, host: string, data: HostData) returns (raised: bool, merging: bool)
    ensures raised || merging <==> !AllQuiet(r, host, data)
  {
    raised, merging := false, false;
    var left := data.Keys;
    while left != {} && !raised
      invariant left <= data.Keys
      invariant raised || merging <==>
        exists vg, name :: vg in data.Keys - left && name in data[vg] && r.answer(host, vg, name) != NotMerging
    {
      var vg :| vg in left;
      var found: bool;
      raised, found := AnyMergingIn(r, host, vg, data[vg]);
      merging := merging || found;
      left := left - {vg};
    }
  }

  /** Hosts in any order. */
  method CheckRestoresInProgress(r: Replies, data: SnapData, forced: bool) returns (raised: bool)
    ensures !raised <==> Passes(CheckMerging(data, forced), r)
  {
    var hosts := if forced then set h | h in data && r.reachable(h) else data.Keys;
    var left := hosts;
    var anyMerging := false;
    raised := false;
    while left != {} && !raised
      invariant left <= hosts
      invariant raised || anyMerging <==> exists h :: h in hosts - left && !AllQuiet(r, h, data[h])
    {
      var host :| host in left;
      var found: bool;
      raised, found := AnyMergingOn(r, host, data[host]);
      anyMerging := anyMerging || found;
      left := left - {host};
    }
    raised := raised || anyMerging;
  }

  // ---------------------------------------------------------------- no removal past a merging snapshot

  function Rank(task: Task): nat {
    if task.CheckReachable? || task.CheckMerging? then 0 else 1
  }

  /** Whatever the order among equals and whatever the replies, when a removal is executed, the merging check came
      before it, and found quiet every snapshot that the plan removes on the hosts it contacted. */
  lemma {:induction false} NoRemovalPastMerging(nodes: seq<Node>, mses: seq<Node>, snapshot: string, forced: bool,
      plan: seq<Task>, run: Run<Replies>, i: nat) returns (check: nat)
    requires WellNamed(nodes, mses) && Reordered(Rank, plan, RemovePlan(nodes, mses, snapshot, forced))
    requires Faithful(Rank, Passes, run, plan)
    requires i < |plan| && plan[i].Remove? && Executed(run, i)
    ensures check < i
    ensures forall t :: t in plan && t.Remove? && (forced ==> run.replies(check).reachable(t.host)) ==>
      run.replies(check).answer(t.host, t.target.vg, t.target.snapshot) == NotMerging
  {
    var tasks := RemovePlan(nodes, mses, snapshot, forced);
    var data := DataFor(nodes, snapshot);
    assert CheckMerging(data, forced) in tasks;
    check := CheckedBefore(Rank, Passes, plan, tasks, run, CheckMerging(data, forced), i);
    var r := run.replies(check);
    forall t | t in plan && t.Remove? && (forced ==> r.reachable(t.host))
      ensures r.answer(t.host, t.target.vg, t.target.snapshot) == NotMerging
    {
      assert t in multiset(plan);
      EveryRemovalIsChecked(nodes, mses, snapshot, forced, t);
      assert AllQuiet(r, t.host, data[t.host]);
    }
  }

  /** A removal that a forced run sends past an uncontacted host's snapshots is one that pings the host first. */
  lemma {:induction false} ForcedRemovalsPing(nodes: seq<Node>, snapshot: string, t: Task)
    requires t in ModeledTasks(nodes, snapshot, true) && t.Remove?
    ensures t.pinged || exists n :: n in nodes && n.isMs && n.host == t.host
  {
    if t in ModeledTasks(Front(nodes), snapshot, true) {
      ForcedRemovalsPing(Front(nodes), snapshot, t);
    } else {
      var n := Last(nodes);
      assert n == nodes[|nodes| - 1];
      assert t in Removes(n.host, RemoveTargets(n, snapshot), !n.isMs);
    }
  }

  // ---------------------------------------------------------------- what the check misses

  /** A management server outside the nodes given to the driver has its installed snapshots removed unchecked. */
  lemma {:induction false} MsOutsideIsUnchecked(nodes: seq<Node>, ms: Node, snapshot: string, t: Target)
    requires forall n :: n in nodes ==> n.host != ms.host
    requires t in InstalledTargets(ms, ms.installed, snapshot)
    ensures Remove(ms.host, t, false) in RemovePlan(nodes, [ms], snapshot, false)
    ensures !Checked(DataFor(nodes, snapshot), ms.host, t)
  {
    var targets := InstalledTargets(ms, ms.installed, snapshot);
    var i :| 0 <= i < |targets| && targets[i] == t;
    assert Removes(ms.host, targets, false)[i] == Remove(ms.host, t, false);
    assert Front([ms]) == [] && Last([ms]) == ms;
    assert Remove(ms.host, t, false) in InstalledTasks([ms], snapshot, false);
    HostOutside(nodes, snapshot, ms.host);
  }

  lemma {:induction false} HostOutside(nodes: seq<Node>, snapshot: string, host: string)
    requires forall n :: n in nodes ==> n.host != host
    ensures host !in DataFor(nodes, snapshot)
  {
    if nodes != [] {
      assert Last(nodes) == nodes[|nodes| - 1];
      HostOutside(Front(nodes), snapshot, host);
    }
  }
}
