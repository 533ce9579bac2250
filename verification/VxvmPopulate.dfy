/** How the VxVM snapshot data set is built from the model before any node is asked. */
module VxvmPopulate {
  import opened Seqs
  import opened SnapshotNames
  import opened VxvmSnapshotData

  datatype Action = Creating | Removing | Restoring

  /** The snapshot size property is a text: the text 0, or another one with a numeric value. */
  datatype SnapSize = ZeroText | Text(value: real)

  datatype FileSystem = FileSystem(id: FsId, initial: bool, external: bool, snapSize: SnapSize)

  /** `allowed` is the answer of the storage test for this volume group and snapshot name. */
  datatype VolumeGroup = VolumeGroup(
    path: VgPath, name: DiskGroup, initial: bool, allowed: bool, fileSystems: seq<FileSystem>)

  datatype Profile = Profile(initial: bool, volumeGroups: seq<VolumeGroup>)

  datatype NodeItem = NodeItem(host: Host, initial: bool)

  datatype Cluster = Cluster(
    path: string, id: ClusterId, initial: bool, hasVxvm: bool, nodes: seq<NodeItem>, profiles: seq<Profile>)

  type Hosts = map<Host, Reachability>

  // ---------------------------------------------------------------- what goes in

  predicate ByVolmgr(fs: FileSystem) {
    !fs.external && fs.snapSize != ZeroText
  }

  predicate ShouldSnapshot(vg: VolumeGroup, fs: FileSystem) {
    !fs.initial && ByVolmgr(fs) && fs.snapSize.value > 0.0 && vg.allowed
  }

  predicate CanDeleteOrRestore(vg: VolumeGroup, fs: FileSystem) {
    ByVolmgr(fs) && !fs.initial && vg.allowed
  }

  predicate TakenIn(action: Action, vg: VolumeGroup, fs: FileSystem) {
    !fs.initial && if action == Creating then ShouldSnapshot(vg, fs) else CanDeleteOrRestore(vg, fs)
  }

  function FsData(fs: FileSystem, snapshot: string): FileSystemData {
    FileSystemData(GenSnapshotName(fs.id, snapshot), "", Unchecked)
  }

  function FssData(action: Action, snapshot: string, vg: VolumeGroup, fss: seq<FileSystem>): map<FsId, FileSystemData> {
    if fss == [] then map[]
    else
      var before := FssData(action, snapshot, vg, Front(fss));
      if TakenIn(action, vg, Last(fss)) then before[Last(fss).id := FsData(Last(fss), snapshot)] else before
  }

  function VgData(action: Action, snapshot: string, cluster: ClusterId, vg: VolumeGroup): VolumeGroupData {
    VolumeGroupData(cluster, vg.name, Unset, FssData(action, snapshot, vg, vg.fileSystems))
  }

  predicate Listed(action: Action, snapshot: string, vg: VolumeGroup) {
    !vg.initial && FssData(action, snapshot, vg, vg.fileSystems) != map[]
  }

  /** The volume groups of all profiles that are not Initial, in order. */
  function VgsOf(profiles: seq<Profile>): seq<VolumeGroup> {
    if profiles == [] then []
    else VgsOf(Front(profiles)) + if Last(profiles).initial then [] else Last(profiles).volumeGroups
  }

  function WithVgs(already: map<VgPath, VolumeGroupData>, action: Action, snapshot: string, cluster: ClusterId,
                   vgs: seq<VolumeGroup>): map<VgPath, VolumeGroupData>
  {
    if vgs == [] then already
    else
      var before := WithVgs(already, action, snapshot, cluster, Front(vgs));
      if Listed(action, snapshot, Last(vgs)) then before[Last(vgs).path := VgData(action, snapshot, cluster, Last(vgs))]
      else before
  }

  predicate AnyListed(action: Action, snapshot: string, vgs: seq<VolumeGroup>) {
    exists i :: 0 <= i < |vgs| && Listed(action, snapshot, vgs[i])
  }

  function HostsOf(nodes: seq<NodeItem>, excluded: set<Host>): Hosts {
    if nodes == [] then map[]
    else
      var before := HostsOf(Front(nodes), excluded);
      if Last(nodes).initial || Last(nodes).host in excluded then before else before[Last(nodes).host := NotAsked]
  }

  predicate VxvmCluster(c: Cluster) {
    !c.initial && c.hasVxvm
  }

  /** Clusters of the snapshot model that the current model still has, and not as Initial. */
  function Intersection(snapshotModel: seq<Cluster>, current: seq<Cluster>): seq<Cluster> {
    if snapshotModel == [] then []
    else Intersection(Front(snapshotModel), current) + Matches(Last(snapshotModel), current)
  }

  function Matches(c: Cluster, current: seq<Cluster>): seq<Cluster> {
    if current == [] then []
    else Matches(c, Front(current)) + if Last(current).path == c.path && !Last(current).initial then [c] else []
  }

  function Chosen(action: Action, snapshotModel: seq<Cluster>, current: seq<Cluster>): seq<Cluster> {
    Filter(VxvmCluster, if action == Creating then current else Intersection(snapshotModel, current))
  }

  datatype DataSet = DataSet(clusters: map<ClusterId, Hosts>, volumeGroups: map<VgPath, VolumeGroupData>)

  function Populated(action: Action, snapshot: string, chosen: seq<Cluster>, excluded: set<Host>): DataSet {
    if chosen == [] then DataSet(map[], map[])
    else
      var before := Populated(action, snapshot, Front(chosen), excluded);
      var c := Last(chosen);
      var vgs := VgsOf(c.profiles);
      DataSet(
        if AnyListed(action, snapshot, vgs) then before.clusters[c.id := HostsOf(c.nodes, excluded)]
        else before.clusters,
        WithVgs(before.volumeGroups, action, snapshot, c.id, vgs))
  }

  // ---------------------------------------------------------------- the manager fills its dictionaries

  class Populator {
    var clusters: map<ClusterId, Hosts>
    var volumeGroups: map<VgPath, VolumeGroupData>
    const excluded: set<Host>

    constructor (excluded: set<Host>)
      ensures this.excluded == excluded && clusters == map[] && volumeGroups == map[]
    {
      this.excluded := excluded;
      clusters, volumeGroups := map[], map[];
    }

    method CollectFss(action: Action, snapshot: string, vg: VolumeGroup) returns (data: map<FsId, FileSystemData>)
      ensures data == FssData(action, snapshot, vg, vg.fileSystems)
    {
      data := map[];
      var fss := vg.fileSystems;
      var i := 0;
      while i < |fss|
        invariant 0 <= i <= |fss| && data == FssData(action, snapshot, vg, fss[..i])
      {
        var fs := fss[i];
        TakeOneMore(fss, i);
        i := i + 1;
        if fs.initial {
          continue;
        }
        if (action == Creating && !ShouldSnapshot(vg, fs)) || (action != Creating && !CanDeleteOrRestore(vg, fs)) {
          continue;
        }
        data := data[fs.id := FsData(fs, snapshot)];
      }
      assert fss[..i] == fss;
    }

    /** The groups of one profile; `any` says whether one was recorded. */
    method CollectVgs(action: Action, snapshot: string, cluster: ClusterId, vgs: seq<VolumeGroup>) returns (any: bool)
      modifies this`volumeGroups
      ensures volumeGroups == WithVgs(old(volumeGroups), action, snapshot, cluster, vgs)
      ensures any == AnyListed(action, snapshot, vgs)
    {
      any := false;
      var i := 0;
      while i < |vgs|
        invariant 0 <= i <= |vgs|
        invariant volumeGroups == WithVgs(old(volumeGroups), action, snapshot, cluster, vgs[..i])
        invariant any <==> exists k :: 0 <= k < i && Listed(action, snapshot, vgs[k])
      {
        var vg := vgs[i];
        TakeOneMore(vgs, i);
        i := i + 1;
        if vg.initial {
          continue;
        }
        var data := CollectFss(action, snapshot, vg);
        if data != map[] {
          volumeGroups := volumeGroups[vg.path := VolumeGroupData(cluster, vg.name, Unset, data)];
          any := true;
        }
      }
      assert vgs[..i] == vgs;
    }

    method CollectProfiles(action: Action, snapshot: string, c: Cluster) returns (any: bool)
      modifies this`volumeGroups
      ensures volumeGroups == WithVgs(old(volumeGroups), action, snapshot, c.id, VgsOf(c.profiles))
      ensures any == AnyListed(action, snapshot, VgsOf(c.profiles))
    {
      any := false;
      var i := 0;
      while i < |c.profiles|
        invariant 0 <= i <= |c.profiles|
        invariant volumeGroups == WithVgs(old(volumeGroups), action, snapshot, c.id, VgsOf(c.profiles[..i]))
        invariant any == AnyListed(action, snapshot, VgsOf(c.profiles[..i]))
      {
        TakeOneMore(c.profiles, i);
        if !c.profiles[i].initial {
          ghost var before := VgsOf(c.profiles[..i]);
          WithVgsAppend(old(volumeGroups), action, snapshot, c.id, before, c.profiles[i].volumeGroups);
          AnyListedAppend(action, snapshot, before, c.profiles[i].volumeGroups);
          var more := CollectVgs(action, snapshot, c.id, c.profiles[i].volumeGroups);
          any := any || more;
        } else {
          assert VgsOf(c.profiles[..i + 1]) == VgsOf(c.profiles[..i]);
        }
        i := i + 1;
      }
      assert c.profiles[..i] == c.profiles;
    }

    method CollectHosts(nodes: seq<NodeItem>) returns (hosts: Hosts)
      ensures hosts == HostsOf(nodes, excluded)
    {
      hosts := map[];
      var i := 0;
      while i < |nodes|
        invariant 0 <= i <= |nodes| && hosts == HostsOf(nodes[..i], excluded)
      {
        TakeOneMore(nodes, i);
        if !nodes[i].initial && nodes[i].host !in excluded {
          hosts := hosts[nodes[i].host := NotAsked];
        }
        i := i + 1;
      }
      assert nodes[..i] == nodes;
    }

    method Populate(action: Action, snapshot: string, snapshotModel: seq<Cluster>, current: seq<Cluster>)
      requires clusters == map[] && volumeGroups == map[]
      modifies this
      ensures DataSet(clusters, volumeGroups)
        == Populated(action, snapshot, Chosen(action, snapshotModel, current), excluded)
    {
      var chosen := Chosen(action, snapshotModel, current);
      var i := 0;
      while i < |chosen|
        invariant 0 <= i <= |chosen|
        invariant DataSet(clusters, volumeGroups) == Populated(action, snapshot, chosen[..i], excluded)
      {
        TakeOneMore(chosen, i);
        var hosts := CollectHosts(chosen[i].nodes);
        var any := CollectProfiles(action, snapshot, chosen[i]);
        if any {
          clusters := clusters[chosen[i].id := hosts];
        }
        i := i + 1;
      }
      assert chosen[..i] == chosen;
    }
  }

  lemma {:induction false} WithVgsAppend(already: map<VgPath, VolumeGroupData>, action: Action, snapshot: string,
      cluster: ClusterId, a: seq<VolumeGroup>, b: seq<VolumeGroup>)
    ensures WithVgs(already, action, snapshot, cluster, a + b)
      == WithVgs(WithVgs(already, action, snapshot, cluster, a), action, snapshot, cluster, b)
  {
    if b == [] {
      assert a + b == a;
    } else {
      assert Front(a + b) == a + Front(b) && Last(a + b) == Last(b);
      WithVgsAppend(already, action, snapshot, cluster, a, Front(b));
    }
  }

  lemma {:induction false} AnyListedAppend(action: Action, snapshot: string, a: seq<VolumeGroup>, b: seq<VolumeGroup>)
    ensures AnyListed(action, snapshot, a + b) == (AnyListed(action, snapshot, a) || AnyListed(action, snapshot, b))
  {
    if i :| 0 <= i < |a| && Listed(action, snapshot, a[i]) {
      assert (a + b)[i] == a[i];
    }
    if i :| 0 <= i < |b| && Listed(action, snapshot, b[i]) {
      assert (a + b)[|a| + i] == b[i];
    }
    if i :| 0 <= i < |a + b| && Listed(action, snapshot, (a + b)[i]) {
      assert (a + b)[i] == if i < |a| then a[i] else b[i - |a|];
    }
  }

  // ---------------------------------------------------------------- what is in the data set

  /** Paths of volume groups are unique in the model, identifiers of clusters too. */
  ghost predicate UniqueItems(chosen: seq<Cluster>) {
    && (forall i, j :: 0 <= i < j < |chosen| ==> chosen[i].id != chosen[j].id)
    && (forall i :: 0 <= i < |chosen| ==> UniquePaths(VgsOf(chosen[i].profiles)))
    && (forall i, j, v, w ::
          0 <= i < j < |chosen| && v in VgsOf(chosen[i].profiles) && w in VgsOf(chosen[j].profiles) ==>
          v.path != w.path)
  }

  ghost predicate UniquePaths(vgs: seq<VolumeGroup>) {
    forall i, j :: 0 <= i < j < |vgs| ==> vgs[i].path != vgs[j].path
  }

  lemma {:induction false} WithVgsAt(already: map<VgPath, VolumeGroupData>, action: Action, snapshot: string,
      cluster: ClusterId, vgs: seq<VolumeGroup>, p: VgPath)
    ensures (forall v :: v in vgs ==> v.path != p || !Listed(action, snapshot, v)) ==>
      var after := WithVgs(already, action, snapshot, cluster, vgs);
      (p in after <==> p in already) && (p in already ==> after[p] == already[p])
  {
    if vgs != [] {
      assert vgs == Front(vgs) + [Last(vgs)];
      WithVgsAt(already, action, snapshot, cluster, Front(vgs), p);
    }
  }

  lemma {:induction false} WithVgsHas(already: map<VgPath, VolumeGroupData>, action: Action, snapshot: string,
      cluster: ClusterId, vgs: seq<VolumeGroup>, v: VolumeGroup)
    requires UniquePaths(vgs) && v in vgs && Listed(action, snapshot, v)
    ensures var after := WithVgs(already, action, snapshot, cluster, vgs);
      v.path in after && after[v.path] == VgData(action, snapshot, cluster, v)
  {
    if v != Last(vgs) {
      var i :| 0 <= i < |vgs| && vgs[i] == v;
      assert Front(vgs)[i] == v && vgs[i].path != vgs[|vgs| - 1].path;
      WithVgsHas(already, action, snapshot, cluster, Front(vgs), v);
    }
  }

  /** A path is in the data set with the data of the listed volume group that has it, and with no other. */
  ghost predicate Holds(d: DataSet, action: Action, snapshot: string, c: Cluster, v: VolumeGroup) {
    c.id in d.clusters && v.path in d.volumeGroups && d.volumeGroups[v.path] == VgData(action, snapshot, c.id, v)
  }

  lemma {:induction false} LastIsIn(action: Action, snapshot: string, chosen: seq<Cluster>, excluded: set<Host>,
      v: VolumeGroup)
    requires chosen != [] && UniquePaths(VgsOf(Last(chosen).profiles))
    requires v in VgsOf(Last(chosen).profiles) && Listed(action, snapshot, v)
    ensures Holds(Populated(action, snapshot, chosen, excluded), action, snapshot, Last(chosen), v)
  {
    var vgs := VgsOf(Last(chosen).profiles);
    WithVgsHas(Populated(action, snapshot, Front(chosen), excluded).volumeGroups, action, snapshot, Last(chosen).id,
               vgs, v);
    var k :| 0 <= k < |vgs| && vgs[k] == v;
  }

  lemma {:induction false} EarlierStays(action: Action, snapshot: string, chosen: seq<Cluster>, excluded: set<Host>,
      c: Cluster, v: VolumeGroup)
    requires chosen != [] && c.id != Last(chosen).id
    requires Holds(Populated(action, snapshot, Front(chosen), excluded), action, snapshot, c, v)
    requires forall w :: w in VgsOf(Last(chosen).profiles) ==> w.path != v.path
    ensures Holds(Populated(action, snapshot, chosen, excluded), action, snapshot, c, v)
  {
    var before := Populated(action, snapshot, Front(chosen), excluded);
    WithVgsAt(before.volumeGroups, action, snapshot, Last(chosen).id, VgsOf(Last(chosen).profiles), v.path);
  }

  lemma {:induction false} FrontUnique(chosen: seq<Cluster>)
    requires chosen != [] && UniqueItems(chosen)
    ensures UniqueItems(Front(chosen)) && UniquePaths(VgsOf(Last(chosen).profiles))
  {
    assert forall i :: 0 <= i < |chosen| - 1 ==> Front(chosen)[i] == chosen[i];
    assert Last(chosen) == chosen[|chosen| - 1];
  }

  lemma {:induction false} ListedIsIn(action: Action, snapshot: string, chosen: seq<Cluster>, excluded: set<Host>,
      c: Cluster, v: VolumeGroup)
    requires UniqueItems(chosen) && c in chosen && v in VgsOf(c.profiles) && Listed(action, snapshot, v)
    ensures Holds(Populated(action, snapshot, chosen, excluded), action, snapshot, c, v)
  {
    var i :| 0 <= i < |chosen| && chosen[i] == c;
    FrontUnique(chosen);
    if i == |chosen| - 1 {
      LastIsIn(action, snapshot, chosen, excluded, v);
    } else {
      assert Front(chosen)[i] == c;
      assert chosen[i].id != chosen[|chosen| - 1].id;
      ListedIsIn(action, snapshot, Front(chosen), excluded, c, v);
      EarlierStays(action, snapshot, chosen, excluded, c, v);
    }
  }

  lemma {:induction false} InIsListed(action: Action, snapshot: string, chosen: seq<Cluster>, excluded: set<Host>,
      p: VgPath)
    requires p in Populated(action, snapshot, chosen, excluded).volumeGroups
    ensures exists c, v :: c in chosen && v in VgsOf(c.profiles) && v.path == p && Listed(action, snapshot, v)
  {
    var before, last := Populated(action, snapshot, Front(chosen), excluded), Last(chosen);
    var vgs := VgsOf(last.profiles);
    assert last == chosen[|chosen| - 1];
    if forall v :: v in vgs ==> v.path != p || !Listed(action, snapshot, v) {
      WithVgsAt(before.volumeGroups, action, snapshot, last.id, vgs, p);
      InIsListed(action, snapshot, Front(chosen), excluded, p);
    } else {
      var v :| v in vgs && v.path == p && Listed(action, snapshot, v);
    }
  }

  lemma {:induction false} ClusterHasVg(action: Action, snapshot: string, chosen: seq<Cluster>, excluded: set<Host>,
      id: ClusterId)
    requires id in Populated(action, snapshot, chosen, excluded).clusters
    ensures exists c, v :: c in chosen && c.id == id && v in VgsOf(c.profiles) && Listed(action, snapshot, v)
  {
    var last := Last(chosen);
    var vgs := VgsOf(last.profiles);
    assert last == chosen[|chosen| - 1];
    if id == last.id && AnyListed(action, snapshot, vgs) {
      var k :| 0 <= k < |vgs| && Listed(action, snapshot, vgs[k]);
      assert vgs[k] in vgs;
    } else {
      ClusterHasVg(action, snapshot, Front(chosen), excluded, id);
    }
  }

  lemma {:induction false} HostsAreStaying(nodes: seq<NodeItem>, excluded: set<Host>, host: Host)
    ensures host in HostsOf(nodes, excluded) <==>
      host !in excluded && exists n :: n in nodes && !n.initial && n.host == host
  {
    if nodes != [] {
      HostsAreStaying(Front(nodes), excluded, host);
      assert nodes == Front(nodes) + [Last(nodes)];
    }
  }

  lemma {:induction false} NoExcludedHost(action: Action, snapshot: string, chosen: seq<Cluster>, excluded: set<Host>,
      id: ClusterId, host: Host)
    requires host in excluded && id in Populated(action, snapshot, chosen, excluded).clusters
    ensures host !in Populated(action, snapshot, chosen, excluded).clusters[id]
  {
    HostsAreStaying(Last(chosen).nodes, excluded, host);
    if id in Populated(action, snapshot, Front(chosen), excluded).clusters {
      NoExcludedHost(action, snapshot, Front(chosen), excluded, id, host);
    }
  }

  /** The data set is well formed: every volume group has a file system and belongs to a listed cluster, every
      listed cluster has a volume group, and no excluded host is listed. */
  ghost predicate WellFormed(d: DataSet, excluded: set<Host>) {
    && (forall p :: p in d.volumeGroups ==>
          d.volumeGroups[p].fileSystems != map[] && d.volumeGroups[p].cluster in d.clusters)
    && (forall id :: id in d.clusters ==> exists p :: p in d.volumeGroups && d.volumeGroups[p].cluster == id)
    && (forall id :: id in d.clusters ==> d.clusters[id].Keys !! excluded)
  }

  lemma {:induction false} PopulatedIsWellFormed(action: Action, snapshot: string, chosen: seq<Cluster>,
      excluded: set<Host>)
    requires UniqueItems(chosen)
    ensures WellFormed(Populated(action, snapshot, chosen, excluded), excluded)
  {
    var d := Populated(action, snapshot, chosen, excluded);
    forall p | p in d.volumeGroups
      ensures d.volumeGroups[p].fileSystems != map[] && d.volumeGroups[p].cluster in d.clusters
    {
      InIsListed(action, snapshot, chosen, excluded, p);
      var c, v :| c in chosen && v in VgsOf(c.profiles) && v.path == p && Listed(action, snapshot, v);
      ListedIsIn(action, snapshot, chosen, excluded, c, v);
    }
    forall id | id in d.clusters ensures exists p :: p in d.volumeGroups && d.volumeGroups[p].cluster == id {
      ClusterHasVg(action, snapshot, chosen, excluded, id);
      var c, v :| c in chosen && c.id == id && v in VgsOf(c.profiles) && Listed(action, snapshot, v);
      ListedIsIn(action, snapshot, chosen, excluded, c, v);
    }
    forall id, host | id in d.clusters && host in excluded ensures host !in d.clusters[id] {
      NoExcludedHost(action, snapshot, chosen, excluded, id, host);
    }
  }

  // ---------------------------------------------------------------- creation and removal agree

  /** A size that is not the text 0 but is not positive either: kept from creation, not from removal. */
  predicate Awkward(vg: VolumeGroup, fs: FileSystem) {
    CanDeleteOrRestore(vg, fs) && fs.snapSize.value <= 0.0
  }

  lemma {:induction false} FssAgree(snapshot: string, vg: VolumeGroup, fss: seq<FileSystem>, action: Action)
    requires action != Creating && forall i :: 0 <= i < |fss| ==> !Awkward(vg, fss[i])
    ensures FssData(Creating, snapshot, vg, fss) == FssData(action, snapshot, vg, fss)
  {
    if fss != [] {
      FssAgree(snapshot, vg, Front(fss), action);
      assert Last(fss) == fss[|fss| - 1];
    }
  }

  lemma {:induction false} FssHas(snapshot: string, vg: VolumeGroup, fss: seq<FileSystem>, action: Action, id: FsId)
    ensures id in FssData(action, snapshot, vg, fss) <==>
      exists fs :: fs in fss && fs.id == id && TakenIn(action, vg, fs)
  {
    if fss != [] {
      FssHas(snapshot, vg, Front(fss), action, id);
      assert fss == Front(fss) + [Last(fss)];
    }
  }

  ghost predicate NoneAwkward(chosen: seq<Cluster>) {
    forall c, v, fs :: c in chosen && v in VgsOf(c.profiles) && !v.initial && fs in v.fileSystems ==> !Awkward(v, fs)
  }

  lemma {:induction false} VgsAgree(a: map<VgPath, VolumeGroupData>, snapshot: string, cluster: ClusterId,
      vgs: seq<VolumeGroup>, action: Action)
    requires action != Creating
    requires forall v, fs :: v in vgs && !v.initial && fs in v.fileSystems ==> !Awkward(v, fs)
    ensures WithVgs(a, Creating, snapshot, cluster, vgs) == WithVgs(a, action, snapshot, cluster, vgs)
    ensures AnyListed(Creating, snapshot, vgs) == AnyListed(action, snapshot, vgs)
  {
    forall i | 0 <= i < |vgs| && !vgs[i].initial
      ensures VgData(Creating, snapshot, cluster, vgs[i]) == VgData(action, snapshot, cluster, vgs[i])
    {
      FssAgree(snapshot, vgs[i], vgs[i].fileSystems, action);
    }
    assert forall i :: 0 <= i < |vgs| ==> Listed(Creating, snapshot, vgs[i]) == Listed(action, snapshot, vgs[i]);
    if vgs != [] {
      assert Last(vgs) == vgs[|vgs| - 1];
      VgsAgree(a, snapshot, cluster, Front(vgs), action);
    }
  }

  lemma {:induction false} ClustersAgree(snapshot: string, chosen: seq<Cluster>, excluded: set<Host>, action: Action)
    requires action != Creating && NoneAwkward(chosen)
    ensures Populated(Creating, snapshot, chosen, excluded) == Populated(action, snapshot, chosen, excluded)
  {
    if chosen != [] {
      var last := Last(chosen);
      assert last == chosen[|chosen| - 1];
      ClustersAgree(snapshot, Front(chosen), excluded, action);
      VgsAgree(Populated(Creating, snapshot, Front(chosen), excluded).volumeGroups, snapshot, last.id,
               VgsOf(last.profiles), action);
    }
  }

  ghost predicate DistinctPaths(clusters: seq<Cluster>) {
    forall i, j :: 0 <= i < j < |clusters| ==> clusters[i].path != clusters[j].path
  }

  ghost predicate HasPath(clusters: seq<Cluster>, path: string) {
    exists i :: 0 <= i < |clusters| && clusters[i].path == path && !clusters[i].initial
  }

  lemma {:induction false} NoMatch(c: Cluster, current: seq<Cluster>)
    requires !HasPath(current, c.path)
    ensures Matches(c, current) == []
  {
    if current != [] {
      assert Last(current) == current[|current| - 1];
      assert forall i :: 0 <= i < |current| - 1 ==> Front(current)[i] == current[i];
      NoMatch(c, Front(current));
    }
  }

  lemma {:induction false} MatchesItself(c: Cluster, current: seq<Cluster>, i: nat)
    requires DistinctPaths(current) && i < |current| && current[i].path == c.path && !current[i].initial
    ensures Matches(c, current) == [c]
  {
    if i == |current| - 1 {
      assert forall k :: 0 <= k < |current| - 1 ==> Front(current)[k] == current[k];
      NoMatch(c, Front(current));
    } else {
      assert Front(current)[i] == current[i] && current[i].path != current[|current| - 1].path;
      MatchesItself(c, Front(current), i);
    }
  }

  predicate Staying(c: Cluster) {
    !c.initial
  }

  /** On an unchanged model the intersection keeps exactly the clusters that are not Initial. */
  lemma {:induction false} UnchangedModel(current: seq<Cluster>, n: nat)
    requires DistinctPaths(current) && n <= |current|
    ensures Intersection(current[..n], current) == Filter(Staying, current[..n])
  {
    if n > 0 {
      var c := current[n - 1];
      TakeOneMore(current, n - 1);
      UnchangedModel(current, n - 1);
      FilterOne(Staying, current[..n - 1], c);
      if c.initial {
        assert forall k :: 0 <= k < |current| && current[k].path == c.path ==> k == n - 1;
        NoMatch(c, current);
      } else {
        MatchesItself(c, current, n - 1);
      }
    }
  }

  lemma {:induction false} StayingFirst(clusters: seq<Cluster>)
    ensures Filter(VxvmCluster, Filter(Staying, clusters)) == Filter(VxvmCluster, clusters)
  {
    if clusters != [] {
      StayingFirst(Front(clusters));
      if !Last(clusters).initial {
        FilterOne(VxvmCluster, Filter(Staying, Front(clusters)), Last(clusters));
      } else {
        assert Filter(Staying, clusters) == Filter(Staying, Front(clusters));
      }
    }
  }

  function FsIdOf(fs: FileSystem): FsId {
    fs.id
  }

  /** On an unchanged model, creation and removal or restore see the same volume groups, file systems and snapshot
      names, and the same clusters and hosts, exactly when no file system has an awkward size. */
  lemma {:induction false} CreationAndRemovalAgree(snapshot: string, model: seq<Cluster>, excluded: set<Host>,
      action: Action)
    requires action != Creating && UniqueItems(Chosen(Creating, model, model))
    requires DistinctPaths(model)
    requires forall c, v :: c in model && v in VgsOf(c.profiles) ==> DistinctBy(FsIdOf, v.fileSystems)
    ensures Chosen(action, model, model) == Chosen(Creating, model, model)
    ensures NoneAwkward(Chosen(Creating, model, model)) <==>
      (Populated(Creating, snapshot, Chosen(Creating, model, model), excluded)
        == Populated(action, snapshot, Chosen(action, model, model), excluded))
  {
    var chosen := Chosen(Creating, model, model);
    UnchangedModel(model, |model|);
    StayingFirst(model);
    assert model[..|model|] == model;
    if NoneAwkward(chosen) {
      ClustersAgree(snapshot, chosen, excluded, action);
    } else {
      var c, v, fs :| c in chosen && v in VgsOf(c.profiles) && !v.initial && fs in v.fileSystems && Awkward(v, fs);
      FilterMembers(VxvmCluster, model, c);
      AwkwardTellsApart(snapshot, chosen, excluded, action, c, v, fs);
    }
  }

  lemma {:induction false} AwkwardTellsApart(snapshot: string, chosen: seq<Cluster>, excluded: set<Host>,
      action: Action, c: Cluster, v: VolumeGroup, fs: FileSystem)
    requires action != Creating && UniqueItems(chosen) && DistinctBy(FsIdOf, v.fileSystems)
    requires c in chosen && v in VgsOf(c.profiles) && !v.initial && fs in v.fileSystems && Awkward(v, fs)
    ensures Populated(Creating, snapshot, chosen, excluded) != Populated(action, snapshot, chosen, excluded)
  {
    FssHas(snapshot, v, v.fileSystems, action, fs.id);
    FssHas(snapshot, v, v.fileSystems, Creating, fs.id);
    assert TakenIn(action, v, fs) && !TakenIn(Creating, v, fs);
    forall other | other in v.fileSystems && other.id == fs.id ensures other == fs {
      var i :| 0 <= i < |v.fileSystems| && v.fileSystems[i] == other;
      var j :| 0 <= j < |v.fileSystems| && v.fileSystems[j] == fs;
    }
    ListedIsIn(action, snapshot, chosen, excluded, c, v);
    var created := Populated(Creating, snapshot, chosen, excluded);
    if v.path in created.volumeGroups {
      InIsListed(Creating, snapshot, chosen, excluded, v.path);
      var d, w :| d in chosen && w in VgsOf(d.profiles) && w.path == v.path && Listed(Creating, snapshot, w);
      SamePathSameVg(chosen, c, v, d, w);
      ListedIsIn(Creating, snapshot, chosen, excluded, d, w);
    }
  }

  lemma {:induction false} SamePathSameVg(chosen: seq<Cluster>, c: Cluster, v: VolumeGroup, d: Cluster, w: VolumeGroup)
    requires UniqueItems(chosen) && c in chosen && d in chosen && v.path == w.path
    requires v in VgsOf(c.profiles) && w in VgsOf(d.profiles)
    ensures c == d && v == w
  {
    var i :| 0 <= i < |chosen| && chosen[i] == c;
    var j :| 0 <= j < |chosen| && chosen[j] == d;
    assert i == j;
    var vgs := VgsOf(c.profiles);
    var k :| 0 <= k < |vgs| && vgs[k] == v;
    var l :| 0 <= l < |vgs| && vgs[l] == w;
  }
}
