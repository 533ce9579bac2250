/** The restarts that end a deployment restore: cluster after cluster, each waited for, the management servers
    last. A plan is executed serially; nodes that were restarted come back whenever they like. */
module RebootPlan {
  import opened Seqs

  datatype Node = Node(host: string, isMs: bool, initial: bool)

  /** `devices` says of each physical device whether the group's system knows a disk of its name. */
  datatype VolumeGroup = VolumeGroup(initial: bool, fileSystems: nat, hasSystem: bool, devices: seq<bool>)

  datatype Cluster = Cluster(id: string, initial: bool, nodes: seq<Node>, volumeGroups: seq<VolumeGroup>)

  /** `ordered` is absent when the dependencies of the clusters cannot be ordered. */
  datatype Deployment = Deployment(clusters: seq<Cluster>, ordered: Option<seq<Cluster>>)

  datatype Task =
    | RestartNodes(hosts: seq<string>)
    | WaitForNode(host: string)
    | RestartAndWait(hosts: seq<string>)
    | RestartMs(host: string)

  // ---------------------------------------------------------------- what is restarted

  predicate UsesDisk(vg: VolumeGroup) {
    !vg.initial && vg.fileSystems > 0 && vg.hasSystem && true in vg.devices
  }

  predicate ShouldReboot(cluster: Cluster) {
    exists vg :: vg in cluster.volumeGroups && UsesDisk(vg)
  }

  predicate Selected(cluster: Cluster) {
    !cluster.initial && ShouldReboot(cluster)
  }

  predicate Rebooted(node: Node) {
    !node.isMs && !node.initial
  }

  function HostOf(node: Node): string {
    node.host
  }

  function RebootHosts(cluster: Cluster): seq<string> {
    Map(HostOf, Filter(Rebooted, cluster.nodes))
  }

  function Wait(host: string): Task {
    WaitForNode(host)
  }

  function ClusterTasks(cluster: Cluster, forced: bool): seq<Task> {
    var hosts := RebootHosts(cluster);
    if forced then [RestartAndWait(hosts)] else [RestartNodes(hosts)] + Map(Wait, hosts)
  }

  function ClustersTasks(clusters: seq<Cluster>, forced: bool): seq<Task> {
    if clusters == [] then []
    else
      ClustersTasks(Front(clusters), forced)
      + if Selected(Last(clusters)) then ClusterTasks(Last(clusters), forced) else []
  }

  function InOrder(d: Deployment): seq<Cluster> {
    if d.ordered.Some? then d.ordered.value else d.clusters
  }

  function PeerTasks(deployments: seq<Deployment>, forced: bool): seq<Task> {
    if deployments == [] then []
    else PeerTasks(Front(deployments), forced) + ClustersTasks(InOrder(Last(deployments)), forced)
  }

  function Ms(host: string): Task {
    RestartMs(host)
  }

  function Plan(deployments: seq<Deployment>, mses: seq<string>, forced: bool): seq<Task> {
    PeerTasks(deployments, forced) + Map(Ms, mses)
  }

  // ---------------------------------------------------------------- the planner

  method ShouldClusterReboot(cluster: Cluster) returns (foundDisk: bool)
    ensures foundDisk == ShouldReboot(cluster)
  {
    foundDisk := false;
    var i := 0;
    while i < |cluster.volumeGroups|
      invariant 0 <= i <= |cluster.volumeGroups| && !foundDisk
      invariant forall vg :: vg in cluster.volumeGroups[..i] ==> !UsesDisk(vg)
    {
      var vg := cluster.volumeGroups[i];
      TakeOneMore(cluster.volumeGroups, i);
      i := i + 1;
      if vg.initial || vg.fileSystems == 0 {
        continue;
      }
      if vg.hasSystem {
        var k := 0;
        while k < |vg.devices|
          invariant 0 <= k <= |vg.devices| && (foundDisk <==> true in vg.devices[..k])
        {
          if vg.devices[k] {
            foundDisk := true;
            break;
          }
          k := k + 1;
        }
        assert k == |vg.devices| ==> vg.devices[..k] == vg.devices;
      }
      if foundDisk {
        assert UsesDisk(vg) && vg in cluster.volumeGroups;
        return;
      }
    }
    assert cluster.volumeGroups[..i] == cluster.volumeGroups;
  }

  method GenTasksForClusterReboot(cluster: Cluster, forced: bool) returns (tasks: seq<Task>)
    ensures tasks == ClusterTasks(cluster, forced)
  {
    var hosts := RebootHosts(cluster);
    if !forced {
      tasks := [RestartNodes(hosts)];
      var i := 0;
      while i < |hosts|
        invariant 0 <= i <= |hosts| && tasks == [RestartNodes(hosts)] + Map(Wait, hosts[..i])
      {
        TakeOneMore(hosts, i);
        tasks := tasks + [WaitForNode(hosts[i])];
        i := i + 1;
      }
      assert hosts[..i] == hosts;
    } else {
      tasks := [RestartAndWait(hosts)];
    }
  }

  method GenTasksForDeployment(d: Deployment, forced: bool) returns (tasks: seq<Task>)
    ensures tasks == ClustersTasks(InOrder(d), forced)
  {
    tasks := [];
    var clusters := d.clusters;
    if d.ordered.Some? {
      clusters := d.ordered.value;
    }
    var i := 0;
    while i < |clusters|
      invariant 0 <= i <= |clusters| && tasks == ClustersTasks(clusters[..i], forced)
    {
      TakeOneMore(clusters, i);
      if !clusters[i].initial {
        var reboot := ShouldClusterReboot(clusters[i]);
        if reboot {
          var more := GenTasksForClusterReboot(clusters[i], forced);
          tasks := tasks + more;
        }
      }
      i := i + 1;
    }
    assert clusters[..i] == clusters;
  }

  method GenTasksForDeployments(deployments: seq<Deployment>, forced: bool) returns (tasks: seq<Task>)
    ensures tasks == PeerTasks(deployments, forced)
  {
    tasks := [];
    var i := 0;
    while i < |deployments|
      invariant 0 <= i <= |deployments| && tasks == PeerTasks(deployments[..i], forced)
    {
      TakeOneMore(deployments, i);
      var more := GenTasksForDeployment(deployments[i], forced);
      tasks := tasks + more;
      i := i + 1;
    }
    assert deployments[..i] == deployments;
  }

  method GenTasksForMses(mses: seq<string>) returns (tasks: seq<Task>)
    ensures tasks == Map(Ms, mses)
  {
    tasks := [];
    var k := 0;
    while k < |mses|
      invariant 0 <= k <= |mses| && tasks == Map(Ms, mses[..k])
    {
      TakeOneMore(mses, k);
      tasks := tasks + [RestartMs(mses[k])];
      k := k + 1;
    }
    assert mses[..k] == mses;
  }

  method GenTasks(deployments: seq<Deployment>, mses: seq<string>, forced: bool) returns (tasks: seq<Task>)
    ensures tasks == Plan(deployments, mses, forced)
  {
    var peers := GenTasksForDeployments(deployments, forced);
    var restarts := GenTasksForMses(mses);
    tasks := peers + restarts;
  }

  // ---------------------------------------------------------------- who, how often, in which order

  function SelectedHosts(clusters: seq<Cluster>): seq<string> {
    if clusters == [] then []
    else SelectedHosts(Front(clusters)) + if Selected(Last(clusters)) then RebootHosts(Last(clusters)) else []
  }

  function AllHosts(deployments: seq<Deployment>): seq<string> {
    if deployments == [] then [] else AllHosts(Front(deployments)) + SelectedHosts(InOrder(Last(deployments)))
  }

  function RestartsOf(task: Task): seq<string> {
    match task
    case RestartNodes(hosts) => hosts
    case RestartAndWait(hosts) => hosts
    case _ => []
  }

  function WaitsOf(task: Task): seq<string> {
    match task
    case WaitForNode(host) => [host]
    case RestartAndWait(hosts) => hosts
    case _ => []
  }

  /** Every restart of a peer in the plan, in order. */
  function Restarts(tasks: seq<Task>): seq<string> {
    Flatten(Map(RestartsOf, tasks))
  }

  /** Every wait for a peer in the plan, in order. */
  function Waits(tasks: seq<Task>): seq<string> {
    Flatten(Map(WaitsOf, tasks))
  }

  lemma {:induction false} JoinAppend(a: seq<Task>, b: seq<Task>)
    ensures Restarts(a + b) == Restarts(a) + Restarts(b)
    ensures Waits(a + b) == Waits(a) + Waits(b)
  {
    MapAppend(RestartsOf, a, b);
    MapAppend(WaitsOf, a, b);
    FlattenAppend(Map(RestartsOf, a), Map(RestartsOf, b));
    FlattenAppend(Map(WaitsOf, a), Map(WaitsOf, b));
  }

  lemma {:induction false} JoinOne(task: Task)
    ensures Restarts([task]) == RestartsOf(task) && Waits([task]) == WaitsOf(task)
  {
    assert Map(RestartsOf, [task]) == [] + [RestartsOf(task)] && Map(WaitsOf, [task]) == [] + [WaitsOf(task)];
    FlattenOne([], RestartsOf(task));
    FlattenOne([], WaitsOf(task));
  }

  lemma {:induction false} WaitsOfAll(hosts: seq<string>)
    ensures Waits(Map(Wait, hosts)) == hosts && Restarts(Map(Wait, hosts)) == []
  {
    if hosts != [] {
      var front, last := Front(hosts), Last(hosts);
      WaitsOfAll(front);
      JoinAppend(Map(Wait, front), [WaitForNode(last)]);
      JoinOne(WaitForNode(last));
      assert Map(Wait, hosts) == Map(Wait, front) + [WaitForNode(last)];
      assert hosts == front + [last] && [] + RestartsOf(WaitForNode(last)) == [];
    }
  }

  lemma {:induction false} ClusterOnce(cluster: Cluster, forced: bool)
    ensures Restarts(ClusterTasks(cluster, forced)) == RebootHosts(cluster) == Waits(ClusterTasks(cluster, forced))
  {
    var hosts := RebootHosts(cluster);
    if forced {
      JoinOne(RestartAndWait(hosts));
    } else {
      JoinAppend([RestartNodes(hosts)], Map(Wait, hosts));
      JoinOne(RestartNodes(hosts));
      WaitsOfAll(hosts);
    }
  }

  lemma {:induction false} ClustersOnce(clusters: seq<Cluster>, forced: bool)
    ensures Restarts(ClustersTasks(clusters, forced)) == SelectedHosts(clusters)
    ensures SelectedHosts(clusters) == Waits(ClustersTasks(clusters, forced))
  {
    if clusters != [] {
      ClustersOnce(Front(clusters), forced);
      if Selected(Last(clusters)) {
        ClusterOnce(Last(clusters), forced);
        JoinAppend(ClustersTasks(Front(clusters), forced), ClusterTasks(Last(clusters), forced));
      } else {
        assert ClustersTasks(clusters, forced) == ClustersTasks(Front(clusters), forced);
      }
    }
  }

  /** Restarts and waits both go through the nodes of the selected clusters once each, in the clusters' order. */
  lemma {:induction false} EachNodeOnceInOrder(deployments: seq<Deployment>, forced: bool)
    ensures Restarts(PeerTasks(deployments, forced)) == AllHosts(deployments) == Waits(PeerTasks(deployments, forced))
  {
    if deployments != [] {
      EachNodeOnceInOrder(Front(deployments), forced);
      ClustersOnce(InOrder(Last(deployments)), forced);
      JoinAppend(PeerTasks(Front(deployments), forced), ClustersTasks(InOrder(Last(deployments)), forced));
    }
  }

  lemma {:induction false} SelectedHostsMembers(clusters: seq<Cluster>, host: string)
    ensures host in SelectedHosts(clusters) <==>
      exists c, n :: c in clusters && Selected(c) && n in c.nodes && Rebooted(n) && n.host == host
  {
    if clusters != [] {
      var last := Last(clusters);
      SelectedHostsMembers(Front(clusters), host);
      RebootHostsMembers(last, host);
      assert clusters == Front(clusters) + [last];
      if host in SelectedHosts(clusters) && host !in SelectedHosts(Front(clusters)) {
        var n :| n in last.nodes && Rebooted(n) && n.host == host;
        assert last in clusters && Selected(last);
      }
    }
  }

  lemma {:induction false} RebootHostsMembers(cluster: Cluster, host: string)
    ensures host in RebootHosts(cluster) <==> exists n :: n in cluster.nodes && Rebooted(n) && n.host == host
  {
    var nodes := Filter(Rebooted, cluster.nodes);
    if host in RebootHosts(cluster) {
      var i :| 0 <= i < |nodes| && RebootHosts(cluster)[i] == host;
      FilterMembers(Rebooted, cluster.nodes, nodes[i]);
    }
    if n :| n in cluster.nodes && Rebooted(n) && n.host == host {
      FilterMembers(Rebooted, cluster.nodes, n);
      var i :| 0 <= i < |nodes| && nodes[i] == n;
      assert RebootHosts(cluster)[i] == host;
    }
  }

  // ---------------------------------------------------------------- one execution

  /** Which restarted nodes are down after each task: a restart takes its nodes down, a wait that succeeds means
      its node is back, and any node may come back at any time. */
  ghost predicate Follows(task: Task, before: set<string>, after: set<string>) {
    match task
    case RestartNodes(hosts) => after <= before + set h | h in hosts
    case WaitForNode(host) => after <= before - {host}
    case RestartAndWait(hosts) => after <= before - set h | h in hosts
    case RestartMs(host) => after <= before + {host}
  }

  /** The states before each executed task, starting with every node up; the run may stop at any task. */
  ghost predicate Execution(tasks: seq<Task>, down: seq<set<string>>) {
    && 0 < |down| <= |tasks| + 1 && down[0] == {}
    && forall i :: 0 <= i < |down| - 1 ==> Follows(tasks[i], down[i], down[i + 1])
  }

  /** Of the nodes restarted by the first `n` tasks, those not waited for since. */
  ghost function Owed(tasks: seq<Task>): set<string> {
    if tasks == [] then {}
    else match Last(tasks)
      case RestartNodes(hosts) => Owed(Front(tasks)) + set h | h in hosts
      case WaitForNode(host) => Owed(Front(tasks)) - {host}
      case RestartAndWait(hosts) => Owed(Front(tasks)) - set h | h in hosts
      case RestartMs(host) => Owed(Front(tasks)) + {host}
  }

  lemma {:induction false} DownIsOwed(tasks: seq<Task>, down: seq<set<string>>, i: nat)
    requires Execution(tasks, down) && i < |down|
    ensures down[i] <= Owed(tasks[..i])
  {
    if i > 0 {
      DownIsOwed(tasks, down, i - 1);
      TakeOneMore(tasks, i - 1);
      assert Follows(tasks[i - 1], down[i - 1], down[i - 1 + 1]);
    }
  }

  lemma {:induction false} WaitsClear(tasks: seq<Task>, hosts: seq<string>)
    ensures Owed(tasks + Map(Wait, hosts)) == Owed(tasks) - set h | h in hosts
  {
    if hosts == [] {
      assert tasks + Map(Wait, hosts) == tasks;
    } else {
      var all := tasks + Map(Wait, hosts);
      assert Front(all) == tasks + Map(Wait, Front(hosts)) && Last(all) == WaitForNode(Last(hosts));
      WaitsClear(tasks, Front(hosts));
      assert hosts == Front(hosts) + [Last(hosts)];
    }
  }

  /** After a whole cluster nothing more is owed than before it. */
  lemma {:induction false} ClusterSettles(tasks: seq<Task>, cluster: Cluster, forced: bool)
    requires Owed(tasks) == {}
    ensures Owed(tasks + ClusterTasks(cluster, forced)) == {}
  {
    var hosts := RebootHosts(cluster);
    if forced {
      assert Front(tasks + [RestartAndWait(hosts)]) == tasks;
    } else {
      var restarted := tasks + [RestartNodes(hosts)];
      assert Front(restarted) == tasks;
      WaitsClear(restarted, hosts);
      assert restarted + Map(Wait, hosts) == tasks + ClusterTasks(cluster, forced);
    }
  }

  /** Where a cluster's restart stands in the plan, everything before it is a settled plan of earlier clusters. */
  ghost predicate SettledBefore(tasks: seq<Task>) {
    && Owed(tasks) == {}
    && forall i :: 0 <= i < |tasks| && (tasks[i].RestartNodes? || tasks[i].RestartAndWait?) ==> Owed(tasks[..i]) == {}
  }

  lemma {:induction false} OnlyFirstRestarts(cluster: Cluster, forced: bool)
    ensures forall k :: 0 < k < |ClusterTasks(cluster, forced)| ==> ClusterTasks(cluster, forced)[k].WaitForNode?
  {
  }

  lemma {:induction false} ClusterKeepsSettled(tasks: seq<Task>, cluster: Cluster, forced: bool)
    requires SettledBefore(tasks)
    ensures SettledBefore(tasks + ClusterTasks(cluster, forced))
  {
    var more := ClusterTasks(cluster, forced);
    ClusterSettles(tasks, cluster, forced);
    OnlyFirstRestarts(cluster, forced);
    var all := tasks + more;
    forall i | 0 <= i < |all| && (all[i].RestartNodes? || all[i].RestartAndWait?) ensures Owed(all[..i]) == {} {
      if i < |tasks| {
        assert all[..i] == tasks[..i];
      } else if i == |tasks| {
        assert all[..i] == tasks;
      }
    }
  }

  lemma {:induction false} ClustersKeepSettled(tasks: seq<Task>, clusters: seq<Cluster>, forced: bool)
    requires SettledBefore(tasks)
    ensures SettledBefore(tasks + ClustersTasks(clusters, forced))
  {
    if clusters == [] {
      assert tasks + [] == tasks;
    } else {
      var before := ClustersTasks(Front(clusters), forced);
      ClustersKeepSettled(tasks, Front(clusters), forced);
      if Selected(Last(clusters)) {
        ClusterKeepsSettled(tasks + before, Last(clusters), forced);
        Regroup(tasks, before, ClusterTasks(Last(clusters), forced));
      } else {
        assert ClustersTasks(clusters, forced) == before;
      }
    }
  }

  lemma {:induction false} PeersSettle(deployments: seq<Deployment>, forced: bool)
    ensures SettledBefore(PeerTasks(deployments, forced))
  {
    if deployments != [] {
      PeersSettle(Front(deployments), forced);
      ClustersKeepSettled(PeerTasks(Front(deployments), forced), InOrder(Last(deployments)), forced);
    }
  }

  lemma {:induction false} MsesOwed(peers: seq<Task>, mses: seq<string>)
    requires Owed(peers) == {}
    ensures Owed(peers + Map(Ms, mses)) == set h | h in mses
  {
    if mses == [] {
      assert peers + Map(Ms, mses) == peers;
    } else {
      var all := peers + Map(Ms, mses);
      assert Front(all) == peers + Map(Ms, Front(mses)) && Last(all) == RestartMs(Last(mses));
      MsesOwed(peers, Front(mses));
      assert mses == Front(mses) + [Last(mses)];
    }
  }

  ghost predicate Restarting(task: Task) {
    task.RestartNodes? || task.RestartAndWait?
  }

  lemma {:induction false} OwedAtPeers(deployments: seq<Deployment>, mses: seq<string>, forced: bool, i: nat)
    requires i < |PeerTasks(deployments, forced)|
    ensures var plan := Plan(deployments, mses, forced);
      Restarting(plan[i]) ==> Owed(plan[..i]) == {}
  {
    var plan, peers := Plan(deployments, mses, forced), PeerTasks(deployments, forced);
    PeersSettle(deployments, forced);
    assert plan[..i] == peers[..i] && plan[i] == peers[i];
  }

  lemma {:induction false} PrefixOfSum<T>(a: seq<T>, b: seq<T>, k: nat)
    requires k < |b|
    ensures (a + b)[..|a| + k] == a + b[..k] && (a + b)[|a| + k] == b[k]
  {
  }

  lemma {:induction false} OwedAtMses(peers: seq<Task>, mses: seq<string>, k: nat)
    requires k < |mses| && Owed(peers) == {}
    ensures var plan := peers + Map(Ms, mses);
      plan[|peers| + k] == RestartMs(mses[k]) && Owed(plan[..|peers| + k]) == set h | h in mses[..k]
  {
    MapPrefix(Ms, mses, k);
    PrefixOfSum(peers, Map(Ms, mses), k);
    MsesOwed(peers, mses[..k]);
  }

  /** On every execution, a cluster is restarted only while no node at all is down, and a management server only
      when no restarted peer is. */
  lemma {:induction false} NoOverlap(deployments: seq<Deployment>, mses: seq<string>, forced: bool,
      down: seq<set<string>>, i: nat)
    requires Execution(Plan(deployments, mses, forced), down) && i < |down| && i < |Plan(deployments, mses, forced)|
    ensures var task := Plan(deployments, mses, forced)[i];
      && (Restarting(task) ==> down[i] == {})
      && (task.RestartMs? ==> down[i] <= set h | h in mses)
  {
    var plan, peers := Plan(deployments, mses, forced), PeerTasks(deployments, forced);
    DownIsOwed(plan, down, i);
    if i < |peers| {
      OwedAtPeers(deployments, mses, forced, i);
      NoMsAmongPeers(deployments, forced);
      assert peers[i] in peers;
    } else {
      PeersSettle(deployments, forced);
      OwedAtMses(peers, mses, i - |peers|);
    }
  }

  lemma {:induction false} NoMsAmongClusters(clusters: seq<Cluster>, forced: bool)
    ensures forall t :: t in ClustersTasks(clusters, forced) ==> !t.RestartMs?
  {
    if clusters != [] {
      NoMsAmongClusters(Front(clusters), forced);
    }
  }

  lemma {:induction false} NoMsAmongPeers(deployments: seq<Deployment>, forced: bool)
    ensures forall t :: t in PeerTasks(deployments, forced) ==> !t.RestartMs?
  {
    if deployments != [] {
      NoMsAmongPeers(Front(deployments), forced);
      NoMsAmongClusters(InOrder(Last(deployments)), forced);
    }
  }

  /** The peers' tasks all come before the management servers', so a stable reordering by tag changes nothing. */
  lemma {:induction false} AlreadyInTagOrder(deployments: seq<Deployment>, mses: seq<string>, forced: bool, i: nat,
      j: nat)
    requires i < j < |Plan(deployments, mses, forced)| && Plan(deployments, mses, forced)[i].RestartMs?
    ensures Plan(deployments, mses, forced)[j].RestartMs?
  {
    var peers := PeerTasks(deployments, forced);
    NoMsAmongPeers(deployments, forced);
    assert forall k :: 0 <= k < |peers| ==> !peers[k].RestartMs?;
    assert i >= |peers|;
  }
}
