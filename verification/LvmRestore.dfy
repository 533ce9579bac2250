/** Restoring the deployment snapshots: two checks stand before every merge when a node can have snapshots. The plan is
    executed serially, after a reordering that puts validation tasks first, and stops at the first task that fails. */
module LvmRestore {
  import opened Seqs
  import opened SnapshotNames
  import opened LvmInstalled
  import opened LvmTargets
  import opened SnapshotPlan

  datatype Host = Host(name: string, isMs: bool)

  datatype Task =
    | CheckPresent(hosts: seq<Host>, expected: map<string, seq<string>>)
    | CheckValid(nodes: seq<string>, expected: map<string, seq<string>>, forced: bool)
    | Merge(host: string, target: Target, forced: bool)
    | RestoreGrub(host: string, forced: bool)

  // ---------------------------------------------------------------- the plan

  function Merges(host: string, targets: seq<Target>, forced: bool): (r: seq<Task>)
    ensures |r| == |targets| && forall i :: 0 <= i < |r| ==> r[i] == Merge(host, targets[i], forced)
  {
    if targets == [] then [] else Merges(host, Front(targets), forced) + [Merge(host, Last(targets), forced)]
  }

  function NodeTasks(node: Node, includeGrub: bool, forced: bool): seq<Task> {
    Merges(node.host, RestoreTargets(node, UPGRADE_SNAPSHOT_NAME), forced)
    + if includeGrub && !node.isMs && SnapsPossible(node, UPGRADE_SNAPSHOT_NAME)
      then [RestoreGrub(node.host, forced)] else []
  }

  function TasksOnNodes(nodes: seq<Node>, includeGrub: bool, forced: bool): seq<Task> {
    if nodes == [] then []
    else TasksOnNodes(Front(nodes), includeGrub, forced) + NodeTasks(Last(nodes), includeGrub, forced)
  }

  function PeersOf(nodes: seq<Node>, cluster: seq<string>): seq<Node> {
    if nodes == [] then []
    else PeersOf(Front(nodes), cluster) + if Last(nodes).host in cluster && !Last(nodes).isMs then [Last(nodes)] else []
  }

  function Mses(nodes: seq<Node>): seq<Node> {
    if nodes == [] then [] else Mses(Front(nodes)) + if Last(nodes).isMs then [Last(nodes)] else []
  }

  function ClusterTasks(nodes: seq<Node>, clusters: seq<seq<string>>, forced: bool): seq<Task> {
    if clusters == [] then []
    else ClusterTasks(nodes, Front(clusters), forced) + TasksOnNodes(PeersOf(nodes, Last(clusters)), true, forced)
  }

  function SnapNodes(nodes: seq<Node>): seq<Node> {
    if nodes == [] then []
    else SnapNodes(Front(nodes)) + if SnapsPossible(Last(nodes), UPGRADE_SNAPSHOT_NAME) then [Last(nodes)] else []
  }

  function Expected(nodes: seq<Node>): map<string, seq<string>> {
    if nodes == [] then map[]
    else Expected(Front(nodes))[Last(nodes).host := ExpectedNames(Last(nodes), UPGRADE_SNAPSHOT_NAME)]
  }

  function Hosts(nodes: seq<Node>): (r: seq<Host>)
    ensures |r| == |nodes| && forall i :: 0 <= i < |r| ==> r[i] == Host(nodes[i].host, nodes[i].isMs)
  {
    if nodes == [] then [] else Hosts(Front(nodes)) + [Host(Last(nodes).host, Last(nodes).isMs)]
  }

  function HostNames(nodes: seq<Node>): (r: seq<string>)
    ensures |r| == |nodes| && forall i :: 0 <= i < |r| ==> r[i] == nodes[i].host
  {
    if nodes == [] then [] else HostNames(Front(nodes)) + [Last(nodes).host]
  }

  function PresenceTask(nodes: seq<Node>): Task {
    CheckPresent(Hosts(SnapNodes(nodes)), Expected(SnapNodes(nodes)))
  }

  function ValidityTask(nodes: seq<Node>, forced: bool): Task {
    CheckValid(HostNames(SnapNodes(nodes)), Expected(SnapNodes(nodes)), forced)
  }

  function Checks(nodes: seq<Node>, forced: bool): seq<Task> {
    (if SnapNodes(nodes) != [] && !forced then [PresenceTask(nodes)] else [])
    + if SnapNodes(nodes) != [] then [ValidityTask(nodes, forced)] else []
  }

  function RestorePlan(nodes: seq<Node>, clusters: seq<seq<string>>, forced: bool): seq<Task> {
    ClusterTasks(nodes, clusters, forced) + Checks(nodes, forced) + TasksOnNodes(Mses(nodes), false, forced)
  }

  method MergeTasks(host: string, targets: seq<Target>, forced: bool) returns (tasks: seq<Task>)
    ensures tasks == Merges(host, targets, forced)
  {
    tasks := [];
    var i := 0;
    while i < |targets|
      invariant 0 <= i <= |targets| && tasks == Merges(host, targets[..i], forced)
    {
      TakeOneMore(targets, i);
      tasks := tasks + [Merge(host, targets[i], forced)];
      i := i + 1;
    }
    assert targets[..i] == targets;
  }

  method RestoreLvsPerNode(node: Node, includeGrub: bool, forced: bool) returns (tasks: seq<Task>)
    ensures tasks == NodeTasks(node, includeGrub, forced)
  {
    var targets := RestoreLvs(node, UPGRADE_SNAPSHOT_NAME);
    tasks := MergeTasks(node.host, targets, forced);
    if includeGrub && !node.isMs && SnapsPossible(node, UPGRADE_SNAPSHOT_NAME) {
      tasks := tasks + [RestoreGrub(node.host, forced)];
    }
  }

  method RestoreLvsOnNodes(nodes: seq<Node>, includeGrub: bool, forced: bool) returns (tasks: seq<Task>)
    ensures tasks == TasksOnNodes(nodes, includeGrub, forced)
  {
    tasks := [];
    var i := 0;
    while i < |nodes|
      invariant 0 <= i <= |nodes| && tasks == TasksOnNodes(nodes[..i], includeGrub, forced)
    {
      TakeOneMore(nodes, i);
      var more := RestoreLvsPerNode(nodes[i], includeGrub, forced);
      tasks := tasks + more;
      i := i + 1;
    }
    assert nodes[..i] == nodes;
  }

  method GatherExpected(nodes: seq<Node>) returns (expected: map<string, seq<string>>)
    ensures expected == Expected(nodes)
  {
    expected := map[];
    var i := 0;
    while i < |nodes|
      invariant 0 <= i <= |nodes| && expected == Expected(nodes[..i])
    {
      TakeOneMore(nodes, i);
      var names := GetExpectedNodeSnapshots(nodes[i], UPGRADE_SNAPSHOT_NAME);
      expected := expected[nodes[i].host := names];
      i := i + 1;
    }
    assert nodes[..i] == nodes;
  }

  method ClusterRestoreTasks(nodes: seq<Node>, clusters: seq<seq<string>>, forced: bool) returns (tasks: seq<Task>)
    ensures tasks == ClusterTasks(nodes, clusters, forced)
  {
    tasks := [];
    var i := 0;
    while i < |clusters|
      invariant 0 <= i <= |clusters| && tasks == ClusterTasks(nodes, clusters[..i], forced)
    {
      TakeOneMore(clusters, i);
      var more := RestoreLvsOnNodes(PeersOf(nodes, clusters[i]), true, forced);
      tasks := tasks + more;
      i := i + 1;
    }
    assert clusters[..i] == clusters;
  }

  method CheckTasks(nodes: seq<Node>, forced: bool) returns (tasks: seq<Task>)
    ensures tasks == Checks(nodes, forced)
  {
    tasks := [];
    var snappable := SnapNodes(nodes);
    if snappable != [] {
      var expected := GatherExpected(snappable);
      if !forced {
        tasks := tasks + [CheckPresent(Hosts(snappable), expected)];
      }
      tasks := tasks + [CheckValid(HostNames(snappable), expected, forced)];
    }
  }

  /** The checks come after the peers' merges in the order of generation. */
  method RestoreSnapshotTasks(nodes: seq<Node>, clusters: seq<seq<string>>, forced: bool) returns (tasks: seq<Task>)
    ensures tasks == RestorePlan(nodes, clusters, forced)
  {
    var peers := ClusterRestoreTasks(nodes, clusters, forced);
    var checks := CheckTasks(nodes, forced);
    var mses := RestoreLvsOnNodes(Mses(nodes), false, forced);
    tasks := peers + checks + mses;
  }

  // ---------------------------------------------------------------- the checks

  /** One line of a volume listing; `state` is the fifth attribute character, I for an invalid snapshot. */
  datatype Line = Line(vg: string, lv: string, state: char)

  /** What the hosts do when a check runs: who answers a ping, what each lists, whose request expires. */
  datatype Replies = Replies(reachable: string -> bool, listing: string -> seq<Line>, expired: string -> bool)

  predicate Listed(lines: seq<Line>, lv: string) {
    exists i :: 0 <= i < |lines| && lines[i].lv == lv
  }

  /** The first line with this volume name, in whatever volume group. */
  function FirstListed(lines: seq<Line>, lv: string): (r: Option<Line>)
    ensures r.Some? <==> Listed(lines, lv)
    ensures r.Some? ==> r.value in lines && r.value.lv == lv
  {
    if lines == [] then None
    else if lines[0].lv == lv then
      assert lines[0].lv == lv;
      Some(lines[0])
    else
      var rest := FirstListed(lines[1..], lv);
      assert rest.None? ==> forall i :: 0 < i < |lines| ==> lines[i] == lines[1..][i - 1];
      rest
  }

  predicate LooksValid(lines: seq<Line>, lv: string) {
    var first := FirstListed(lines, lv);
    first.Some? ==> first.value.state != 'I'
  }

  predicate NoneExpired(r: Replies, hosts: seq<string>) {
    forall h :: h in hosts ==> !r.expired(h)
  }

  predicate AllListed(r: Replies, hosts: seq<string>, expected: map<string, seq<string>>) {
    forall h, lv :: h in expected && h in hosts && lv in expected[h] ==> Listed(r.listing(h), lv)
  }

  /** Only the hosts that were asked have a listing at all. */
  predicate AllLookValid(r: Replies, hosts: seq<string>, expected: map<string, seq<string>>) {
    forall h, lv :: h in expected && h in hosts && lv in expected[h] ==> LooksValid(r.listing(h), lv)
  }

  predicate PeersReachable(r: Replies, hosts: seq<Host>) {
    forall h :: h in hosts && !h.isMs ==> r.reachable(h.name)
  }

  function Up(r: Replies, hosts: seq<string>): seq<string> {
    if hosts == [] then [] else Up(r, Front(hosts)) + if r.reachable(Last(hosts)) then [Last(hosts)] else []
  }

  /** Whether a callback returns rather than raises. */
  predicate Passes(task: Task, r: Replies) {
    match task
    case CheckPresent(hosts, expected) =>
      PeersReachable(r, hosts) && NoneExpired(r, NamesOf(hosts)) && AllListed(r, NamesOf(hosts), expected)
    case CheckValid(nodes, expected, forced) =>
      var asked := if forced then Up(r, nodes) else nodes;
      NoneExpired(r, asked) && AllLookValid(r, asked, expected)
    case _ => true
  }

  function NamesOf(hosts: seq<Host>): (r: seq<string>)
    ensures |r| == |hosts| && forall i :: 0 <= i < |r| ==> r[i] == hosts[i].name
  {
    if hosts == [] then [] else NamesOf(Front(hosts)) + [Last(hosts).name]
  }

  method ScanForLvsErrs(r: Replies, hosts: seq<string>) returns (raised: bool)
    ensures !raised <==> NoneExpired(r, hosts)
  {
    raised := false;
    var i := 0;
    while i < |hosts|
      invariant 0 <= i <= |hosts| && (raised <==> exists j :: 0 <= j < i && r.expired(hosts[j]))
    {
      raised := raised || r.expired(hosts[i]);
      i := i + 1;
    }
  }

  /** The dictionary of expected snapshots is visited in any order; every missing one gets a message. */
  method CheckSnapshotsExist(r: Replies, hosts: seq<string>, expected: map<string, seq<string>>)
      returns (raised: bool, missing: seq<(string, string)>)
    ensures !raised <==> NoneExpired(r, hosts)
    ensures !raised ==> forall h, lv :: (h, lv) in missing <==>
      h in expected && h in hosts && lv in expected[h] && !Listed(r.listing(h), lv)
  {
    missing := [];
    raised := ScanForLvsErrs(r, hosts);
    if raised {
      return;
    }
    var left := expected.Keys;
    while left != {}
      invariant left <= expected.Keys
      invariant forall h, lv :: (h, lv) in missing <==>
        h in expected.Keys - left && h in hosts && lv in expected[h] && !Listed(r.listing(h), lv)
    {
      var host :| host in left;
      if host in hosts {
        missing := AddMissing(r, host, expected[host], missing);
      }
      left := left - {host};
    }
  }

  method AddMissing(r: Replies, host: string, names: seq<string>, already: seq<(string, string)>)
      returns (missing: seq<(string, string)>)
    ensures forall h, lv :: (h, lv) in missing <==>
      (h, lv) in already || (h == host && lv in names && !Listed(r.listing(h), lv))
  {
    missing := already;
    var i := 0;
    while i < |names|
      invariant 0 <= i <= |names|
      invariant forall h, lv :: (h, lv) in missing <==>
        (h, lv) in already || (h == host && lv in names[..i] && !Listed(r.listing(h), lv))
    {
      if FirstListed(r.listing(host), names[i]).None? {
        missing := missing + [(host, names[i])];
      }
      i := i + 1;
    }
    assert names[..i] == names;
  }

  method CheckReachableAndSnapsExist(r: Replies, hosts: seq<Host>, expected: map<string, seq<string>>)
      returns (raised: bool)
    ensures !raised <==> Passes(CheckPresent(hosts, expected), r)
  {
    var up: seq<string>, anyDown := [], false;
    var i := 0;
    while i < |hosts|
      invariant 0 <= i <= |hosts|
      invariant anyDown <==> exists j :: 0 <= j < i && !hosts[j].isMs && !r.reachable(hosts[j].name)
      invariant !anyDown ==> up == NamesOf(hosts[..i])
    {
      TakeOneMore(hosts, i);
      if !hosts[i].isMs && !r.reachable(hosts[i].name) {
        anyDown := true;
      } else {
        up := up + [hosts[i].name];
      }
      i := i + 1;
    }
    assert hosts[..i] == hosts;
    var missing: seq<(string, string)>;
    raised, missing := CheckSnapshotsExist(r, up, expected);
    if !raised {
      assert missing == [] <==> AllListed(r, up, expected) by {
        if missing != [] {
          assert (missing[0].0, missing[0].1) in missing;
        }
      }
    }
    raised := raised || anyDown || missing != [];
  }

  method FilterReachable(r: Replies, hosts: seq<string>) returns (up: seq<string>)
    ensures up == Up(r, hosts)
  {
    up := [];
    var i := 0;
    while i < |hosts|
      invariant 0 <= i <= |hosts| && up == Up(r, hosts[..i])
    {
      TakeOneMore(hosts, i);
      if r.reachable(hosts[i]) {
        up := up + [hosts[i]];
      }
      i := i + 1;
    }
    assert hosts[..i] == hosts;
  }

  /** A missing snapshot is only logged here; of several lines with the name the first decides. */
  method CheckValidSnapshots(r: Replies, nodes: seq<string>, expected: map<string, seq<string>>, forced: bool)
      returns (raised: bool)
    ensures !raised <==> Passes(CheckValid(nodes, expected, forced), r)
  {
    var asked := nodes;
    if forced {
      asked := FilterReachable(r, nodes);
    }
    raised := ScanForLvsErrs(r, asked);
    if raised {
      return;
    }
    var left := expected.Keys;
    while left != {}
      invariant left <= expected.Keys
      invariant raised <==> exists h, lv ::
        h in expected.Keys - left && h in asked && lv in expected[h] && !LooksValid(r.listing(h), lv)
    {
      var host :| host in left;
      if host in asked {
        var bad := AnyInvalid(r, host, expected[host]);
        raised := raised || bad;
      }
      left := left - {host};
    }
  }

  method AnyInvalid(r: Replies, host: string, names: seq<string>) returns (bad: bool)
    ensures bad <==> exists lv :: lv in names && !LooksValid(r.listing(host), lv)
  {
    bad := false;
    var i := 0;
    while i < |names|
      invariant 0 <= i <= |names| && (bad <==> exists lv :: lv in names[..i] && !LooksValid(r.listing(host), lv))
    {
      assert names[..i + 1] == names[..i] + [names[i]];
      bad := bad || !LooksValid(r.listing(host), names[i]);
      i := i + 1;
    }
    assert names[..i] == names;
  }

  // ---------------------------------------------------------------- no merge without both checks

  /** Validation before merges, merges before anything else; the order among equals is free. */
  function Rank(task: Task): nat {
    match task
    case CheckPresent(_, _) => 0
    case CheckValid(_, _, _) => 0
    case Merge(_, _, _) => 1
    case RestoreGrub(_, _) => 1
  }

  lemma {:induction false} ExpectedOf(nodes: seq<Node>, n: Node)
    requires UniqueHosts(nodes) && n in nodes
    ensures n.host in Expected(nodes) && Expected(nodes)[n.host] == ExpectedNames(n, UPGRADE_SNAPSHOT_NAME)
  {
    var i :| 0 <= i < |nodes| && nodes[i] == n;
    if i < |nodes| - 1 {
      assert Front(nodes)[i] == n;
      ExpectedOf(Front(nodes), n);
    }
  }

  lemma {:induction false} SnapNodesMembers(nodes: seq<Node>, n: Node)
    ensures n in SnapNodes(nodes) <==> n in nodes && SnapsPossible(n, UPGRADE_SNAPSHOT_NAME)
  {
    if nodes != [] {
      SnapNodesMembers(Front(nodes), n);
      assert nodes == Front(nodes) + [Last(nodes)];
    }
  }

  lemma {:induction false} SnapNodesUnique(nodes: seq<Node>)
    requires UniqueHosts(nodes)
    ensures UniqueHosts(SnapNodes(nodes))
  {
    if nodes != [] {
      SnapNodesUnique(Front(nodes));
      var s := SnapNodes(Front(nodes));
      forall i | 0 <= i < |s| ensures s[i].host != Last(nodes).host {
        SnapNodesMembers(Front(nodes), s[i]);
        var k :| 0 <= k < |nodes| - 1 && Front(nodes)[k] == s[i];
        assert nodes[k].host != nodes[|nodes| - 1].host;
      }
    }
  }

  /** A node's merges name snapshots of that node only. */
  lemma {:induction false} MergesOfNodes(nodes: seq<Node>, includeGrub: bool, forced: bool, t: Task)
    requires t in TasksOnNodes(nodes, includeGrub, forced) && t.Merge?
    ensures exists n :: n in nodes && t.host == n.host && t.target in RestoreTargets(n, UPGRADE_SNAPSHOT_NAME)
  {
    var n := Last(nodes);
    if t in TasksOnNodes(Front(nodes), includeGrub, forced) {
      MergesOfNodes(Front(nodes), includeGrub, forced, t);
    } else {
      var merges := Merges(n.host, RestoreTargets(n, UPGRADE_SNAPSHOT_NAME), forced);
      assert t in merges;
      assert n == nodes[|nodes| - 1];
    }
  }

  lemma {:induction false} PeersAndMses(nodes: seq<Node>, cluster: seq<string>, n: Node)
    ensures n in PeersOf(nodes, cluster) <==> n in nodes && n.host in cluster && !n.isMs
    ensures n in Mses(nodes) <==> n in nodes && n.isMs
  {
    if nodes != [] {
      PeersAndMses(Front(nodes), cluster, n);
      assert nodes == Front(nodes) + [Last(nodes)];
    }
  }

  lemma {:induction false} MergesOfClusters(nodes: seq<Node>, clusters: seq<seq<string>>, forced: bool, t: Task)
    requires t in ClusterTasks(nodes, clusters, forced) && t.Merge?
    ensures exists n :: n in nodes && t.host == n.host && t.target in RestoreTargets(n, UPGRADE_SNAPSHOT_NAME)
  {
    if t in ClusterTasks(nodes, Front(clusters), forced) {
      MergesOfClusters(nodes, Front(clusters), forced, t);
    } else {
      var peers := PeersOf(nodes, Last(clusters));
      MergesOfNodes(peers, true, forced, t);
      var n :| n in peers && t.host == n.host && t.target in RestoreTargets(n, UPGRADE_SNAPSHOT_NAME);
      PeersAndMses(nodes, Last(clusters), n);
    }
  }

  ghost predicate IsMergeOf(t: Task, nodes: seq<Node>) {
    t.Merge? && exists n :: n in nodes && t.host == n.host && t.target in RestoreTargets(n, UPGRADE_SNAPSHOT_NAME)
  }

  /** Every merge of the plan is of a snapshot that one of the nodes can have. */
  lemma {:induction false} MergesAreOfNodes(nodes: seq<Node>, clusters: seq<seq<string>>, forced: bool, t: Task)
    requires t in RestorePlan(nodes, clusters, forced) && t.Merge?
    ensures IsMergeOf(t, nodes)
  {
    if t in ClusterTasks(nodes, clusters, forced) {
      MergesOfClusters(nodes, clusters, forced, t);
    } else {
      assert t !in Checks(nodes, forced);
      MergesOfNodes(Mses(nodes), false, forced, t);
      var m :| m in Mses(nodes) && t.host == m.host && t.target in RestoreTargets(m, UPGRADE_SNAPSHOT_NAME);
      PeersAndMses(nodes, [], m);
    }
  }

  lemma {:induction false} NodeIsProcessed(nodes: seq<Node>, n: Node, includeGrub: bool, forced: bool, t: Target)
    requires n in nodes && t in RestoreTargets(n, UPGRADE_SNAPSHOT_NAME)
    ensures Merge(n.host, t, forced) in TasksOnNodes(nodes, includeGrub, forced)
  {
    if n == Last(nodes) {
      var targets := RestoreTargets(n, UPGRADE_SNAPSHOT_NAME);
      var i :| 0 <= i < |targets| && targets[i] == t;
      assert Merges(n.host, targets, forced)[i] == Merge(n.host, t, forced);
    } else {
      assert nodes == Front(nodes) + [Last(nodes)];
      NodeIsProcessed(Front(nodes), n, includeGrub, forced, t);
    }
  }

  lemma {:induction false} PeerIsProcessed(nodes: seq<Node>, cluster: seq<string>, n: Node, forced: bool, t: Target)
    requires n in nodes && !n.isMs && n.host in cluster && t in RestoreTargets(n, UPGRADE_SNAPSHOT_NAME)
    ensures Merge(n.host, t, forced) in TasksOnNodes(PeersOf(nodes, cluster), true, forced)
  {
    PeersAndMses(nodes, cluster, n);
    NodeIsProcessed(PeersOf(nodes, cluster), n, true, forced, t);
  }

  lemma {:induction false} ClusterIsProcessed(nodes: seq<Node>, clusters: seq<seq<string>>, k: nat, forced: bool,
      task: Task)
    requires k < |clusters| && task in TasksOnNodes(PeersOf(nodes, clusters[k]), true, forced)
    ensures task in ClusterTasks(nodes, clusters, forced)
  {
    if k < |clusters| - 1 {
      assert Front(clusters)[k] == clusters[k];
      ClusterIsProcessed(nodes, Front(clusters), k, forced, task);
    }
  }

  /** Every restore target of every management server and of every node of a cluster is merged. */
  lemma {:induction false} EveryTargetIsMerged(nodes: seq<Node>, clusters: seq<seq<string>>, n: Node, forced: bool,
      t: Target)
    requires n in nodes && (n.isMs || exists k :: 0 <= k < |clusters| && n.host in clusters[k])
    requires t in RestoreTargets(n, UPGRADE_SNAPSHOT_NAME)
    ensures Merge(n.host, t, forced) in RestorePlan(nodes, clusters, forced)
  {
    if n.isMs {
      PeersAndMses(nodes, [], n);
      NodeIsProcessed(Mses(nodes), n, false, forced, t);
    } else {
      var k :| 0 <= k < |clusters| && n.host in clusters[k];
      PeerIsProcessed(nodes, clusters[k], n, forced, t);
      ClusterIsProcessed(nodes, clusters, k, forced, Merge(n.host, t, forced));
    }
  }

  lemma {:induction false} BothChecks(nodes: seq<Node>)
    requires SnapNodes(nodes) != []
    ensures PresenceTask(nodes) in Checks(nodes, false) && ValidityTask(nodes, false) in Checks(nodes, false)
  {
    assert Checks(nodes, false) == [PresenceTask(nodes), ValidityTask(nodes, false)];
  }

  lemma {:induction false} NothingOnNodes(nodes: seq<Node>, includeGrub: bool, forced: bool)
    requires forall n :: n in nodes ==> !SnapsPossible(n, UPGRADE_SNAPSHOT_NAME)
    ensures TasksOnNodes(nodes, includeGrub, forced) == []
  {
    if nodes != [] {
      assert Last(nodes) in nodes && !SnapsPossible(Last(nodes), UPGRADE_SNAPSHOT_NAME);
      assert RestoreTargets(Last(nodes), UPGRADE_SNAPSHOT_NAME) == [];
      NothingOnNodes(Front(nodes), includeGrub, forced);
    }
  }

  lemma {:induction false} NothingOnClusters(nodes: seq<Node>, clusters: seq<seq<string>>, forced: bool)
    requires forall n :: n in nodes ==> !SnapsPossible(n, UPGRADE_SNAPSHOT_NAME)
    ensures ClusterTasks(nodes, clusters, forced) == []
  {
    if clusters != [] {
      var peers := PeersOf(nodes, Last(clusters));
      forall n | n in peers ensures n in nodes {
        PeersAndMses(nodes, Last(clusters), n);
      }
      NothingOnNodes(peers, true, forced);
      NothingOnClusters(nodes, Front(clusters), forced);
    }
  }

  /** The restore of the modelled file systems is empty, checks and all, exactly when no node can have snapshots. */
  lemma {:induction false} NothingToRestore(nodes: seq<Node>, clusters: seq<seq<string>>, forced: bool)
    ensures RestorePlan(nodes, clusters, forced) == [] <==> SnapNodes(nodes) == []
  {
    if SnapNodes(nodes) == [] {
      forall n | n in nodes ensures !SnapsPossible(n, UPGRADE_SNAPSHOT_NAME) {
        SnapNodesMembers(nodes, n);
      }
      forall n | n in Mses(nodes) ensures n in nodes {
        PeersAndMses(nodes, [], n);
      }
      NothingOnClusters(nodes, clusters, forced);
      NothingOnNodes(Mses(nodes), false, forced);
    } else {
      var checks := Checks(nodes, forced);
      assert checks[|checks| - 1] == ValidityTask(nodes, forced);
      assert ValidityTask(nodes, forced) in RestorePlan(nodes, clusters, forced);
    }
  }

  /** What the two checks established about a node when they passed. */
  ghost predicate NodeCleared(n: Node, presence: Replies, validity: Replies) {
    && (n.isMs || presence.reachable(n.host))
    && !presence.expired(n.host) && !validity.expired(n.host)
    && forall lv :: lv in ExpectedNames(n, UPGRADE_SNAPSHOT_NAME) ==>
         Listed(presence.listing(n.host), lv) && LooksValid(validity.listing(n.host), lv)
  }

  ghost predicate AllCleared(nodes: seq<Node>, presence: Replies, validity: Replies) {
    forall n :: n in nodes && SnapsPossible(n, UPGRADE_SNAPSHOT_NAME) ==> NodeCleared(n, presence, validity)
  }

  lemma {:induction false} PassedChecksClear(nodes: seq<Node>, presence: Replies, validity: Replies, n: Node)
    requires UniqueHosts(nodes) && n in nodes && SnapsPossible(n, UPGRADE_SNAPSHOT_NAME)
    requires Passes(PresenceTask(nodes), presence) && Passes(ValidityTask(nodes, false), validity)
    ensures NodeCleared(n, presence, validity)
  {
    var s := SnapNodes(nodes);
    SnapNodesMembers(nodes, n);
    SnapNodesUnique(nodes);
    ExpectedOf(s, n);
    var k :| 0 <= k < |s| && s[k] == n;
    assert Hosts(s)[k] == Host(n.host, n.isMs) && NamesOf(Hosts(s))[k] == n.host && HostNames(s)[k] == n.host;
    assert Hosts(s)[k] in Hosts(s);
  }

  /** A host with expected snapshots is that of a node that can have them. */
  lemma {:induction false} ExpectedIsOfNode(nodes: seq<Node>, host: string)
    requires UniqueHosts(nodes) && host in Expected(nodes)
    ensures exists n :: n in nodes && n.host == host && Expected(nodes)[host] == ExpectedNames(n, UPGRADE_SNAPSHOT_NAME)
  {
    var last := Last(nodes);
    if host == last.host {
      assert last == nodes[|nodes| - 1];
    } else {
      ExpectedIsOfNode(Front(nodes), host);
    }
  }

  lemma {:induction false} ClearedChecksPass(nodes: seq<Node>, presence: Replies, validity: Replies)
    requires UniqueHosts(nodes) && AllCleared(nodes, presence, validity)
    ensures Passes(PresenceTask(nodes), presence) && Passes(ValidityTask(nodes, false), validity)
  {
    var s := SnapNodes(nodes);
    SnapNodesUnique(nodes);
    forall k | 0 <= k < |s| ensures NodeCleared(s[k], presence, validity) {
      SnapNodesMembers(nodes, s[k]);
    }
    forall h, lv | h in Expected(s) && lv in Expected(s)[h]
      ensures Listed(presence.listing(h), lv) && LooksValid(validity.listing(h), lv)
    {
      ExpectedIsOfNode(s, h);
    }
  }

  /** The two checks pass exactly when every node that can have snapshots is cleared. */
  lemma {:induction false} ChecksAreExact(nodes: seq<Node>, presence: Replies, validity: Replies)
    requires UniqueHosts(nodes)
    ensures Passes(PresenceTask(nodes), presence) && Passes(ValidityTask(nodes, false), validity)
      <==> AllCleared(nodes, presence, validity)
  {
    if Passes(PresenceTask(nodes), presence) && Passes(ValidityTask(nodes, false), validity) {
      forall n | n in nodes && SnapsPossible(n, UPGRADE_SNAPSHOT_NAME) ensures NodeCleared(n, presence, validity) {
        PassedChecksClear(nodes, presence, validity, n);
      }
    }
    if AllCleared(nodes, presence, validity) {
      ClearedChecksPass(nodes, presence, validity);
    }
  }

  /** In an unforced restore, whatever the replies, whatever further merges the plan has and however the tasks of
      equal rank are ordered, no merge is executed unless every node that can have snapshots was cleared by both
      checks before it. When no node can have any, only the further merges are left, and there is no check. */
  lemma {:induction false} NoMergeWithoutChecks(nodes: seq<Node>, clusters: seq<seq<string>>, others: seq<Task>,
      plan: seq<Task>, run: Run<Replies>, i: nat) returns (presence: nat, validity: nat)
    requires UniqueHosts(nodes) && SnapNodes(nodes) != []
    requires Reordered(Rank, plan, RestorePlan(nodes, clusters, false) + others) && Faithful(Rank, Passes, run, plan)
    requires i < |plan| && plan[i].Merge? && Executed(run, i)
    ensures presence < i && validity < i
    ensures AllCleared(nodes, run.replies(presence), run.replies(validity))
  {
    var tasks := RestorePlan(nodes, clusters, false) + others;
    BothChecks(nodes);
    presence := CheckedBefore(Rank, Passes, plan, tasks, run, PresenceTask(nodes), i);
    validity := CheckedBefore(Rank, Passes, plan, tasks, run, ValidityTask(nodes, false), i);
    ChecksAreExact(nodes, run.replies(presence), run.replies(validity));
  }

  /** The checks expect a name exactly when some file system that can be snapped has it in a group that is not
      Initial. */
  lemma {:induction false} MergedIsExpected(n: Node, name: string)
    ensures name in ExpectedNames(n, UPGRADE_SNAPSHOT_NAME) <==>
      exists p :: p in Snappable(n, UPGRADE_SNAPSHOT_NAME) && !p.vg.initial
        && TargetOf(n, p, UPGRADE_SNAPSHOT_NAME).snapshot == name
  {
    var naming := Naming(n, UPGRADE_SNAPSHOT_NAME);
    var pairs := Snappable(n, UPGRADE_SNAPSHOT_NAME);
    var active := Filter(InActiveVg, pairs);
    if i :| 0 <= i < |active| && ExpectedNames(n, UPGRADE_SNAPSHOT_NAME)[i] == name {
      FilterMembers(InActiveVg, pairs, active[i]);
    }
    if p :| p in pairs && !p.vg.initial && TargetOf(n, p, UPGRADE_SNAPSHOT_NAME).snapshot == name {
      FilterMembers(InActiveVg, pairs, p);
      TargetPresent(naming, active, p);
    }
  }

  /** The exception: when all its groups are Initial a node is merged without any of its snapshots checked. */
  lemma {:induction false} InitialGroupsUnchecked(n: Node)
    requires SnapsPossible(n, UPGRADE_SNAPSHOT_NAME)
    requires forall p :: p in Snappable(n, UPGRADE_SNAPSHOT_NAME) ==> p.vg.initial
    ensures RestoreTargets(n, UPGRADE_SNAPSHOT_NAME) != [] && ExpectedNames(n, UPGRADE_SNAPSHOT_NAME) == []
  {
    var pairs := Snappable(n, UPGRADE_SNAPSHOT_NAME);
    if Filter(InActiveVg, pairs) != [] {
      FilterMembers(InActiveVg, pairs, Filter(InActiveVg, pairs)[0]);
    }
    assert Filter(InActiveVg, pairs) == [];
  }

  // ---------------------------------------------------------------- what a listing that looks valid means

  /** Where the first line with this volume name stands. */
  function FirstAt(lines: seq<Line>, lv: string): (k: nat)
    ensures k <= |lines| && (forall i :: 0 <= i < k ==> lines[i].lv != lv)
    ensures k < |lines| ==> lines[k].lv == lv && FirstListed(lines, lv) == Some(lines[k])
    ensures k == |lines| ==> FirstListed(lines, lv) == None
  {
    if lines == [] then 0
    else if lines[0].lv == lv then 0
    else
      var k := FirstAt(lines[1..], lv);
      assert forall i :: 0 < i < |lines| ==> lines[i] == lines[1..][i - 1];
      k + 1
  }

  /** The same volumes with other attributes. */
  function Restated(lines: seq<Line>, states: seq<char>): (r: seq<Line>)
    requires |states| == |lines|
    ensures |r| == |lines| && forall i :: 0 <= i < |lines| ==> r[i] == lines[i].(state := states[i])
  {
    seq(|lines|, i requires 0 <= i < |lines| => lines[i].(state := states[i]))
  }

  /** The check tells, whatever the attributes, whether this very snapshot is valid. */
  ghost predicate DecidesFor(lines: seq<Line>, k: nat)
    requires k < |lines|
  {
    forall states: seq<char> :: |states| == |lines| ==>
      (LooksValid(Restated(lines, states), lines[k].lv) <==> states[k] != 'I')
  }

  lemma {:induction false} FirstAtIsKept(lines: seq<Line>, states: seq<char>, lv: string)
    requires |states| == |lines|
    ensures FirstAt(Restated(lines, states), lv) == FirstAt(lines, lv)
  {
    var r := Restated(lines, states);
    var a, b := FirstAt(lines, lv), FirstAt(r, lv);
    assert a < |lines| ==> r[a].lv == lv;
    assert b < |lines| ==> lines[b].lv == lv;
  }

  /** The check is about the snapshot that is merged exactly when no group listed before has a volume of the same
      name; otherwise a valid namesake hides an invalid snapshot, or the other way round. */
  lemma {:induction false} FirstOfNameIsChecked(lines: seq<Line>, k: nat)
    requires k < |lines|
    ensures DecidesFor(lines, k) <==> FirstAt(lines, lines[k].lv) == k
  {
    var lv := lines[k].lv;
    var first := FirstAt(lines, lv);
    if first == k {
      forall states: seq<char> | |states| == |lines|
        ensures LooksValid(Restated(lines, states), lv) <==> states[k] != 'I'
      {
        FirstAtIsKept(lines, states, lv);
      }
    } else {
      var states := seq(|lines|, i => if i == k then 'I' else 'a');
      FirstAtIsKept(lines, states, lv);
      assert Restated(lines, states)[first].state == 'a';
      assert LooksValid(Restated(lines, states), lv) && states[k] == 'I';
    }
  }

  // ---------------------------------------------------------------- the installed file systems

  /** One merge for every listed volume of the target's name, in whatever group it is listed. */
  function MergesOfLines(host: string, t: Target, lines: seq<Line>, forced: bool): seq<Task> {
    if lines == [] then []
    else
      MergesOfLines(host, t, Front(lines), forced)
      + if Last(lines).lv == t.snapshot then [Merge(host, t, forced)] else []
  }

  function InstalledMerges(host: string, targets: seq<Target>, lines: seq<Line>, forced: bool): seq<Task> {
    if targets == [] then []
    else InstalledMerges(host, Front(targets), lines, forced) + MergesOfLines(host, Last(targets), lines, forced)
  }

  predicate AllValid(lines: seq<Line>, lv: string) {
    forall i :: 0 <= i < |lines| && lines[i].lv == lv ==> lines[i].state != 'I'
  }

  /** What the scan made while planning leads to: nothing at all if a listed snapshot is invalid, or if the merges are
      not as many as the expected snapshots. */
  ghost function InstalledRestore(ms: Node, lines: seq<Line>, forced: bool): Option<seq<Task>> {
    var targets := InstalledTargets(ms, ms.installed, UPGRADE_SNAPSHOT_NAME);
    var merges := InstalledMerges(ms.host, targets, lines, forced);
    if ms.forRemoval then Some([])
    else if |merges| != |targets| || exists t :: t in targets && !AllValid(lines, t.snapshot) then None
    else Some(merges + [RestoreGrub(ms.host, forced)])
  }

  method ScanForTarget(host: string, t: Target, lines: seq<Line>, forced: bool) returns (raised: bool, tasks: seq<Task>)
    ensures raised <==> !AllValid(lines, t.snapshot)
    ensures !raised ==> tasks == MergesOfLines(host, t, lines, forced)
  {
    raised, tasks := false, [];
    var i := 0;
    while i < |lines|
      invariant 0 <= i <= |lines| && AllValid(lines[..i], t.snapshot)
      invariant tasks == MergesOfLines(host, t, lines[..i], forced)
    {
      TakeOneMore(lines, i);
      if lines[i].lv == t.snapshot {
        if lines[i].state == 'I' {
          return true, tasks;
        }
        tasks := tasks + [Merge(host, t, forced)];
      }
      i := i + 1;
    }
    assert lines[..i] == lines;
  }

  method RestoreInstalled(ms: Node, lines: seq<Line>, forced: bool) returns (raised: bool, tasks: seq<Task>)
    ensures raised <==> InstalledRestore(ms, lines, forced).None?
    ensures !raised ==> Some(tasks) == InstalledRestore(ms, lines, forced)
  {
    raised, tasks := false, [];
    if ms.forRemoval {
      return;
    }
    var targets := GetExpectedInstalled(ms, UPGRADE_SNAPSHOT_NAME);
    var i := 0;
    while i < |targets|
      invariant 0 <= i <= |targets| && forall t :: t in targets[..i] ==> AllValid(lines, t.snapshot)
      invariant tasks == InstalledMerges(ms.host, targets[..i], lines, forced)
    {
      TakeOneMore(targets, i);
      var more;
      raised, more := ScanForTarget(ms.host, targets[i], lines, forced);
      if raised {
        assert targets[i] in targets;
        return;
      }
      tasks := tasks + more;
      i := i + 1;
    }
    assert targets[..i] == targets;
    if |tasks| != |targets| {
      return true, tasks;
    }
    tasks := tasks + [RestoreGrub(ms.host, forced)];
  }

  /** How many listed volumes have this name. */
  function Count(lines: seq<Line>, lv: string): nat {
    if lines == [] then 0 else Count(Front(lines), lv) + if Last(lines).lv == lv then 1 else 0
  }

  lemma {:induction false} CountIsMerges(host: string, t: Target, lines: seq<Line>, forced: bool)
    ensures |MergesOfLines(host, t, lines, forced)| == Count(lines, t.snapshot)
    ensures forall m :: m in MergesOfLines(host, t, lines, forced) ==> m == Merge(host, t, forced)
  {
    if lines != [] {
      CountIsMerges(host, t, Front(lines), forced);
    }
  }

  lemma {:induction false} MergedIfListed(host: string, targets: seq<Target>, lines: seq<Line>, forced: bool, t: Target)
    ensures Merge(host, t, forced) in InstalledMerges(host, targets, lines, forced) <==>
      t in targets && Count(lines, t.snapshot) > 0
  {
    if targets != [] {
      var merges := MergesOfLines(host, Last(targets), lines, forced);
      assert targets == Front(targets) + [Last(targets)];
      MergedIfListed(host, Front(targets), lines, forced, t);
      CountIsMerges(host, Last(targets), lines, forced);
      if Count(lines, Last(targets).snapshot) > 0 {
        assert merges[0] in merges;
      }
    }
  }

  lemma {:induction false} EachOnce(host: string, targets: seq<Target>, lines: seq<Line>, forced: bool)
    requires forall t :: t in targets ==> Count(lines, t.snapshot) > 0
    ensures |InstalledMerges(host, targets, lines, forced)| >= |targets|
    ensures |InstalledMerges(host, targets, lines, forced)| == |targets| <==>
      forall t :: t in targets ==> Count(lines, t.snapshot) == 1
  {
    if targets != [] {
      assert targets == Front(targets) + [Last(targets)];
      EachOnce(host, Front(targets), lines, forced);
      CountIsMerges(host, Last(targets), lines, forced);
    }
  }

  /** A generated restore merges every expected installed snapshot exactly when each is listed once: the number of
      merges alone is also right when one is listed in two groups and another is missing. */
  lemma {:induction false} InstalledAllMerged(ms: Node, lines: seq<Line>, forced: bool)
    requires !ms.forRemoval && InstalledRestore(ms, lines, forced).Some?
    ensures var targets := InstalledTargets(ms, ms.installed, UPGRADE_SNAPSHOT_NAME);
      (forall t :: t in targets ==> Merge(ms.host, t, forced) in InstalledRestore(ms, lines, forced).value) <==>
      forall t :: t in targets ==> Count(lines, t.snapshot) == 1
  {
    var targets := InstalledTargets(ms, ms.installed, UPGRADE_SNAPSHOT_NAME);
    var merges := InstalledMerges(ms.host, targets, lines, forced);
    forall t | t in targets ensures Merge(ms.host, t, forced) in merges + [RestoreGrub(ms.host, forced)] <==>
      Count(lines, t.snapshot) > 0
    {
      MergedIfListed(ms.host, targets, lines, forced, t);
    }
    if forall t :: t in targets ==> Count(lines, t.snapshot) > 0 {
      EachOnce(ms.host, targets, lines, forced);
    }
  }

  lemma {:induction false} ListedTwice(one: Line, two: Line, lv: string)
    ensures Count([one, two], lv) == (if one.lv == lv then 1 else 0) + (if two.lv == lv then 1 else 0)
  {
    assert Front([one, two]) == [one] && Last([one, two]) == two;
    assert Front([one]) == [] && Last([one]) == one && Count([], lv) == 0;
  }

  lemma {:induction false} TwoTargets(host: string, a: Target, b: Target, lines: seq<Line>, forced: bool)
    ensures |InstalledMerges(host, [a, b], lines, forced)| == Count(lines, a.snapshot) + Count(lines, b.snapshot)
  {
    CountIsMerges(host, a, lines, forced);
    CountIsMerges(host, b, lines, forced);
    assert Front([a, b]) == [a] && Last([a, b]) == b;
    assert Front([a]) == [] && Last([a]) == a && InstalledMerges(host, [], lines, forced) == [];
  }

  /** Such an input: the first of two expected snapshots is listed in two groups, the second nowhere. */
  lemma {:induction false} MissingUnnoticed(ms: Node, a: Target, b: Target, vg: string, other: string, forced: bool)
    requires !ms.forRemoval && InstalledTargets(ms, ms.installed, UPGRADE_SNAPSHOT_NAME) == [a, b]
    requires a.snapshot != b.snapshot
    ensures var lines := [Line(vg, a.snapshot, 's'), Line(other, a.snapshot, 's')];
      && InstalledRestore(ms, lines, forced).Some?
      && Merge(ms.host, b, forced) !in InstalledRestore(ms, lines, forced).value
  {
    var one, two := Line(vg, a.snapshot, 's'), Line(other, a.snapshot, 's');
    var lines, merges := [one, two], InstalledMerges(ms.host, [a, b], [one, two], forced);
    assert |merges| == 2 && Merge(ms.host, b, forced) !in merges by {
      ListedTwice(one, two, a.snapshot);
      ListedTwice(one, two, b.snapshot);
      TwoTargets(ms.host, a, b, lines, forced);
      MergedIfListed(ms.host, [a, b], lines, forced, b);
    }
    assert AllValid(lines, a.snapshot) && AllValid(lines, b.snapshot);
    assert InstalledRestore(ms, lines, forced) == Some(merges + [RestoreGrub(ms.host, forced)]);
  }
}
