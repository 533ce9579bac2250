/** The VxVM snapshot data set: discovery and import of disk groups over the nodes of each cluster, and
    the remove and restore callbacks that act on one file system of it. */
module VxvmSnapshotData {

  type Host = string
  type ClusterId = string
  type DiskGroup = string
  type VgPath = string
  type FsId = string

  datatype Reachability = NotAsked | Up | Down

  /** `Unset` is the empty string of a fresh data set, `NotImported` is Python's None. */
  datatype ActiveNode = Unset | NotImported | On(host: Host)

  datatype Validity = Unchecked | Valid | Invalid

  datatype FileSystemData = FileSystemData(snapshotName: string, present: string, valid: Validity)

  datatype VolumeGroupData = VolumeGroupData(
    cluster: ClusterId,
    name: DiskGroup,
    active: ActiveNode,
    fileSystems: map<FsId, FileSystemData>)

  /** What a node sends back to the disk-group query: the groups imported on it, or nothing but an error. */
  datatype Reply = Groups(names: set<DiskGroup>) | NoAnswer

  type Replies = map<Host, Reply>

  datatype Outcome = Done | RpcFailed | DoubleImport | Refused

  datatype Import = Import(cluster: ClusterId, group: DiskGroup, host: Host)

  datatype Request =
    | Create(host: Host, group: DiskGroup, volume: FsId, snapshot: string)
    | Delete(host: Host, group: DiskGroup, volume: FsId, snapshot: string)
    | Restore(host: Host, group: DiskGroup, volume: FsId, snapshot: string)

  ghost predicate Reported(replies: Replies, host: Host, group: DiskGroup) {
    host in replies && replies[host].Groups? && group in replies[host].names
  }

  ghost predicate ReportedTwice(replies: Replies) {
    exists group, h1, h2 :: h1 != h2 && Reported(replies, h1, group) && Reported(replies, h2, group)
  }

  ghost predicate ReportedByNone(replies: Replies, group: DiskGroup) {
    forall host :: !Reported(replies, host, group)
  }

  predicate AnyAnswered(replies: Replies) {
    exists host :: host in replies && replies[host].Groups?
  }

  predicate AllAnswered(replies: Replies) {
    forall host :: host in replies ==> replies[host].Groups?
  }

  ghost function ActiveFrom(replies: Replies, group: DiskGroup): ActiveNode {
    if host :| Reported(replies, host, group) then On(host) else NotImported
  }

  function Flags(replies: Replies): map<Host, Reachability> {
    map host | host in replies :: if replies[host].Groups? then Up else Down
  }

  function MarkPresent(vg: VolumeGroupData, fs: FsId): VolumeGroupData
    requires fs in vg.fileSystems
  {
    var data := vg.fileSystems[fs];
    vg.(fileSystems := vg.fileSystems[fs := data.(present := data.snapshotName)])
  }

  /** An iteration order of a dictionary: each key once. */
  ghost predicate Enumerates(order: seq<VgPath>, keys: set<VgPath>) {
    && (forall i :: 0 <= i < |order| ==> order[i] in keys)
    && (forall p :: p in keys ==> p in order)
    && (forall i, j :: 0 <= i < j < |order| ==> order[i] != order[j])
  }

  /** Only the recorded presence and validity of file system `fs` may differ. */
  ghost predicate OnlyFsDiffers(before: VolumeGroupData, after: VolumeGroupData, fs: FsId) {
    && after == before.(fileSystems := after.fileSystems)
    && after.fileSystems.Keys == before.fileSystems.Keys
    && forall f :: f in before.fileSystems ==>
         if f != fs then after.fileSystems[f] == before.fileSystems[f]
         else after.fileSystems[f].snapshotName == before.fileSystems[f].snapshotName
  }

  function Creation(vg: VolumeGroupData, fs: FsId): Request
    requires vg.active.On? && fs in vg.fileSystems
  {
    Create(vg.active.host, vg.name, fs, vg.fileSystems[fs].snapshotName)
  }

  function Deletion(vg: VolumeGroupData, fs: FsId): Request
    requires vg.active.On? && fs in vg.fileSystems
  {
    Delete(vg.active.host, vg.name, fs, vg.fileSystems[fs].snapshotName)
  }

  function Restoration(vg: VolumeGroupData, fs: FsId): Request
    requires vg.active.On? && fs in vg.fileSystems
  {
    Restore(vg.active.host, vg.name, fs, vg.fileSystems[fs].snapshotName)
  }

  predicate Orphan(vg: VolumeGroupData) {
    !vg.active.On?
  }

  /** The nodes and their agents. A query is answered by an arbitrary subset of the hosts, truthfully.
      The import agent does not report the exit code of its command, so a request may have no effect. */
  class Nodes {
    var holders: HolderMap
    var lastReplies: map<ClusterId, Replies>
    var imports: seq<Import>
    var requests: seq<Request>
    const presentOn: set<(Host, DiskGroup, string, bool)>
    const validOn: set<(Host, DiskGroup, string)>

    constructor (presentOn: set<(Host, DiskGroup, string, bool)>, validOn: set<(Host, DiskGroup, string)>)
      ensures this.presentOn == presentOn && this.validOn == validOn
      ensures holders == map[] && lastReplies == map[] && imports == [] && requests == []
    {
      this.presentOn, this.validOn := presentOn, validOn;
      holders, lastReplies, imports, requests := map[], map[], [], [];
    }

    function Holders(cluster: ClusterId, group: DiskGroup): set<Host>
      reads this
    {
      HoldersIn(holders, cluster, group)
    }

    ghost predicate Truthful(cluster: ClusterId, replies: Replies)
      reads this
    {
      forall host, group :: host in replies && replies[host].Groups? ==>
        (Reported(replies, host, group) <==> host in Holders(cluster, group))
    }

    method CheckActiveNodes(cluster: ClusterId, hosts: set<Host>) returns (ok: bool, replies: Replies)
      modifies this`lastReplies
      ensures ok ==> replies.Keys == hosts && Truthful(cluster, replies)
      ensures lastReplies == if ok then old(lastReplies)[cluster := replies] else old(lastReplies)
    {
      ok := *;
      var up: set<Host> :| up <= hosts;
      replies := map host | host in hosts ::
        if host in up then Groups(set key | key in holders && key.0 == cluster && host in holders[key] :: key.1)
        else NoAnswer;
      if ok {
        forall host, group | host in replies && replies[host].Groups?
          ensures Reported(replies, host, group) <==> host in Holders(cluster, group)
        {
          if host in Holders(cluster, group) {
            assert (cluster, group) in holders;
          }
        }
        lastReplies := lastReplies[cluster := replies];
      }
    }

    method ImportDiskGroup(cluster: ClusterId, group: DiskGroup, host: Host) returns (ok: bool)
      modifies this`holders, this`imports
      ensures imports == old(imports) + [Import(cluster, group, host)]
      ensures holders == old(holders)
        || holders == old(holders)[(cluster, group) := old(Holders(cluster, group)) + {host}]
    {
      imports := imports + [Import(cluster, group, host)];
      var took: bool := *;
      if took {
        holders := holders[(cluster, group) := Holders(cluster, group) + {host}];
      }
      ok := *;
    }

    method IsSnapshotPresent(host: Host, group: DiskGroup, snapshot: string, checkForCache: bool)
      returns (ok: bool, present: bool)
      ensures ok ==> present == ((host, group, snapshot, checkForCache) in presentOn)
    {
      ok, present := *, (host, group, snapshot, checkForCache) in presentOn;
    }

    method CheckSnapshot(host: Host, group: DiskGroup, snapshot: string) returns (ok: bool, valid: bool)
      ensures ok ==> valid == ((host, group, snapshot) in validOn)
    {
      ok, valid := *, (host, group, snapshot) in validOn;
    }

    /** The agent looks up the region size for a snapshot; it may find none. */
    method CheckRegionSize(host: Host, group: DiskGroup) returns (ok: bool)
    {
      ok := *;
    }

    method Send(request: Request) returns (ok: bool)
      modifies this`requests
      ensures requests == old(requests) + [request]
    {
      requests := requests + [request];
      ok := *;
    }
  }

  /** An import is safe against the first replies of its cluster: nobody reported the group and the host
      answered; when the gathering stops on unreachable nodes, every node had answered. */
  ghost predicate SafeImport(first: Replies, group: DiskGroup, host: Host, stop: bool) {
    && ReportedByNone(first, group)
    && host in first && first[host].Groups?
    && (stop ==> AllAnswered(first))
  }

  type HolderMap = map<(ClusterId, DiskGroup), set<Host>>

  function HoldersIn(holders: HolderMap, cluster: ClusterId, group: DiskGroup): set<Host> {
    if (cluster, group) in holders then holders[(cluster, group)] else {}
  }

  /** Between two states of the world only disk groups of the cluster gained a holder, each by a safe import. */
  ghost predicate OnlySafeImports(before: HolderMap, after: HolderMap, cluster: ClusterId, first: Replies, stop: bool) {
    forall c, group :: GainedSafely(before, after, cluster, first, stop, c, group)
  }

  ghost predicate GainedSafely(before: HolderMap, after: HolderMap, cluster: ClusterId, first: Replies, stop: bool,
                               c: ClusterId, group: DiskGroup)
  {
    || HoldersIn(after, c, group) == HoldersIn(before, c, group)
    || (c == cluster && exists host ::
          SafeImport(first, group, host, stop) && HoldersIn(after, c, group) == HoldersIn(before, c, group) + {host})
  }

  ghost predicate ImportsLogged(before: seq<Import>, after: seq<Import>, cluster: ClusterId, first: Replies,
      stop: bool)
  {
    && before <= after
    && forall n :: |before| <= n < |after| ==>
         after[n].cluster == cluster && SafeImport(first, after[n].group, after[n].host, stop)
  }

  /** Everything but the active node of a volume group is as it was. */
  ghost predicate OnlyActiveDiffers(before: map<VgPath, VolumeGroupData>, after: map<VgPath, VolumeGroupData>) {
    && after.Keys == before.Keys
    && forall p :: p in before ==> after[p] == before[p].(active := after[p].active)
  }

  ghost function WithActive(vgs: map<VgPath, VolumeGroupData>, cluster: ClusterId, replies: Replies)
    : map<VgPath, VolumeGroupData>
  {
    map p | p in vgs ::
      if vgs[p].cluster == cluster then vgs[p].(active := ActiveFrom(replies, vgs[p].name)) else vgs[p]
  }

  lemma {:induction false} WithActiveAgain(vgs: map<VgPath, VolumeGroupData>, cluster: ClusterId, first: Replies,
      last: Replies)
    ensures WithActive(WithActive(vgs, cluster, first), cluster, last) == WithActive(vgs, cluster, last)
    ensures OnlyActiveDiffers(vgs, WithActive(vgs, cluster, last))
  {
  }

  /** The first replies of each cluster are true of the world before the gathering. */
  ghost predicate FirstRepliesTruthful(before: HolderMap, first: map<ClusterId, Replies>) {
    forall c, host, group :: c in first && host in first[c] && first[c][host].Groups? ==>
      (Reported(first[c], host, group) <==> host in HoldersIn(before, c, group))
  }

  ghost predicate AllImportsSafe(before: HolderMap, after: HolderMap, first: map<ClusterId, Replies>, stop: bool) {
    forall c, group ::
      || HoldersIn(after, c, group) == HoldersIn(before, c, group)
      || (c in first && GainedSafely(before, after, c, first[c], stop, c, group))
  }

  ghost predicate AllImportsLogged(before: seq<Import>, after: seq<Import>, first: map<ClusterId, Replies>,
      stop: bool)
  {
    && before <= after
    && forall n :: |before| <= n < |after| ==>
         after[n].cluster in first && SafeImport(first[after[n].cluster], after[n].group, after[n].host, stop)
  }

  /** What the gathering leaves of a volume group: the holder of the last replies if its cluster had answered. */
  ghost function Settled(vg: VolumeGroupData, first: map<ClusterId, Replies>, last: map<ClusterId,
      Replies>): VolumeGroupData
  {
    if vg.cluster in first && AnyAnswered(first[vg.cluster]) && vg.cluster in last
    then vg.(active := ActiveFrom(last[vg.cluster], vg.name)) else vg
  }

  type FlagMap = map<ClusterId, map<Host, Reachability>>

  /** The reply book and the reachability flags differ from before at most in this cluster; after a query
      that answered they agree there and no group is reported twice. */
  ghost predicate Recorded(before: FlagMap, after: FlagMap, prev: map<ClusterId, Replies>, last: map<ClusterId,
                           Replies>, cluster: ClusterId, answered: bool)
  {
    && last - {cluster} == prev - {cluster}
    && after.Keys == before.Keys
    && (forall c :: c in after ==> after[c].Keys == before[c].Keys)
    && (forall c :: c in after && c != cluster ==> after[c] == before[c])
    && (answered ==> cluster in after && FlagsAgreeAt(after, last, cluster))
  }

  ghost predicate FlagsAgreeAt(flags: FlagMap, last: map<ClusterId, Replies>, c: ClusterId)
    requires c in flags
  {
    c in last && flags[c] == Flags(last[c]) && !ReportedTwice(last[c])
  }

  ghost predicate FlagsAgree(cs: set<ClusterId>, flags: FlagMap, last: map<ClusterId, Replies>) {
    forall c :: c in cs ==> c in flags && FlagsAgreeAt(flags, last, c)
  }

  lemma {:induction false} RecordedTwice(f0: FlagMap, f1: FlagMap, f2: FlagMap, r0: map<ClusterId, Replies>,
                      r1: map<ClusterId, Replies>,
                      r2: map<ClusterId, Replies>, cluster: ClusterId, once: bool, again: bool)
    requires Recorded(f0, f1, r0, r1, cluster, once) && Recorded(f1, f2, r1, r2, cluster, again)
    ensures Recorded(f0, f2, r0, r2, cluster, again)
  {
  }

  lemma {:induction false} ExtendRecorded(cs: set<ClusterId>, before: FlagMap, after: FlagMap, prev: map<ClusterId,
                       Replies>, last: map<ClusterId, Replies>, cluster: ClusterId)
    requires FlagsAgree(cs, before, prev) && Recorded(before, after, prev, last, cluster, true)
    ensures FlagsAgree(cs + {cluster}, after, last)
  {
    forall c | c in cs + {cluster} ensures c in after && FlagsAgreeAt(after, last, c) {
      if c != cluster {
        assert FlagsAgreeAt(before, prev, c);
        assert c in prev - {cluster} && (prev - {cluster})[c] == prev[c];
        assert c in last - {cluster} && (last - {cluster})[c] == last[c];
      }
    }
  }

  lemma {:induction false} ExtendSafe(start: HolderMap, before: HolderMap, after: HolderMap, first: map<ClusterId,
                   Replies>, cluster: ClusterId, answers: Replies, stop: bool)
    requires cluster !in first
    requires AllImportsSafe(start, before, first, stop)
    requires OnlySafeImports(before, after, cluster, answers, stop)
    ensures AllImportsSafe(start, after, first[cluster := answers], stop)
    ensures forall group :: HoldersIn(before, cluster, group) == HoldersIn(start, cluster, group)
  {
    forall c, group
      ensures HoldersIn(after, c, group) == HoldersIn(start, c, group)
        || (c in first[cluster := answers]
            && GainedSafely(start, after, c, first[cluster := answers][c], stop, c, group))
    {
      assert GainedSafely(before, after, cluster, answers, stop, c, group);
      assert c in first ==> first[cluster := answers][c] == first[c];
    }
  }

  lemma {:induction false} ExtendLogged(start: seq<Import>, before: seq<Import>, after: seq<Import>,
                     first: map<ClusterId, Replies>, cluster: ClusterId, answers: Replies, stop: bool)
    requires cluster !in first
    requires AllImportsLogged(start, before, first, stop)
    requires ImportsLogged(before, after, cluster, answers, stop)
    ensures AllImportsLogged(start, after, first[cluster := answers], stop)
  {
    forall n | |start| <= n < |after|
      ensures after[n].cluster in first[cluster := answers]
        && SafeImport(first[cluster := answers][after[n].cluster], after[n].group, after[n].host, stop)
    {
      if n < |before| {
        assert after[n] == before[n];
      }
    }
  }

  lemma {:induction false} ExtendSettled(start: map<VgPath, VolumeGroupData>, before: map<VgPath, VolumeGroupData>,
                      after: map<VgPath, VolumeGroupData>, first: map<ClusterId, Replies>, cluster: ClusterId,
                      answers: Replies, prev: map<ClusterId, Replies>, last: map<ClusterId, Replies>)
    requires cluster !in first && cluster in last && last - {cluster} == prev - {cluster}
    requires before.Keys == start.Keys && forall p :: p in start ==> before[p] == Settled(start[p], first, prev)
    requires after == if AnyAnswered(answers) then WithActive(before, cluster, last[cluster]) else before
    ensures after.Keys == start.Keys
    ensures forall p :: p in start ==> after[p] == Settled(start[p], first[cluster := answers], last)
  {
    forall p | p in start ensures after[p] == Settled(start[p], first[cluster := answers], last) {
      var c := start[p].cluster;
      if c != cluster {
        assert c in last <==> c in last - {cluster};
        assert c in prev <==> c in prev - {cluster};
        assert c in last ==> last[c] == (last - {cluster})[c];
        assert c in prev ==> prev[c] == (prev - {cluster})[c];
      }
    }
  }

  /** Stopping on unreachable nodes, a group that gains a holder ends with a second one exactly when a node that was
      not asked, because the data set does not list it, was already holding it; otherwise it had none. */
  lemma {:induction false} StopKeepsSingleHolder(before: HolderMap, after: HolderMap, first: map<ClusterId, Replies>,
                                                 c: ClusterId, group: DiskGroup)
    requires FirstRepliesTruthful(before, first) && AllImportsSafe(before, after, first, true)
    requires HoldersIn(after, c, group) != HoldersIn(before, c, group)
    ensures c in first && AllAnswered(first[c])
    ensures |HoldersIn(after, c, group)| > 1 <==> exists h :: h in HoldersIn(before, c, group) && h !in first[c]
    ensures HoldersIn(before, c, group) <= first[c].Keys ==>
      HoldersIn(before, c, group) == {} && |HoldersIn(after, c, group)| == 1
  {
    assert GainedSafely(before, after, c, first[c], true, c, group);
    var host :| SafeImport(first[c], group, host, true)
      && HoldersIn(after, c, group) == HoldersIn(before, c, group) + {host};
    forall h | h in first[c] ensures h !in HoldersIn(before, c, group) {
      assert !Reported(first[c], h, group);
    }
    if h :| h in HoldersIn(before, c, group) {
      assert {h, host} <= HoldersIn(after, c, group);
      SubsetSize({h, host}, HoldersIn(after, c, group));
    } else {
      assert HoldersIn(after, c, group) == {host};
    }
  }

  /** Such a gathering: n1 holds the group and is not asked, n2 answers and is sent the import. */
  lemma {:induction false} UnaskedHolder(c: ClusterId, group: DiskGroup)
    ensures var before, after := map[(c, group) := {"n1"}], map[(c, group) := {"n1", "n2"}];
      var first := map[c := map["n2" := Groups({})]];
      && FirstRepliesTruthful(before, first) && AllImportsSafe(before, after, first, true)
      && |HoldersIn(after, c, group)| == 2
  {
    var before, after := map[(c, group) := {"n1"}], map[(c, group) := {"n1", "n2"}];
    var replies := map["n2" := Groups({})];
    assert SafeImport(replies, group, "n2", true);
    assert GainedSafely(before, after, c, replies, true, c, group);
  }

  /** Without the flag a group that gains a holder ends with a second one exactly when a node that did not
      answer was already holding it; among the nodes that answered it never gets a second one. */
  lemma {:induction false} WithoutStopSecondHolder(before: HolderMap, after: HolderMap, first: map<ClusterId,
      Replies>, c: ClusterId, group: DiskGroup)
    requires FirstRepliesTruthful(before, first) && AllImportsSafe(before, after, first, false)
    requires HoldersIn(after, c, group) != HoldersIn(before, c, group)
    ensures c in first
    ensures |HoldersIn(after, c, group)| > 1
      <==> exists h :: h in HoldersIn(before, c, group) && !(h in first[c] && first[c][h].Groups?)
    ensures |HoldersIn(after, c, group) * set h | h in first[c] && first[c][h].Groups?| == 1
  {
    assert GainedSafely(before, after, c, first[c], false, c, group);
    var host :| SafeImport(first[c], group, host, false)
      && HoldersIn(after, c, group) == HoldersIn(before, c, group) + {host};
    var answered := set h | h in first[c] && first[c][h].Groups?;
    forall h | h in answered ensures h !in HoldersIn(before, c, group) {
      assert !Reported(first[c], h, group);
    }
    assert HoldersIn(after, c, group) * answered == {host};
    if h :| h in HoldersIn(before, c, group) {
      assert {h, host} <= HoldersIn(after, c, group);
      SubsetSize({h, host}, HoldersIn(after, c, group));
    } else {
      assert HoldersIn(after, c, group) == {host};
    }
  }

  lemma {:induction false} SubsetSize<T>(a: set<T>, b: set<T>)
    requires a <= b
    ensures |a| <= |b|
  {
    if x :| x in a {
      SubsetSize(a - {x}, b - {x});
    }
  }

  class SnapshotDataMgr {
    var clusters: FlagMap
    var volumeGroups: map<VgPath, VolumeGroupData>
    var filters: map<string, seq<string>>
    const forced: bool

    constructor (clusters: map<ClusterId, map<Host, Reachability>>, volumeGroups: map<VgPath, VolumeGroupData>,
        forced: bool)
      ensures this.clusters == clusters && this.volumeGroups == volumeGroups && this.forced == forced
      ensures filters == map["cluster_ids" := [], "vg_vpaths" := [], "fs_ids" := []]
    {
      this.clusters, this.volumeGroups, this.forced := clusters, volumeGroups, forced;
      filters := map["cluster_ids" := [], "vg_vpaths" := [], "fs_ids" := []];
    }

    /** Queries the nodes of a cluster and records which of them answered. */
    method GetVolumeGroupInfo(nodes: Nodes, cluster: ClusterId) returns (ok: bool, data: map<Host, set<DiskGroup>>)
      requires cluster in clusters
      modifies this`clusters, nodes`lastReplies
      ensures !ok ==> clusters == old(clusters) && nodes.lastReplies == old(nodes.lastReplies)
      ensures ok ==>
        && cluster in nodes.lastReplies
        && var replies := nodes.lastReplies[cluster];
        && nodes.lastReplies == old(nodes.lastReplies)[cluster := replies]
        && replies.Keys == old(clusters)[cluster].Keys
        && nodes.Truthful(cluster, replies)
        && clusters == old(clusters)[cluster := Flags(replies)]
        && data == map host | host in replies && replies[host].Groups? :: replies[host].names
    {
      var replies;
      ok, replies := nodes.CheckActiveNodes(cluster, clusters[cluster].Keys);
      data := map[];
      if !ok {
        return;
      }
      data := RecordReplies(cluster, replies);
    }

    /** Marks each host that answered as reachable and each other host as unreachable. */
    method RecordReplies(cluster: ClusterId, replies: Replies) returns (data: map<Host, set<DiskGroup>>)
      requires cluster in clusters && clusters[cluster].Keys == replies.Keys
      modifies this`clusters
      ensures clusters == old(clusters)[cluster := Flags(replies)]
      ensures data == map host | host in replies && replies[host].Groups? :: replies[host].names
    {
      var output := set host | host in replies && replies[host].Groups?;
      MarkAll(cluster, output, Up);
      data := map host | host in output :: replies[host].names;
      MarkAll(cluster, replies.Keys - output, Down);
      assert clusters[cluster] == Flags(replies);
    }

    method MarkAll(cluster: ClusterId, hosts: set<Host>, flag: Reachability)
      requires cluster in clusters && hosts <= clusters[cluster].Keys
      modifies this`clusters
      ensures OthersUnchanged(old(clusters), cluster)
      ensures clusters[cluster].Keys == old(clusters)[cluster].Keys
      ensures forall host :: host in clusters[cluster] ==>
        clusters[cluster][host] == if host in hosts then flag else old(clusters)[cluster][host]
    {
      var rest := hosts;
      while rest != {}
        invariant rest <= hosts
        invariant OthersUnchanged(old(clusters), cluster) && clusters[cluster].Keys == old(clusters)[cluster].Keys
        invariant forall host :: host in clusters[cluster] ==>
          clusters[cluster][host] == if host in hosts - rest then flag else old(clusters)[cluster][host]
      {
        var host :| host in rest;
        SetReachability(cluster, host, flag);
        rest := rest - {host};
      }
    }

    ghost predicate OthersUnchanged(flags: map<ClusterId, map<Host, Reachability>>, cluster: ClusterId)
      reads this`clusters
    {
      && cluster in clusters && clusters.Keys == flags.Keys
      && forall c :: c in clusters && c != cluster ==> clusters[c] == flags[c]
    }

    method SetReachability(cluster: ClusterId, host: Host, flag: Reachability)
      requires cluster in clusters
      modifies this`clusters
      ensures OthersUnchanged(old(clusters), cluster)
      ensures clusters[cluster] == old(clusters)[cluster][host := flag]
    {
      clusters := clusters[cluster := clusters[cluster][host := flag]];
    }

    /** Maps each reported disk group to its host, and refuses a group reported by two hosts. */
    method GetVolumeGroupMap(nodes: Nodes, cluster: ClusterId)
      returns (outcome: Outcome, groupMap: map<DiskGroup, Host>)
      requires cluster in clusters
      modifies this`clusters, nodes`lastReplies
      ensures Recorded(old(clusters), clusters, old(nodes.lastReplies), nodes.lastReplies, cluster, outcome == Done)
      ensures outcome != Refused
      ensures outcome == RpcFailed ==> clusters == old(clusters) && nodes.lastReplies == old(nodes.lastReplies)
      ensures outcome != RpcFailed ==>
        && cluster in nodes.lastReplies
        && var replies := nodes.lastReplies[cluster];
        && nodes.lastReplies == old(nodes.lastReplies)[cluster := replies]
        && replies.Keys == old(clusters)[cluster].Keys
        && nodes.Truthful(cluster, replies)
        && clusters == old(clusters)[cluster := Flags(replies)]
        && (outcome == DoubleImport <==> ReportedTwice(replies))
        && (outcome == Done ==> forall group, host ::
              (group in groupMap && groupMap[group] == host) <==> Reported(replies, host, group))
    {
      var ok, data := GetVolumeGroupInfo(nodes, cluster);
      groupMap := map[];
      if !ok {
        return RpcFailed, groupMap;
      }
      ghost var replies := nodes.lastReplies[cluster];
      var hosts := data.Keys;
      while hosts != {}
        invariant hosts <= data.Keys
        invariant forall group, host ::
          (group in groupMap && groupMap[group] == host) <==> (host !in hosts && Reported(replies, host, group))
      {
        var host :| host in hosts;
        var names := data[host];
        while names != {}
          invariant names <= data[host]
          invariant forall group, h ::
            (group in groupMap && groupMap[group] == h) <==>
              ((h !in hosts && Reported(replies, h, group)) || (h == host && group in data[host] && group !in names))
        {
          var group :| group in names;
          if group !in groupMap {
            groupMap := groupMap[group := host];
          } else {
            assert groupMap[group] != host;
            assert Reported(replies, host, group) && Reported(replies, groupMap[group], group);
            return DoubleImport, groupMap;
          }
          names := names - {group};
        }
        hosts := hosts - {host};
      }
      return Done, groupMap;
    }

    /** Sets the active node of every volume group of the cluster from the group map. */
    method SetActiveNodes(cluster: ClusterId, groupMap: map<DiskGroup, Host>, ghost replies: Replies)
      requires forall group, host :: (group in groupMap && groupMap[group] == host) <==> Reported(replies, host, group)
      modifies this`volumeGroups
      ensures volumeGroups == WithActive(old(volumeGroups), cluster, replies)
    {
      var paths := volumeGroups.Keys;
      while paths != {}
        invariant paths <= volumeGroups.Keys == old(volumeGroups).Keys
        invariant forall p :: p in volumeGroups ==>
          volumeGroups[p] == if p in paths then old(volumeGroups)[p]
                             else WithActive(old(volumeGroups), cluster, replies)[p]
      {
        var p :| p in paths;
        var vg := volumeGroups[p];
        if vg.cluster == cluster {
          if vg.name in groupMap {
            assert Reported(replies, groupMap[vg.name], vg.name);
            volumeGroups := volumeGroups[p := vg.(active := On(groupMap[vg.name]))];
          } else {
            assert forall host :: !Reported(replies, host, vg.name);
            volumeGroups := volumeGroups[p := vg.(active := NotImported)];
          }
        }
        paths := paths - {p};
      }
    }

    /** Asks the host to import each of the given volume groups. */
    method ImportVolumeGroups(nodes: Nodes, cluster: ClusterId, host: Host, notImported: map<VgPath, VolumeGroupData>,
                              ghost first: Replies, ghost stop: bool)
      returns (ok: bool)
      requires forall p :: p in notImported ==> SafeImport(first, notImported[p].name, host, stop)
      modifies nodes`holders, nodes`imports
      ensures OnlySafeImports(old(nodes.holders), nodes.holders, cluster, first, stop)
      ensures ImportsLogged(old(nodes.imports), nodes.imports, cluster, first, stop)
      ensures forall n :: |old(nodes.imports)| <= n < |nodes.imports| ==> nodes.imports[n].host == host
      ensures ok ==> forall p :: p in notImported ==>
        Import(cluster, notImported[p].name, host) in nodes.imports[|old(nodes.imports)|..]
    {
      ghost var logged := |nodes.imports|;
      var rest := notImported.Keys;
      ok := true;
      while ok && rest != {}
        invariant rest <= notImported.Keys
        invariant forall c, group ::
          || nodes.Holders(c, group) == old(nodes.Holders(c, group))
          || (c == cluster && SafeImport(first, group, host, stop)
              && nodes.Holders(c, group) == old(nodes.Holders(c, group)) + {host})
        invariant ImportsLogged(old(nodes.imports), nodes.imports, cluster, first, stop)
        invariant forall n :: logged <= n < |nodes.imports| ==> nodes.imports[n].host == host
        invariant forall p :: p in notImported.Keys - rest ==>
          Import(cluster, notImported[p].name, host) in nodes.imports[logged..]
        decreases rest, ok
      {
        var p :| p in rest;
        ghost var before := nodes.imports;
        ok := nodes.ImportDiskGroup(cluster, notImported[p].name, host);
        assert nodes.imports[logged..] == before[logged..] + [Import(cluster, notImported[p].name, host)];
        rest := rest - {p};
      }
      forall c, group
        ensures GainedSafely(old(nodes.holders), nodes.holders, cluster, first, stop, c, group)
      {
        assert nodes.Holders(c, group) == HoldersIn(nodes.holders, c, group);
        assert old(nodes.Holders(c, group)) == HoldersIn(old(nodes.holders), c, group);
      }
    }

    /** Imports what nobody holds on one answering host, then queries the cluster again. */
    method ImportAndRefresh(nodes: Nodes, cluster: ClusterId, host: Host, notImported: map<VgPath, VolumeGroupData>,
                            ghost first: Replies, ghost stop: bool)
      returns (outcome: Outcome)
      requires cluster in clusters
      requires forall p :: p in notImported ==> SafeImport(first, notImported[p].name, host, stop)
      modifies this`clusters, this`volumeGroups, nodes`holders, nodes`imports, nodes`lastReplies
      ensures outcome != Refused
      ensures OnlySafeImports(old(nodes.holders), nodes.holders, cluster, first, stop)
      ensures ImportsLogged(old(nodes.imports), nodes.imports, cluster, first, stop)
      ensures outcome != Done ==> volumeGroups == old(volumeGroups)
      ensures Recorded(old(clusters), clusters, old(nodes.lastReplies), nodes.lastReplies, cluster, outcome == Done)
      ensures outcome == Done ==>
        volumeGroups == WithActive(old(volumeGroups), cluster, nodes.lastReplies[cluster])
    {
      var ok := ImportVolumeGroups(nodes, cluster, host, notImported, first, stop);
      if !ok {
        return RpcFailed;
      }
      var groupMap;
      outcome, groupMap := GetVolumeGroupMap(nodes, cluster);
      if outcome == Done {
        SetActiveNodes(cluster, groupMap, nodes.lastReplies[cluster]);
      }
    }

    /** One cluster's turn of the gathering: query, set active nodes, import what nobody holds, query again. */
    method GatherCluster(nodes: Nodes, cluster: ClusterId, importGroups: bool, stop: bool)
      returns (outcome: Outcome, ghost first: Replies)
      requires cluster in clusters
      modifies this`clusters, this`volumeGroups, nodes`holders, nodes`imports, nodes`lastReplies
      ensures outcome != Refused
      ensures OnlyActiveDiffers(old(volumeGroups), volumeGroups)
      ensures Recorded(old(clusters), clusters, old(nodes.lastReplies), nodes.lastReplies, cluster, outcome == Done)
      ensures first.Keys <= old(clusters)[cluster].Keys
      ensures outcome == Done ==> first.Keys == old(clusters)[cluster].Keys
      ensures forall host, group :: host in first && first[host].Groups? ==>
        (Reported(first, host, group) <==> host in HoldersIn(old(nodes.holders), cluster, group))
      ensures ReportedTwice(first) ==>
        outcome == DoubleImport && nodes.imports == old(nodes.imports) && nodes.holders == old(nodes.holders)
      ensures ImportsLogged(old(nodes.imports), nodes.imports, cluster, first, stop)
      ensures OnlySafeImports(old(nodes.holders), nodes.holders, cluster, first, stop)
      ensures outcome == Done ==>
        volumeGroups == if AnyAnswered(first) then WithActive(old(volumeGroups), cluster, nodes.lastReplies[cluster])
                        else old(volumeGroups)
    {
      first := map[];
      var groupMap;
      outcome, groupMap := GetVolumeGroupMap(nodes, cluster);
      if outcome == RpcFailed {
        return;
      }
      first := nodes.lastReplies[cluster];
      if outcome == DoubleImport {
        return;
      }
      assert forall host :: host in first ==> (clusters[cluster][host] == Up <==> first[host].Groups?);
      var reachable := set host | host in clusters[cluster] && clusters[cluster][host] == Up;
      if reachable != {} {
        ghost var flags, replies := clusters, nodes.lastReplies;
        outcome := ActOnCluster(nodes, cluster, groupMap, reachable, importGroups, stop, first);
        RecordedTwice(old(clusters), flags, clusters, old(nodes.lastReplies), replies, nodes.lastReplies, cluster, true,
                      outcome == Done);
      } else {
        assert forall host :: host in first ==> host !in reachable;
      }
    }

    /** The turn of a cluster with a reachable node, once its first replies are in. */
    method ActOnCluster(nodes: Nodes, cluster: ClusterId, groupMap: map<DiskGroup, Host>, reachable: set<Host>,
                        importGroups: bool, stop: bool, ghost first: Replies)
      returns (outcome: Outcome)
      requires cluster in clusters && cluster in nodes.lastReplies && first == nodes.lastReplies[cluster]
      requires clusters[cluster] == Flags(first) && clusters[cluster].Keys == first.Keys && !ReportedTwice(first)
      requires forall group, host :: (group in groupMap && groupMap[group] == host) <==> Reported(first, host, group)
      requires reachable != {} && reachable == set host | host in first && first[host].Groups?
      modifies this`clusters, this`volumeGroups, nodes`holders, nodes`imports, nodes`lastReplies
      ensures outcome != Refused
      ensures OnlyActiveDiffers(old(volumeGroups), volumeGroups)
      ensures Recorded(old(clusters), clusters, old(nodes.lastReplies), nodes.lastReplies, cluster, outcome == Done)
      ensures ImportsLogged(old(nodes.imports), nodes.imports, cluster, first, stop)
      ensures OnlySafeImports(old(nodes.holders), nodes.holders, cluster, first, stop)
      ensures outcome == Done ==>
        volumeGroups == WithActive(old(volumeGroups), cluster, nodes.lastReplies[cluster])
    {
      SetActiveNodes(cluster, groupMap, first);
      WithActiveAgain(old(volumeGroups), cluster, first, first);
      outcome := Done;
      if !stop || reachable == clusters[cluster].Keys {
        var notImported := map p | p in volumeGroups && volumeGroups[p].cluster == cluster
                                   && volumeGroups[p].active == NotImported :: volumeGroups[p];
        if importGroups && notImported != map[] {
          var host :| host in reachable;
          forall p | p in notImported ensures SafeImport(first, notImported[p].name, host, stop) {
            assert volumeGroups[p].active == ActiveFrom(first, notImported[p].name);
          }
          outcome := ImportAndRefresh(nodes, cluster, host, notImported, first, stop);
          if outcome == Done {
            WithActiveAgain(old(volumeGroups), cluster, first, nodes.lastReplies[cluster]);
          }
        }
      }
    }

    /** Queries every cluster, imports the disk groups nobody holds, and sets the active nodes. */
    method GatherActiveNodes(nodes: Nodes, importGroups: bool, stop: bool)
      returns (outcome: Outcome, ghost first: map<ClusterId, Replies>)
      modifies this`clusters, this`volumeGroups, nodes`holders, nodes`imports, nodes`lastReplies
      ensures outcome != Refused
      ensures OnlyActiveDiffers(old(volumeGroups), volumeGroups)
      ensures first.Keys <= old(clusters).Keys == clusters.Keys
      ensures forall c :: c in clusters ==> clusters[c].Keys == old(clusters)[c].Keys
      ensures FirstRepliesTruthful(old(nodes.holders), first)
      ensures forall c :: c in first ==> first[c].Keys <= clusters[c].Keys
      ensures AllImportsSafe(old(nodes.holders), nodes.holders, first, stop)
      ensures AllImportsLogged(old(nodes.imports), nodes.imports, first, stop)
      ensures forall c :: c in first && ReportedTwice(first[c]) ==> outcome == DoubleImport
      ensures outcome == Done ==>
        && first.Keys == clusters.Keys
        && (forall c :: c in clusters ==> first[c].Keys == clusters[c].Keys)
        && FlagsAgree(clusters.Keys, clusters, nodes.lastReplies)
        && (forall p :: p in volumeGroups ==>
              volumeGroups[p] == Settled(old(volumeGroups)[p], first, nodes.lastReplies))
    {
      first := map[];
      outcome := Done;
      var pending := clusters.Keys;
      while outcome == Done && pending != {}
        invariant outcome != Refused
        invariant OnlyActiveDiffers(old(volumeGroups), volumeGroups)
        invariant clusters.Keys == old(clusters).Keys && pending <= clusters.Keys
        invariant first.Keys == clusters.Keys - pending
        invariant forall c :: c in clusters ==> clusters[c].Keys == old(clusters)[c].Keys
        invariant FirstRepliesTruthful(old(nodes.holders), first)
        invariant forall c :: c in first ==> first[c].Keys <= clusters[c].Keys
        invariant AllImportsSafe(old(nodes.holders), nodes.holders, first, stop)
        invariant AllImportsLogged(old(nodes.imports), nodes.imports, first, stop)
        invariant forall c :: c in first && ReportedTwice(first[c]) ==> outcome == DoubleImport
        invariant outcome == Done ==>
          && (forall c :: c in first ==> first[c].Keys == clusters[c].Keys)
          && FlagsAgree(first.Keys, clusters, nodes.lastReplies)
          && (forall p :: p in volumeGroups ==>
                volumeGroups[p] == Settled(old(volumeGroups)[p], first, nodes.lastReplies))
        decreases pending, outcome == Done
      {
        var cluster :| cluster in pending;
        ghost var holders, imports, vgs := nodes.holders, nodes.imports, volumeGroups;
        ghost var flags, replies, seen := clusters, nodes.lastReplies, first;
        ghost var answers;
        outcome, answers := GatherCluster(nodes, cluster, importGroups, stop);
        pending := pending - {cluster};
        first := first[cluster := answers];
        ExtendSafe(old(nodes.holders), holders, nodes.holders, seen, cluster, answers, stop);
        ExtendLogged(old(nodes.imports), imports, nodes.imports, seen, cluster, answers, stop);
        if outcome == Done {
          ExtendRecorded(seen.Keys, flags, clusters, replies, nodes.lastReplies, cluster);
          assert first.Keys == seen.Keys + {cluster};
          ExtendSettled(old(volumeGroups), vgs, volumeGroups, seen, cluster, answers, replies, nodes.lastReplies);
        }
      }
    }

    method SetFilters(vgVpaths: seq<VgPath>, fsIds: seq<FsId>)
      modifies this`filters
      ensures filters == map["cluster_ids" := [], "vg_vpaths" := vgVpaths, "fs_ids" := fsIds]
      ensures FiltersAsSet() && forall p :: IsInTheFilter("vg_paths", p)
      ensures forall fs :: IsInTheFilter("fs_ids", fs) <==> fsIds == [] || fs in fsIds
    {
      filters := map["cluster_ids" := [], "vg_vpaths" := vgVpaths, "fs_ids" := fsIds];
    }

    predicate IsInTheFilter(filterName: string, value: string)
      reads this`filters
    {
      filterName !in filters || filters[filterName] == [] || value in filters[filterName]
    }

    /** The filter dictionary only ever holds these keys; the scans look up "vg_paths", which is none of them. */
    predicate FiltersAsSet()
      reads this`filters
    {
      filters.Keys <= {"cluster_ids", "vg_vpaths", "fs_ids"}
    }

    predicate Hit(nodes: Nodes, vg: VolumeGroupData, fs: FsId, checkForCache: bool)
      reads this`filters
    {
      && vg.active.On? && fs in vg.fileSystems && IsInTheFilter("fs_ids", fs)
      && (vg.active.host, vg.name, vg.fileSystems[fs].snapshotName, checkForCache) in nodes.presentOn
    }

    /** At most one file system of a volume group is marked, and one is if the agent reports any. */
    ghost predicate PresenceScanned(nodes: Nodes, before: VolumeGroupData, after: VolumeGroupData, checkForCache: bool)
      reads this`filters
    {
      || (exists fs :: Hit(nodes, before, fs, checkForCache) && after == MarkPresent(before, fs))
      || ((forall fs :: !Hit(nodes, before, fs, checkForCache)) && after == before)
    }

    /** Asks the active node for each filtered file system's snapshot and stops at the first one present. */
    method ScanPresence(nodes: Nodes, vg: VolumeGroupData, checkForCache: bool)
      returns (ok: bool, scanned: VolumeGroupData)
      requires vg.active.On?
      ensures ok ==> PresenceScanned(nodes, vg, scanned, checkForCache)
    {
      scanned := vg;
      var rest := vg.fileSystems.Keys;
      while rest != {}
        invariant rest <= vg.fileSystems.Keys && scanned == vg
        invariant forall fs :: fs in vg.fileSystems && fs !in rest ==> !Hit(nodes, vg, fs, checkForCache)
      {
        var fs :| fs in rest;
        rest := rest - {fs};
        if !IsInTheFilter("fs_ids", fs) {
          continue;
        }
        var present;
        ok, present := nodes.IsSnapshotPresent(vg.active.host, vg.name, vg.fileSystems[fs].snapshotName, checkForCache);
        if !ok {
          return;
        }
        if present {
          scanned := MarkPresent(vg, fs);
          assert Hit(nodes, vg, fs, checkForCache);
          return;
        }
      }
      ok := true;
    }

    /** The scan passes over a volume group without an active node, and a forced scan ends at the first one. */
    ghost predicate Skipped(vgs: map<VgPath, VolumeGroupData>, order: seq<VgPath>, i: nat)
      requires i < |order|
    {
      && order[i] in vgs
      && (Orphan(vgs[order[i]]) || (forced && exists j :: 0 <= j < i && order[j] in vgs && Orphan(vgs[order[j]])))
    }

    /** A scan runs through the dictionary up to index `k`: to its end or, when forced, to the first orphan. */
    ghost predicate ScanStopsAt(vgs: map<VgPath, VolumeGroupData>, order: seq<VgPath>, k: nat) {
      && k <= |order|
      && (forced ==> forall j :: 0 <= j < k && order[j] in vgs ==> !Orphan(vgs[order[j]]))
      && (k < |order| ==> forced && order[k] in vgs && Orphan(vgs[order[k]]))
    }

    ghost predicate PresenceOf(nodes: Nodes, before: VolumeGroupData, after: VolumeGroupData, checkForCache: bool)
      reads this`filters
    {
      if Orphan(before) then after == before else PresenceScanned(nodes, before, after, checkForCache)
    }

    ghost predicate ValidityOf(nodes: Nodes, before: VolumeGroupData, after: VolumeGroupData)
      reads this`filters
    {
      after == if Orphan(before) then before else ValidityScanned(nodes, before, before.fileSystems.Keys)
    }

    /** The groups of `seen` are scanned, every other one is as it was. */
    ghost predicate PresenceUpTo(nodes: Nodes, before: map<VgPath, VolumeGroupData>, after: map<VgPath,
                                 VolumeGroupData>, seen: seq<VgPath>, checkForCache: bool)
      reads this`filters
    {
      && after.Keys == before.Keys
      && forall p :: p in after ==>
           if p in seen then PresenceOf(nodes, before[p], after[p], checkForCache) else after[p] == before[p]
    }

    lemma {:induction false} PresenceOneMore(nodes: Nodes, before: map<VgPath, VolumeGroupData>,
        after: map<VgPath, VolumeGroupData>, seen: seq<VgPath>, p: VgPath, scanned: VolumeGroupData,
            checkForCache: bool)
      requires PresenceUpTo(nodes, before, after, seen, checkForCache) && p in before && p !in seen
      requires PresenceOf(nodes, before[p], scanned, checkForCache)
      ensures PresenceUpTo(nodes, before, after[p := scanned], seen + [p], checkForCache)
    {
    }

    /** Records which snapshots the agents report. `order` is the iteration order of the dictionary. */
    method GatherSnapshotsArePresent(nodes: Nodes, order: seq<VgPath>, checkForCache: bool)
      returns (outcome: Outcome, ghost reached: nat)
      requires FiltersAsSet()
      requires Enumerates(order, volumeGroups.Keys)
      modifies this`volumeGroups
      ensures outcome == Done || outcome == RpcFailed
      ensures reached <= |order| && volumeGroups.Keys == old(volumeGroups).Keys
      ensures outcome == Done ==> ScanStopsAt(old(volumeGroups), order, reached)
      ensures PresenceUpTo(nodes, old(volumeGroups), volumeGroups, order[..reached], checkForCache)
    {
      ghost var before := volumeGroups;
      for i := 0 to |order|
        invariant forced ==> forall j :: 0 <= j < i ==> !Orphan(before[order[j]])
        invariant PresenceUpTo(nodes, before, volumeGroups, order[..i], checkForCache)
      {
        var p := order[i];
        assert p !in order[..i] && order[..i + 1] == order[..i] + [p];
        if !IsInTheFilter("vg_paths", p) {
          continue;
        }
        if forced && Orphan(volumeGroups[p]) {
          return Done, i;
        }
        var scanned := volumeGroups[p];
        if volumeGroups[p].active.On? {
          var ok;
          ok, scanned := ScanPresence(nodes, volumeGroups[p], checkForCache);
          if !ok {
            return RpcFailed, i;
          }
        }
        PresenceOneMore(nodes, before, volumeGroups, order[..i], p, scanned, checkForCache);
        volumeGroups := volumeGroups[p := scanned];
      }
      return Done, |order|;
    }

    /** Each filtered file system whose snapshot is recorded as present gets the agent's verdict on it. */
    function ValidityScanned(nodes: Nodes, vg: VolumeGroupData, among: set<FsId>): VolumeGroupData
      reads this`filters
      requires vg.active.On?
    {
      vg.(fileSystems := map fs | fs in vg.fileSystems ::
        var data := vg.fileSystems[fs];
        if fs in among && IsInTheFilter("fs_ids", fs) && data.present != "" then
          data.(valid := if (vg.active.host, vg.name, data.present) in nodes.validOn then Valid else Invalid)
        else data)
    }

    method ScanValidity(nodes: Nodes, vg: VolumeGroupData) returns (ok: bool, scanned: VolumeGroupData)
      requires vg.active.On?
      ensures ok ==> scanned == ValidityScanned(nodes, vg, vg.fileSystems.Keys)
    {
      scanned := vg;
      var rest := vg.fileSystems.Keys;
      assert scanned == ValidityScanned(nodes, vg, {});
      while rest != {}
        invariant rest <= vg.fileSystems.Keys
        invariant scanned == ValidityScanned(nodes, vg, vg.fileSystems.Keys - rest)
      {
        var fs :| fs in rest;
        var data := vg.fileSystems[fs];
        ghost var among := vg.fileSystems.Keys - rest;
        rest := rest - {fs};
        assert vg.fileSystems.Keys - rest == among + {fs};
        if !IsInTheFilter("fs_ids", fs) || data.present == "" {
          assert ValidityScanned(nodes, vg, among + {fs}).fileSystems == ValidityScanned(nodes, vg, among).fileSystems;
          continue;
        }
        var valid;
        ok, valid := nodes.CheckSnapshot(vg.active.host, vg.name, data.present);
        if !ok {
          return;
        }
        scanned := scanned.(fileSystems := scanned.fileSystems[fs := data.(valid := if valid then Valid else Invalid)]);
        assert scanned.fileSystems == ValidityScanned(nodes, vg, among + {fs}).fileSystems;
      }
      ok := true;
    }

    /** Records which of the present snapshots are valid, in the same order and with the same early exit. */
    method GatherSnapshotsAreValid(nodes: Nodes, order: seq<VgPath>)
      returns (outcome: Outcome, ghost reached: nat)
      requires FiltersAsSet()
      requires Enumerates(order, volumeGroups.Keys)
      modifies this`volumeGroups
      ensures outcome == Done || outcome == RpcFailed
      ensures reached <= |order| && volumeGroups.Keys == old(volumeGroups).Keys
      ensures outcome == Done ==> ScanStopsAt(old(volumeGroups), order, reached)
      ensures forall p :: p in volumeGroups ==>
        if p in order[..reached] then ValidityOf(nodes, old(volumeGroups)[p], volumeGroups[p])
        else volumeGroups[p] == old(volumeGroups)[p]
    {
      ghost var before := volumeGroups;
      for i := 0 to |order|
        invariant volumeGroups.Keys == before.Keys
        invariant forced ==> forall j :: 0 <= j < i ==> !Orphan(before[order[j]])
        invariant forall p :: p in volumeGroups ==>
          if p in order[..i] then ValidityOf(nodes, before[p], volumeGroups[p]) else volumeGroups[p] == before[p]
      {
        var p := order[i];
        assert p !in order[..i] && order[..i + 1] == order[..i] + [p];
        if !IsInTheFilter("vg_paths", p) {
          continue;
        }
        if forced && Orphan(volumeGroups[p]) {
          return Done, i;
        }
        if volumeGroups[p].active.On? {
          var ok, scanned := ScanValidity(nodes, volumeGroups[p]);
          if !ok {
            return RpcFailed, i;
          }
          volumeGroups := volumeGroups[p := scanned];
        }
      }
      return Done, |order|;
    }

    /** The filters name one file system of one volume group. */
    predicate Targets(vgPath: VgPath, fs: FsId)
      reads this`filters
    {
      filters == map["cluster_ids" := [], "vg_vpaths" := [vgPath], "fs_ids" := [fs]]
    }

    /** Deletes the recorded snapshot of the filtered file system on its group's active node. */
    method RemoveSnapshot(nodes: Nodes, ghost vgPath: VgPath, ghost fs: FsId) returns (outcome: Outcome)
      requires Targets(vgPath, fs) && vgPath in volumeGroups && fs in volumeGroups[vgPath].fileSystems
      modifies nodes`requests
      ensures var vg := volumeGroups[vgPath];
        && nodes.requests == old(nodes.requests) +
             (if vg.active.On? && vg.fileSystems[fs].present != ""
              then [Delete(vg.active.host, vg.name, fs, vg.fileSystems[fs].present)] else [])
        && (vg.active.On? ==> outcome == Done || (outcome == RpcFailed && vg.fileSystems[fs].present != ""))
        && (!vg.active.On? ==> outcome == if forced then Done else Refused)
    {
      var vg := volumeGroups[filters["vg_vpaths"][0]];
      var fsId := filters["fs_ids"][0];
      if !vg.active.On? {
        return if forced then Done else Refused;
      }
      var data := vg.fileSystems[fsId];
      outcome := Done;
      if data.present != "" {
        var ok := nodes.Send(Delete(vg.active.host, vg.name, fsId, data.present));
        outcome := if ok then Done else RpcFailed;
      }
    }

    /** Restores the filtered file system from its recorded snapshot on its group's active node. */
    method RestoreSnapshot(nodes: Nodes, ghost vgPath: VgPath, ghost fs: FsId) returns (outcome: Outcome)
      requires Targets(vgPath, fs) && vgPath in volumeGroups && fs in volumeGroups[vgPath].fileSystems
      modifies nodes`requests
      ensures var vg := volumeGroups[vgPath];
        && nodes.requests == old(nodes.requests) +
             (if vg.active.On? && vg.fileSystems[fs].present != ""
              then [Restore(vg.active.host, vg.name, fs, vg.fileSystems[fs].present)] else [])
        && (vg.active.On? && vg.fileSystems[fs].present != "" ==> outcome == Done || outcome == RpcFailed)
        && (!vg.active.On? || vg.fileSystems[fs].present == "" ==> outcome == if forced then Done else Refused)
    {
      var vg := volumeGroups[filters["vg_vpaths"][0]];
      var fsId := filters["fs_ids"][0];
      if !vg.active.On? && forced {
        return Done;
      }
      var failed := false;
      outcome := Done;
      if !vg.active.On? {
        failed := true;
      } else {
        var data := vg.fileSystems[fsId];
        if data.present != "" {
          var ok := nodes.Send(Restore(vg.active.host, vg.name, fsId, data.present));
          outcome := if ok then Done else RpcFailed;
        } else {
          failed := true;
        }
      }
      if failed && !forced {
        outcome := Refused;
      }
    }

    lemma {:induction false} SkippedWhenNotReached(vgs: map<VgPath, VolumeGroupData>, order: seq<VgPath>, k: nat,
        i: nat)
      requires ScanStopsAt(vgs, order, k) && Enumerates(order, vgs.Keys) && i < |order|
      ensures Skipped(vgs, order, i) <==> Orphan(vgs[order[i]]) || order[i] !in order[..k]
    {
    }

    /** The presence scan marks the filtered file system of a group exactly when the agent reports it. */
    lemma {:induction false} MarkedWhenReported(nodes: Nodes, before: VolumeGroupData, after: VolumeGroupData,
                             vgPath: VgPath, fs: FsId, checkForCache: bool)
      requires Targets(vgPath, fs) && PresenceOf(nodes, before, after, checkForCache)
      ensures OnlyFsDiffers(before, after, fs)
      ensures fs in before.fileSystems ==>
        after.fileSystems[fs].present ==
          if Hit(nodes, before, fs, checkForCache) then before.fileSystems[fs].snapshotName
          else before.fileSystems[fs].present
    {
      assert filters["fs_ids"] == [fs];
      assert forall f :: IsInTheFilter("fs_ids", f) <==> f == fs;
    }

    lemma {:induction false} VerdictOnly(nodes: Nodes, before: VolumeGroupData, after: VolumeGroupData,
        vgPath: VgPath, fs: FsId)
      requires Targets(vgPath, fs) && ValidityOf(nodes, before, after)
      ensures OnlyFsDiffers(before, after, fs)
      ensures fs in before.fileSystems ==> after.fileSystems[fs].present == before.fileSystems[fs].present
    {
      assert filters["fs_ids"] == [fs];
      assert forall f :: IsInTheFilter("fs_ids", f) <==> f == fs;
    }

    /** Both scans one after the other. */
    method ScanSnapshots(nodes: Nodes, order: seq<VgPath>, checkForCache: bool, ghost vgPath: VgPath, ghost fs: FsId)
      returns (outcome: Outcome)
      requires Targets(vgPath, fs)
      requires Enumerates(order, volumeGroups.Keys)
      modifies this`volumeGroups
      ensures outcome == Done || outcome == RpcFailed
      ensures volumeGroups.Keys == old(volumeGroups).Keys
      ensures forall p :: p in volumeGroups ==> OnlyFsDiffers(old(volumeGroups)[p], volumeGroups[p], fs)
      ensures outcome == Done ==> forall i ::
        0 <= i < |order| && fs in volumeGroups[order[i]].fileSystems
        && fs in old(volumeGroups)[order[i]].fileSystems ==>
        volumeGroups[order[i]].fileSystems[fs].present ==
          if !Skipped(volumeGroups, order, i) && Hit(nodes, volumeGroups[order[i]], fs, checkForCache)
          then volumeGroups[order[i]].fileSystems[fs].snapshotName
          else old(volumeGroups)[order[i]].fileSystems[fs].present
    {
      ghost var v0 := volumeGroups;
      ghost var k0, k1;
      outcome, k0 := GatherSnapshotsArePresent(nodes, order, checkForCache);
      ghost var v1 := volumeGroups;
      forall p | p in v0
        ensures OnlyFsDiffers(v0[p], v1[p], fs)
        ensures fs in v0[p].fileSystems ==>
          v1[p].fileSystems[fs].present ==
          if p in order[..k0] && Hit(nodes, v0[p], fs, checkForCache) then v0[p].fileSystems[fs].snapshotName
          else v0[p].fileSystems[fs].present
      {
        if p in order[..k0] {
          MarkedWhenReported(nodes, v0[p], v1[p], vgPath, fs, checkForCache);
        }
      }
      if outcome == Done {
        outcome, k1 := GatherSnapshotsAreValid(nodes, order);
        forall p | p in v1
          ensures OnlyFsDiffers(v1[p], volumeGroups[p], fs)
          ensures fs in v1[p].fileSystems ==> volumeGroups[p].fileSystems[fs].present == v1[p].fileSystems[fs].present
        {
          if p in order[..k1] {
            VerdictOnly(nodes, v1[p], volumeGroups[p], vgPath, fs);
          }
        }
        forall i: nat | i < |order|
          ensures Skipped(volumeGroups, order, i) <==> Orphan(v0[order[i]]) || order[i] !in order[..k0]
        {
          SkippedWhenNotReached(v0, order, k0, i);
        }
      }
    }

    /** Creates the snapshot of the filtered file system on its group's active node, which must be there. */
    method CreateSnapshot(nodes: Nodes, ghost vgPath: VgPath, ghost fs: FsId) returns (outcome: Outcome)
      requires Targets(vgPath, fs) && vgPath in volumeGroups && fs in volumeGroups[vgPath].fileSystems
      modifies nodes`requests
      ensures outcome == Refused <==> !volumeGroups[vgPath].active.On?
      ensures outcome == Refused || outcome == RpcFailed || outcome == Done
      ensures outcome == Done ==> nodes.requests == old(nodes.requests) + [Creation(volumeGroups[vgPath], fs)]
      ensures outcome == RpcFailed ==>
        || nodes.requests == old(nodes.requests)
        || nodes.requests == old(nodes.requests) + [Creation(volumeGroups[vgPath], fs)]
      ensures outcome == Refused ==> nodes.requests == old(nodes.requests)
    {
      var vg := volumeGroups[filters["vg_vpaths"][0]];
      var fsId := filters["fs_ids"][0];
      if !vg.active.On? {
        return Refused;
      }
      var ok := nodes.CheckRegionSize(vg.active.host, vg.name);
      if ok {
        ok := nodes.Send(Create(vg.active.host, vg.name, fsId, vg.fileSystems[fsId].snapshotName));
      }
      outcome := if ok then Done else RpcFailed;
    }

    /** The create task's callback: one request, for the named file system to its group's active node. */
    method CreateSnapshotCallback(nodes: Nodes, vgPath: VgPath, fs: FsId) returns (outcome: Outcome)
      requires vgPath in volumeGroups && fs in volumeGroups[vgPath].fileSystems
      modifies this, nodes`holders, nodes`imports, nodes`lastReplies, nodes`requests
      ensures OnlyActiveDiffers(old(volumeGroups), volumeGroups)
      ensures outcome == Done ==>
        && volumeGroups[vgPath].active.On?
        && nodes.requests == old(nodes.requests) + [Creation(volumeGroups[vgPath], fs)]
      ensures outcome != Done ==>
        || nodes.requests == old(nodes.requests)
        || (outcome == RpcFailed && volumeGroups[vgPath].active.On?
            && nodes.requests == old(nodes.requests) + [Creation(volumeGroups[vgPath], fs)])
    {
      SetFilters([vgPath], [fs]);
      ghost var first;
      outcome, first := GatherActiveNodes(nodes, true, false);
      if outcome != Done {
        return;
      }
      outcome := CreateSnapshot(nodes, vgPath, fs);
    }

    /** The remove task's callback. */
    method RemoveSnapshotCallback(nodes: Nodes, order: seq<VgPath>, vgPath: VgPath, fs: FsId, ghost target: nat)
      returns (outcome: Outcome)
      requires Enumerates(order, volumeGroups.Keys)
      requires target < |order| && order[target] == vgPath && fs in volumeGroups[vgPath].fileSystems
      requires volumeGroups[vgPath].fileSystems[fs].present == ""
      requires volumeGroups[vgPath].fileSystems[fs].snapshotName != ""
      modifies this, nodes`holders, nodes`imports, nodes`lastReplies, nodes`requests
      ensures volumeGroups.Keys == old(volumeGroups).Keys
      ensures forall p :: p in volumeGroups ==>
        OnlyFsDiffers(old(volumeGroups)[p].(active := volumeGroups[p].active), volumeGroups[p], fs)
      ensures fs in volumeGroups[vgPath].fileSystems
      ensures outcome != Done ==>
        || nodes.requests == old(nodes.requests)
        || (outcome == RpcFailed && volumeGroups[vgPath].active.On?
            && nodes.requests == old(nodes.requests) + [Deletion(volumeGroups[vgPath], fs)])
      ensures outcome == Done ==>
        nodes.requests == old(nodes.requests) +
          if !Skipped(volumeGroups, order, target) && Hit(nodes, volumeGroups[vgPath], fs, true)
          then [Deletion(volumeGroups[vgPath], fs)] else []
      ensures outcome == Done && !forced ==> volumeGroups[vgPath].active.On?
    {
      SetFilters([vgPath], [fs]);
      ghost var first;
      outcome, first := GatherActiveNodes(nodes, true, false);
      if outcome != Done {
        return;
      }
      outcome := ScanSnapshots(nodes, order, true, vgPath, fs);
      if outcome != Done {
        return;
      }
      outcome := RemoveSnapshot(nodes, vgPath, fs);
    }

    /** The restore task's callback. */
    method RestoreSnapshotCallback(nodes: Nodes, order: seq<VgPath>, vgPath: VgPath, fs: FsId, ghost target: nat)
      returns (outcome: Outcome)
      requires Enumerates(order, volumeGroups.Keys)
      requires target < |order| && order[target] == vgPath && fs in volumeGroups[vgPath].fileSystems
      requires volumeGroups[vgPath].fileSystems[fs].present == ""
      requires volumeGroups[vgPath].fileSystems[fs].snapshotName != ""
      modifies this, nodes`holders, nodes`imports, nodes`lastReplies, nodes`requests
      ensures volumeGroups.Keys == old(volumeGroups).Keys
      ensures forall p :: p in volumeGroups ==>
        OnlyFsDiffers(old(volumeGroups)[p].(active := volumeGroups[p].active), volumeGroups[p], fs)
      ensures fs in volumeGroups[vgPath].fileSystems
      ensures outcome != Done ==>
        || nodes.requests == old(nodes.requests)
        || (outcome == RpcFailed && volumeGroups[vgPath].active.On?
            && nodes.requests == old(nodes.requests) + [Restoration(volumeGroups[vgPath], fs)])
      ensures outcome == Done ==>
        nodes.requests == old(nodes.requests) +
          if !Skipped(volumeGroups, order, target) && Hit(nodes, volumeGroups[vgPath], fs, false)
          then [Restoration(volumeGroups[vgPath], fs)] else []
      ensures outcome == Done && !forced ==> Hit(nodes, volumeGroups[vgPath], fs, false)
    {
      SetFilters([vgPath], [fs]);
      ghost var first;
      outcome, first := GatherActiveNodes(nodes, true, false);
      if outcome != Done {
        return;
      }
      outcome := ScanSnapshots(nodes, order, false, vgPath, fs);
      if outcome != Done {
        return;
      }
      outcome := RestoreSnapshot(nodes, vgPath, fs);
    }
  }
}
