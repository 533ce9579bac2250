/** Finding the node on which each of some disk groups is imported, importing those that nobody reports. */
module VxvmDgHost {
  import opened Seqs

  type Host = string
  type DiskGroup = string

  datatype Reply = Groups(names: set<DiskGroup>) | NoAnswer | Failed

  type Replies = map<Host, Reply>

  datatype Outcome = Done | PluginError | ImportedTwice | NotImported

  type Holders = map<DiskGroup, set<Host>>

  predicate Holds(holders: Holders, host: Host, group: DiskGroup) {
    group in holders && host in holders[group]
  }

  predicate Reported(replies: Replies, host: Host, group: DiskGroup) {
    host in replies && replies[host].Groups? && group in replies[host].names
  }

  predicate ReportedAnywhere(replies: Replies, group: DiskGroup) {
    exists host :: host in replies && Reported(replies, host, group)
  }

  ghost predicate ReportedTwice(replies: Replies, groups: seq<DiskGroup>) {
    exists group, h1, h2 :: group in groups && h1 != h2 && Reported(replies, h1, group) && Reported(replies, h2, group)
  }

  /** A query is an error when a node failed, or did not answer and that is not to be ignored. */
  predicate Erroneous(replies: Replies, ignoreUnreachable: bool) {
    exists host :: host in replies && (replies[host].Failed? || (replies[host].NoAnswer? && !ignoreUnreachable))
  }

  /** What a node reports is what it holds. */
  ghost predicate Truthful(holders: Holders, replies: Replies) {
    forall host, group :: host in replies && replies[host].Groups? ==>
      (Reported(replies, host, group) <==> Holds(holders, host, group))
  }

  function Without(hosts: seq<Host>, gone: set<Host>): seq<Host> {
    if hosts == [] then [] else Without(Front(hosts), gone) + if Last(hosts) in gone then [] else [Last(hosts)]
  }

  function Missing(groups: seq<DiskGroup>, found: map<DiskGroup, Host>): seq<DiskGroup> {
    if groups == [] then []
    else Missing(Front(groups), found) + if Last(groups) in found then [] else [Last(groups)]
  }

  predicate At(found: map<DiskGroup, Host>, group: DiskGroup, host: Host) {
    group in found && found[group] == host
  }

  function Silent(replies: Replies): set<Host> {
    set h | h in replies && replies[h].NoAnswer?
  }

  /** The nodes that are left to import on; the first of them is chosen. */
  function Reachable(hosts: seq<Host>, first: Replies): seq<Host> {
    Without(hosts, Silent(first))
  }

  /** Each requested group that is reported maps to the host that reports it. */
  ghost predicate FoundExactly(replies: Replies, groups: seq<DiskGroup>, found: map<DiskGroup, Host>) {
    forall group, host :: At(found, group, host) <==> (group in groups && Reported(replies, host, group))
  }

  /** What happens to the n-th request: a query may fail as a whole, a node may be silent or fail, an import may be
      refused, and it may have no effect although it is not refused. */
  datatype Weather = Weather(fails: nat -> bool, silent: nat -> set<Host>, failed: nat -> set<Host>,
                             refuses: nat -> bool, loses: nat -> bool)
  {
    ghost predicate CalmAt(n: nat) {
      !fails(n) && silent(n) == {} && failed(n) == {} && !refuses(n) && !loses(n)
    }

    ghost predicate Calm() {
      forall n: nat :: CalmAt(n)
    }
  }

  class Nodes {
    var holders: Holders
    var imports: seq<(DiskGroup, Host)>
    var requests: nat
    const weather: Weather

    constructor (holders: Holders, weather: Weather)
      ensures this.holders == holders && this.weather == weather && imports == [] && requests == 0
    {
      this.holders, this.weather, imports, requests := holders, weather, [], 0;
    }

    method GetDgHostname(hosts: seq<Host>) returns (ok: bool, replies: Replies)
      modifies this`requests
      ensures replies.Keys == (if ok then set h | h in hosts else {}) && Truthful(holders, replies)
      ensures weather.Calm() ==> ok && forall h :: h in replies ==> replies[h].Groups?
    {
      assert weather.CalmAt(requests) || !weather.Calm();
      ok := !weather.fails(requests);
      var silent, failed := weather.silent(requests), weather.failed(requests);
      replies := map h | ok && h in hosts ::
        if h in silent then NoAnswer
        else if h in failed then Failed
        else Groups(set g | g in holders && h in holders[g]);
      requests := requests + 1;
    }

    method ImportDiskGroup(group: DiskGroup, host: Host) returns (ok: bool)
      modifies this
      ensures imports == old(imports) + [(group, host)]
      ensures holders == old(holders)
        || holders == old(holders)[group := {host} + if group in old(holders) then old(holders)[group] else {}]
      ensures weather.Calm() ==> ok && Holds(holders, host, group)
    {
      assert weather.CalmAt(requests) || !weather.Calm();
      imports := imports + [(group, host)];
      ok := !weather.refuses(requests);
      if !weather.loses(requests) {
        holders := holders[group := {host} + if group in holders then holders[group] else {}];
      }
      requests := requests + 1;
    }
  }

  class Driver {
    var unreachable: set<Host>

    constructor ()
      ensures unreachable == {}
    {
      unreachable := {};
    }

    /** Asks the nodes and maps each requested group to the one node that reports it. */
    method VgMetadata(nodes: Nodes, hosts: seq<Host>, groups: seq<DiskGroup>, ignoreUnreachable: bool)
      returns (outcome: Outcome, found: map<DiskGroup, Host>, ghost replies: Replies)
      modifies this, nodes`requests
      ensures outcome == Done || outcome == PluginError || outcome == ImportedTwice
      ensures replies.Keys <= (set h | h in hosts) && Truthful(nodes.holders, replies)
      ensures outcome != PluginError ==>
        && replies.Keys == (set h | h in hosts)
        && !Erroneous(replies, ignoreUnreachable) && unreachable == old(unreachable) + Silent(replies)
        && (outcome == ImportedTwice <==> ReportedTwice(replies, groups))
      ensures outcome == PluginError ==> replies == map[] || Erroneous(replies, ignoreUnreachable)
      ensures outcome == Done ==> FoundExactly(replies, groups, found)
      ensures nodes.weather.Calm() ==> outcome != PluginError && forall h :: h in replies ==> replies[h].Groups?
    {
      found := map[];
      var ok, answers := nodes.GetDgHostname(hosts);
      replies := answers;
      if !ok {
        return PluginError, found, replies;
      }
      var silent := Silent(answers);
      if ignoreUnreachable {
        unreachable := unreachable + silent;
      }
      if Erroneous(answers, ignoreUnreachable) {
        return PluginError, found, replies;
      }
      if !ignoreUnreachable {
        assert silent == {};
      }
      var left := set h | h in answers && answers[h].Groups?;
      while left != {}
        invariant left <= set h | h in answers && answers[h].Groups?
        invariant unreachable == old(unreachable) + silent
        invariant forall group, host :: At(found, group, host) <==>
          (group in groups && Reported(answers, host, group) && host !in left)
      {
        var host :| host in left;
        var clash: bool;
        clash, found := AddGroups(answers, host, groups, found);
        if clash {
          return ImportedTwice, found, replies;
        }
        left := left - {host};
      }
      forall group, h1, h2 | group in groups && Reported(answers, h1, group) && Reported(answers, h2, group)
        ensures h1 == h2
      {
        assert At(found, group, h1) && At(found, group, h2);
      }
      return Done, found, replies;
    }

    /** The groups of one node; a requested group that another node already has is a clash. */
    method AddGroups(answers: Replies, host: Host, groups: seq<DiskGroup>, already: map<DiskGroup, Host>)
      returns (clash: bool, found: map<DiskGroup, Host>)
      requires host in answers && answers[host].Groups?
      requires forall group, h :: At(already, group, h) ==> group in groups && Reported(answers, h, group) && h != host
      ensures clash ==> ReportedTwice(answers, groups)
      ensures !clash ==> forall group, h :: At(found, group, h) <==>
        At(already, group, h) || (h == host && group in groups && Reported(answers, host, group))
    {
      found := already;
      clash := false;
      var names := set g | g in answers[host].names && g in groups;
      while names != {}
        invariant names <= set g | g in answers[host].names && g in groups
        invariant forall group, h :: At(found, group, h) <==>
          At(already, group, h)
          || (h == host && group in groups && Reported(answers, host, group) && group !in names)
      {
        var group :| group in names;
        if group in found {
          assert At(found, group, found[group]) && At(already, group, found[group]);
          assert Reported(answers, found[group], group) && Reported(answers, host, group) && found[group] != host;
          return true, found;
        }
        found := found[group := host];
        names := names - {group};
      }
    }

    /** `first` and `second` are what the nodes replied; `node` is the one that was sent imports and asked again. */
    method GetDgHostname(nodes: Nodes, applied: seq<Host>, groups: seq<DiskGroup>, ignoreUnreachable: bool)
      returns (outcome: Outcome, found: map<DiskGroup, Host>,
               ghost first: Replies, ghost second: Replies, ghost node: Option<Host>)
      modifies this, nodes
      ensures outcome == Done ==> forall group :: group in groups ==> group in found
      ensures applied == [] ==> outcome == PluginError
      ensures first.Keys <= (set h | h in applied) && Truthful(old(nodes.holders), first)
      ensures node.None? ==>
        && nodes.holders == old(nodes.holders) && nodes.imports == old(nodes.imports)
        && (outcome == Done ==> FoundExactly(first, groups, found))
      ensures node.Some? ==>
        && Reachable(applied, first) != [] && node.value == Reachable(applied, first)[0]
        && ImportedSafely(old(nodes.imports), nodes.imports, first, groups, node.value)
        && Gained(old(nodes.holders), nodes.holders, first, groups, node.value)
        && second.Keys <= {node.value} && Truthful(nodes.holders, second)
        && (outcome == Done ==> FoundExactly(second, groups, found))
      ensures node.Some? && Answers(second, node.value) ==>
        (outcome == Done <==> HoldsAll(nodes.holders, node.value, groups))
      ensures node.Some? && Answers(second, node.value) && TookEffect(nodes.holders, first, groups, node.value) ==>
        (outcome == Done <==> ReportsAll(first, node.value, groups))
      ensures nodes.weather.Calm() ==> outcome == LookUp(old(nodes.holders), applied, groups)
    {
      unreachable := {};
      first, second, found, node := map[], map[], map[], None;
      if applied == [] {
        return PluginError, found, first, second, node;
      }
      assert applied[0] in applied;
      outcome, found, first := VgMetadata(nodes, applied, groups, ignoreUnreachable);
      if nodes.weather.Calm() {
        AllReport(nodes.holders, applied, groups, first);
      }
      if outcome != Done {
        return;
      }
      var missing := Missing(groups, found);
      MissingMembers(groups, found);
      FoundIsReported(first, groups, found);
      if missing == [] {
        assert forall group :: group in groups ==> group in found;
        return;
      }
      assert missing[0] in missing;
      assert unreachable == Silent(first);
      var left := Without(applied, unreachable);
      WithoutMembers(applied, unreachable);
      assert nodes.weather.Calm() ==> applied[0] in left;
      if left == [] {
        return NotImported, found, first, second, node;
      }
      assert left[0] in left;
      node := Some(left[0]);
      outcome, found, second := Reimport(nodes, first, missing, groups, left[0], ignoreUnreachable);
    }

    /** The end of the look-up: imports what is missing on the node and asks that node again. */
    method Reimport(nodes: Nodes, ghost first: Replies, missing: seq<DiskGroup>, groups: seq<DiskGroup>, host: Host,
                    ignoreUnreachable: bool)
      returns (outcome: Outcome, found: map<DiskGroup, Host>, ghost second: Replies)
      requires Truthful(nodes.holders, first) && Answers(first, host) && missing != []
      requires forall g :: g in missing <==> g in groups && !ReportedAnywhere(first, g)
      modifies this, nodes
      ensures outcome == Done ==> FoundExactly(second, groups, found)
      ensures outcome == Done ==> forall group :: group in groups ==> group in found
      ensures ImportedSafely(old(nodes.imports), nodes.imports, first, groups, host)
      ensures Gained(old(nodes.holders), nodes.holders, first, groups, host)
      ensures second.Keys <= {host} && Truthful(nodes.holders, second)
      ensures Answers(second, host) ==> (outcome == Done <==> HoldsAll(nodes.holders, host, groups))
      ensures Answers(second, host) && TookEffect(nodes.holders, first, groups, host) ==>
        (outcome == Done <==> ReportsAll(first, host, groups))
      ensures nodes.weather.Calm() ==> outcome == if ReportsAll(first, host, groups) then Done else NotImported
    {
      second, found := map[], map[];
      var ok := ImportDiskGroups(nodes, missing, host);
      if !ok {
        return NotImported, found, second;
      }
      outcome, found, second := VgMetadata(nodes, [host], groups, ignoreUnreachable);
      assert host in [host];
      if Answers(second, host) {
        SecondReply(old(nodes.holders), nodes.holders, first, second, groups, host);
      }
      if outcome != Done {
        return;
      }
      MissingMembers(groups, found);
      FoundIsReported(second, groups, found);
      if Missing(groups, found) != [] {
        var lost := Missing(groups, found)[0];
        assert lost in Missing(groups, found);
        outcome := NotImported;
      }
    }

    method ImportDiskGroups(nodes: Nodes, groups: seq<DiskGroup>, host: Host) returns (ok: bool)
      requires groups != []
      modifies nodes
      ensures |old(nodes.imports)| < |nodes.imports| && nodes.imports[..|old(nodes.imports)|] == old(nodes.imports)
      ensures forall n :: |old(nodes.imports)| <= n < |nodes.imports| ==>
        nodes.imports[n].1 == host && nodes.imports[n].0 in groups
      ensures forall h, g :: Holds(old(nodes.holders), h, g) ==> Holds(nodes.holders, h, g)
      ensures forall h, g :: Holds(nodes.holders, h, g) ==>
        Holds(old(nodes.holders), h, g) || (h == host && g in groups)
      ensures nodes.weather.Calm() ==> ok && HoldsAll(nodes.holders, host, groups)
    {
      ok := true;
      var i := 0;
      while ok && i < |groups|
        invariant 0 <= i <= |groups| && (i > 0 ==> |old(nodes.imports)| < |nodes.imports|)
        invariant |old(nodes.imports)| <= |nodes.imports| && nodes.imports[..|old(nodes.imports)|] == old(nodes.imports)
        invariant i == 0 ==> ok
        invariant forall n :: |old(nodes.imports)| <= n < |nodes.imports| ==>
          nodes.imports[n].1 == host && nodes.imports[n].0 in groups
        invariant forall h, g :: Holds(old(nodes.holders), h, g) ==> Holds(nodes.holders, h, g)
        invariant forall h, g :: Holds(nodes.holders, h, g) ==>
          Holds(old(nodes.holders), h, g) || (h == host && g in groups)
        invariant nodes.weather.Calm() ==> ok && forall k :: 0 <= k < i ==> Holds(nodes.holders, host, groups[k])
        decreases |groups| - i
      {
        ok := nodes.ImportDiskGroup(groups[i], host);
        i := i + 1;
      }
    }
  }

  predicate Answers(replies: Replies, host: Host) {
    host in replies && replies[host].Groups?
  }

  predicate HoldsAll(holders: Holders, host: Host, groups: seq<DiskGroup>) {
    forall g :: g in groups ==> Holds(holders, host, g)
  }

  /** Every requested group that any node reported is reported by this node. */
  ghost predicate ReportsAll(replies: Replies, host: Host, groups: seq<DiskGroup>) {
    forall g :: g in groups && ReportedAnywhere(replies, g) ==> Reported(replies, host, g)
  }

  /** The node gained nothing but requested groups that no node reported, and no other node gained or lost any. */
  ghost predicate Gained(before: Holders, after: Holders, first: Replies, groups: seq<DiskGroup>, host: Host) {
    && (forall h, g :: Holds(before, h, g) ==> Holds(after, h, g))
    && forall h, g :: Holds(after, h, g) ==>
         Holds(before, h, g) || (h == host && g in groups && !ReportedAnywhere(first, g))
  }

  ghost predicate TookEffect(after: Holders, first: Replies, groups: seq<DiskGroup>, host: Host) {
    forall g :: g in groups && !ReportedAnywhere(first, g) ==> Holds(after, host, g)
  }

  predicate HeldAmong(holders: Holders, hosts: seq<Host>, group: DiskGroup) {
    exists h :: h in hosts && Holds(holders, h, group)
  }

  ghost predicate HeldTwice(holders: Holders, hosts: seq<Host>, groups: seq<DiskGroup>) {
    exists g, h1, h2 :: g in groups && h1 in hosts && h2 in hosts && h1 != h2
      && Holds(holders, h1, g) && Holds(holders, h2, g)
  }

  /** What the look-up comes to when nothing goes wrong: a missing group is imported on the first node, which then has
      to hold all the others too. */
  ghost function LookUp(holders: Holders, hosts: seq<Host>, groups: seq<DiskGroup>): Outcome {
    if hosts == [] then PluginError
    else if HeldTwice(holders, hosts, groups) then ImportedTwice
    else if forall g :: g in groups ==> HeldAmong(holders, hosts, g) then Done
    else if forall g :: g in groups && HeldAmong(holders, hosts, g) ==> Holds(holders, hosts[0], g) then Done
    else NotImported
  }

  /** All new requests go to one node that answered, for requested groups that no node reported. */
  ghost predicate ImportedSafely(before: seq<(DiskGroup, Host)>, after: seq<(DiskGroup, Host)>, first: Replies,
                                 groups: seq<DiskGroup>, host: Host)
  {
    && |before| <= |after| && after[..|before|] == before
    && host in first && first[host].Groups?
    && forall n :: |before| <= n < |after| ==>
         after[n].1 == host && after[n].0 in groups && !ReportedAnywhere(first, after[n].0)
  }

  lemma {:induction false} MissingMembers(groups: seq<DiskGroup>, found: map<DiskGroup, Host>)
    ensures forall g :: g in Missing(groups, found) <==> g in groups && g !in found
  {
    if groups != [] {
      MissingMembers(Front(groups), found);
      assert groups == Front(groups) + [Last(groups)];
    }
  }

  lemma {:induction false} FoundIsReported(replies: Replies, groups: seq<DiskGroup>, found: map<DiskGroup, Host>)
    requires FoundExactly(replies, groups, found)
    ensures forall g :: g in groups ==> (g in found <==> ReportedAnywhere(replies, g))
  {
    forall g | g in groups ensures g in found <==> ReportedAnywhere(replies, g) {
      if g in found {
        assert At(found, g, found[g]);
      }
      if host :| host in replies && Reported(replies, host, g) {
        assert At(found, g, host);
      }
    }
  }

  lemma {:induction false} WithoutMembers(hosts: seq<Host>, gone: set<Host>)
    ensures forall h :: h in Without(hosts, gone) <==> h in hosts && h !in gone
  {
    if hosts != [] {
      WithoutMembers(Front(hosts), gone);
      assert hosts == Front(hosts) + [Last(hosts)];
    }
  }

  lemma {:induction false} AllReport(holders: Holders, hosts: seq<Host>, groups: seq<DiskGroup>, first: Replies)
    requires Truthful(holders, first) && first.Keys == (set h | h in hosts)
    requires forall h :: h in first ==> first[h].Groups?
    ensures forall h, g :: Reported(first, h, g) <==> h in hosts && Holds(holders, h, g)
    ensures forall g :: ReportedAnywhere(first, g) <==> HeldAmong(holders, hosts, g)
    ensures ReportedTwice(first, groups) <==> HeldTwice(holders, hosts, groups)
    ensures Reachable(hosts, first) == hosts
  {
    forall h, g ensures Reported(first, h, g) <==> h in hosts && Holds(holders, h, g) {
      assert h in hosts <==> h in first;
    }
    forall g ensures ReportedAnywhere(first, g) <==> HeldAmong(holders, hosts, g) {
      if h :| h in hosts && Holds(holders, h, g) {
        assert h in first && Reported(first, h, g);
      }
      if h :| h in first && Reported(first, h, g) {
        assert h in hosts && Holds(holders, h, g);
      }
    }
    WithoutNobody(hosts, Silent(first));
  }

  lemma {:induction false} WithoutNobody(hosts: seq<Host>, gone: set<Host>)
    requires gone == {}
    ensures Without(hosts, gone) == hosts
  {
    if hosts != [] {
      WithoutNobody(Front(hosts), gone);
      assert hosts == Front(hosts) + [Last(hosts)];
    }
  }

  /** What the second query can find: all of the groups when the node holds them, which after imports that took effect
      means that it had reported every group that any node had. */
  lemma {:induction false} SecondReply(before: Holders, after: Holders, first: Replies, second: Replies,
                                       groups: seq<DiskGroup>, host: Host)
    requires Truthful(before, first) && Answers(first, host) && Gained(before, after, first, groups, host)
    requires Truthful(after, second) && Answers(second, host) && second.Keys <= {host}
    ensures !ReportedTwice(second, groups) && !Erroneous(second, true) && !Erroneous(second, false)
    ensures (forall g :: g in groups ==> ReportedAnywhere(second, g)) <==> HoldsAll(after, host, groups)
    ensures TookEffect(after, first, groups, host) ==>
      (HoldsAll(after, host, groups) <==> ReportsAll(first, host, groups))
  {
    forall g ensures ReportedAnywhere(second, g) <==> Holds(after, host, g) {
      if Holds(after, host, g) {
        assert Reported(second, host, g);
      }
    }
    forall g | ReportedAnywhere(first, g) ensures Holds(after, host, g) <==> Reported(first, host, g) {
      assert Reported(first, host, g) <==> Holds(before, host, g);
    }
  }

  /** One group, as every caller asks, is found unless two nodes hold it. */
  lemma {:induction false} OneGroupIsFound(holders: Holders, hosts: seq<Host>, group: DiskGroup)
    requires hosts != [] && !HeldTwice(holders, hosts, [group])
    ensures LookUp(holders, hosts, [group]) == Done
  {
    assert [group][0] == group;
  }

  /** Two groups may not be: one is in order on the second node, the other is imported on the first. */
  lemma {:induction false} SecondQueryForgets()
    ensures LookUp(map["a" := {"n2"}], ["n1", "n2"], ["a", "b"]) == NotImported
  {
    var holders, hosts := map["a" := {"n2"}], ["n1", "n2"];
    assert Holds(holders, hosts[1], "a") && !Holds(holders, hosts[0], "a");
    assert ["a", "b"][1] == "b" && !HeldAmong(holders, hosts, "b");
    assert ["a", "b"][0] == "a" && HeldAmong(holders, hosts, "a");
  }
}
