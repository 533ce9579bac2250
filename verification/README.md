# Storage and snapshot plans: a verified model

The modelled system plans and carries out storage changes and snapshots over clusters of nodes, with LVM and VxVM as
volume managers. A plugin turns a model of nodes, volume groups and file systems into plans; agents on the nodes run
the commands. Everything outside the repository is an environment: each remote request is answered or not, each
command has an exit code, dictionaries are visited in any order, runs are killed anywhere.

| file | what it models |
|---|---|
| `MountPlan.dfy` | mount task lists of file systems run concurrently, and the two validators that make that safe |
| `VxvmSnapshotData.dfy` | discovery and import of VxVM disk groups, and the filtered remove and restore callbacks |
| `VxvmPopulate.dfy` | how the VxVM snapshot data set is built from the model |
| `VxvmDgHost.dfy` | the look-up of the node that holds a disk group, with an import of its own |
| `VxvmAgent.dfy` | the create and delete command chains of the VxVM snapshot agent and the presence query |
| `SnapshotNames.dfy` | names of snapshots and cache records |
| `GrubRewrite.dfy`, `GrubUpdate.dfy` | the text rewrite of logical-volume entries, and the backup, edit and rollback around it |
| `LvmTargets.dfy`, `LvmInstalled.dfy` | which LVM snapshots a plan names, of modelled and of installed file systems |
| `LvmRestore.dfy`, `LvmRemove.dfy`, `SnapshotPlan.dfy` | the checks before merges and removals, over every order of a plan |
| `LvmAgent.dfy`, `Kickstart.dfy` | the LVM snapshot agent, and the table of installed file systems |
| `Capacity.dfy` | the size validators of both drivers |
| `RebootPlan.dfy` | the restarts that end a deployment restore |
| `TagLength.dfy`, `DiskUuids.dfy` | the validators of snapshot tags and disk uuids |
| `Seqs.dfy` | sequence helpers |

Methods follow the loops and the object state of the source; each is proved equal to a specification function or
predicate, and the lemmas say what those mean over all inputs, replies, orders and runs. Where the code does not do what
its surroundings suggest, the model keeps the code, and a lemma gives the exact condition:

- The volume group filter of the VxVM scans is stored under one key and read under another, so only the file system
  filter acts; the callbacks still act on one file system (`RemoveSnapshotCallback`).
- The disk-group look-up asks one node only after an import, so groups that are in order elsewhere are lost when
  several are asked for at once (`SecondQueryForgets`; exactly when: `GetDgHostname`, `SecondReply`).
- Stopping on unreachable nodes does not keep a disk group on one node when a node outside the data set holds it
  (`StopKeepsSingleHolder`, `UnaskedHolder`).
- A VxVM removal killed after dissociating the snapshot leaves a record that no creation gets past
  (`InterruptedDeleteBlocksCreate`), and presence is a search for a prefix (`FalsePresence`).
- The dots of the sed expression are wildcards, because the shell text is a double-quoted Ruby string.
- A failed grub edit brings back stale backups of absent files (`FailureChangesNothing`).
- The LVM validity check takes the first listed volume of a name in any group (`FirstOfNameIsChecked`), only logs a
  missing snapshot, and expects nothing of Initial groups (`InitialGroupsUnchecked`).
- The merging check looks for its phrase among the hosts of the errors, so it raises at the first error of any kind.
- The restore of installed file systems counts merges, not snapshots (`InstalledAllMerged`, `MissingUnnoticed`).
- The LVM agent looks for a merging name as a word anywhere in the lines of all groups (`RemovalRefused`,
  `RestoredMeansMerging`).
- An empty list of volumes takes the place of the entries away for good (`SedEmptyListIsExact`).
- VxVM sets aside one percent plus the snapshot size but requests the snapshot size alone (`SetAsideCoversRequest`).
- The longest LVM name compares plain lengths and stores doubled ones, so a hyphenated name can be passed over
  (`DoubledBoundIsExact`, `BudgetIsExact`), and a tag's hyphens are counted once when the available length happens to be
  VxVM's (`AcceptedTagIsLegal`, `HyphenatedTagAccepted`).

What is assumed of the surroundings: tasks of a snapshot plan run serially, validation before volume tasks, those before
restarts, and a plan stops at the first task that fails; the agents of the VxVM disk-group query answer truthfully; the
commands of the VxVM chains behave as their accepted exit codes say; the commands of a grub rollback succeed; a node
that was restarted is down until it is back and no other node goes down; volume names hold no blank and not the mark of
the sed command; floating-point quotients are the exact ones.

## Model

| member | source | states |
|---|---|---|
| `MountPlan.ValidateUniqueMountPoint` | src/volmgr_plugin/volmgr_plugin.py:337-364 | reports, in model order, exactly the file systems whose mount point some other file system of the profile has too |
| `MountPlan.HasMountPoint` | src/volmgr_plugin/volmgr_plugin.py:348-354 | true exactly when another file system of the profile has this mount point |
| `MountPlan.ValidateMountPointNotReused` | src/volmgr_plugin/volmgr_plugin.py:1408-1438 | among Initial and moved file systems, one report per pair in which one's applied mount point is the other's new one; none for a file system without an applied mount point |
| `MountPlan.UniqueSilent` | src/volmgr_plugin/volmgr_plugin.py:337-364 | the uniqueness validator is silent if and only if the current mount points are pairwise distinct |
| `MountPlan.ReuseSilent` | src/volmgr_plugin/volmgr_plugin.py:1408-1438 | the reuse validator is silent if and only if no mount point a file system moves away from is taken by an Initial or moving one |
| `MountPlan.OnlyOwnerMatters` | src/volmgr_plugin/drivers/lvm.py:191-229 | commutation: under every interleaving that keeps each list's order, a mount point that one list alone touches ends as if that list had run alone |
| `MountPlan.AnyInterleaving` | src/volmgr_plugin/drivers/lvm.py:191-337 | for an accepted profile every complete interleaving of the per-file-system task lists leaves the one table in which all replaced mount points are gone and each new one is on its own device |
| `MountPlan.ValidatorsGuardPlan` | src/volmgr_plugin/volmgr_plugin.py:1408-1438 | the two validators being silent is enough for the interleaving theorem |
| `MountPlan.ReuseLosesMount` | src/volmgr_plugin/drivers/lvm.py:256-337 | when a mount point is handed on inside one plan there is a complete interleaving that ends without it although the model has it mounted |
| `MountPlan.RightUnlessCollision` | src/volmgr_plugin/drivers/lvm.py:191-337 | every complete interleaving of the plan gives the model table if and only if no list mounts what another one unmounts |
| `MountPlan.ReuseValidatorIsExact` | src/volmgr_plugin/volmgr_plugin.py:1408-1438 | for a profile with distinct mount points the reuse validator is silent if and only if every complete interleaving of the plan is right and no reused mount point is that of a swap file system or the root mount |
| `MountPlan.PlanRealisesModel` | src/volmgr_plugin/drivers/lvm.py:191-337 | after any interleaving each mount point of the model is on its own device, each replaced one is gone, and no other entry changed |
| `MountPlan.SettledAgain` | src/volmgr_plugin/drivers/lvm.py:256-337 | a realised plan leaves the table in agreement with the next plan's applied mount points, which are again pairwise distinct |
| `MountPlan.EveryRunRealisesModel` | src/volmgr_plugin/drivers/lvm.py:191-337 | over every history of accepted plans, each run to the end under its own schedule, every plan starts settled and realises its model |
| `MountPlan.ForeignEntriesSurvive` | src/volmgr_plugin/drivers/lvm.py:256-337 | a mount table entry that no plan of a history names is never touched |
| `VxvmSnapshotData.SnapshotDataMgr.GetVolumeGroupInfo` | src/volmgr_plugin/drivers/vxvm_snapshot_data_mgr.py:477-524 | a query that returns records each host of the cluster as reachable exactly when it answered, and hands on the answers; one that fails changes nothing |
| `VxvmSnapshotData.SnapshotDataMgr.GetVolumeGroupMap` | src/volmgr_plugin/drivers/vxvm_snapshot_data_mgr.py:526-557 | refuses exactly when some disk group is reported by two hosts, otherwise maps each reported group to its one host |
| `VxvmSnapshotData.SnapshotDataMgr.SetActiveNodes` | src/volmgr_plugin/drivers/vxvm_snapshot_data_mgr.py:559-573 | every volume group of the cluster gets the host that reported its disk group, or the mark for not imported; others are untouched |
| `VxvmSnapshotData.SnapshotDataMgr.ImportVolumeGroups` | src/volmgr_plugin/drivers/vxvm_snapshot_data_mgr.py:579-586 | each request goes to the given host, only groups of this cluster that nobody reported gain it as a holder, and a run without failure has requested every given group |
| `VxvmSnapshotData.SnapshotDataMgr.GatherCluster` | src/volmgr_plugin/drivers/vxvm_snapshot_data_mgr.py:588-624 | one cluster's turn: a double report ends it before any import or change of holders; what it imports is safe against the first replies; when done the active nodes are those of the last replies |
| `VxvmSnapshotData.SnapshotDataMgr.GatherActiveNodes` | src/volmgr_plugin/drivers/vxvm_snapshot_data_mgr.py:588-624 | over all clusters in any order: only safe imports, only active nodes change, and when it returns each volume group of an answering cluster has the unique host whose last reply lists its disk group, or none |
| `VxvmSnapshotData.StopKeepsSingleHolder` | src/volmgr_plugin/drivers/vxvm_snapshot_data_mgr.py:596-618 | stopping on unreachable nodes, a disk group that gains a holder ends with two if and only if a node that was not asked held it; when all its holders were asked it had none and ends with exactly one |
| `VxvmSnapshotData.UnaskedHolder` | src/volmgr_plugin/drivers/vxvm_snapshot_data_mgr.py:300-308 | an input with a second holder: one node holds the group and is not in the data set, the other answers and is sent the import |
| `VxvmSnapshotData.WithoutStopSecondHolder` | src/volmgr_plugin/drivers/vxvm_snapshot_data_mgr.py:596-618 | without the flag a group that gains a holder ends with two if and only if a node that did not answer, or was not asked, held it; among answering nodes it has exactly one |
| `VxvmSnapshotData.SnapshotDataMgr.SetFilters` | src/volmgr_plugin/drivers/vxvm_snapshot_data_mgr.py:237-266 | after it every volume group passes the filter that the scans read, and exactly the given file systems do, or all when none are given |
| `VxvmSnapshotData.SnapshotDataMgr.ScanPresence` | src/volmgr_plugin/drivers/vxvm_snapshot_data_mgr.py:643-675 | stops at the first file system of the group that the agent reports, so at most one is marked, and one is if any is reported |
| `VxvmSnapshotData.SnapshotDataMgr.GatherSnapshotsArePresent` | src/volmgr_plugin/drivers/vxvm_snapshot_data_mgr.py:626-675 | the scan goes over the dictionary to its end or, when forced, to the first group without an active node; groups before that are scanned, the others unchanged |
| `VxvmSnapshotData.SnapshotDataMgr.GatherSnapshotsAreValid` | src/volmgr_plugin/drivers/vxvm_snapshot_data_mgr.py:677-725 | the same scan for validity: the agent's verdict on each filtered file system recorded as present |
| `VxvmSnapshotData.SnapshotDataMgr.MarkedWhenReported` | src/volmgr_plugin/drivers/vxvm_snapshot_data_mgr.py:630-675 | with the filters of one file system only that file system's record changes, and it is marked present exactly when the agent reports it |
| `VxvmSnapshotData.SnapshotDataMgr.VerdictOnly` | src/volmgr_plugin/drivers/vxvm_snapshot_data_mgr.py:681-725 | with those filters the validity scan changes no record of another file system and no presence |
| `VxvmSnapshotData.SnapshotDataMgr.ScanSnapshots` | src/volmgr_plugin/volmgr_plugin.py:2578-2607 | both scans together: only the named file system's records differ, and it is recorded present exactly when its group was reached and the agent reported it |
| `VxvmSnapshotData.SnapshotDataMgr.CreateSnapshot` | src/volmgr_plugin/drivers/vxvm.py:1761-1804 | creates the named file system's snapshot on the active node, once; without an active node it is always refused |
| `VxvmSnapshotData.SnapshotDataMgr.CreateSnapshotCallback` | src/volmgr_plugin/volmgr_plugin.py:2565-2576 | a returning run has sent exactly one create, for the named file system to its group's active node, and changed nothing but active nodes |
| `VxvmSnapshotData.SnapshotDataMgr.RemoveSnapshot` | src/volmgr_plugin/drivers/vxvm.py:1859-1884 | deletes the recorded snapshot on the active node of the named group, once; without an active node it is refused unless forced |
| `VxvmSnapshotData.SnapshotDataMgr.RestoreSnapshot` | src/volmgr_plugin/drivers/vxvm.py:1806-1857 | restores from the recorded snapshot on the active node, once; a missing snapshot or active node is refused unless forced |
| `VxvmSnapshotData.SnapshotDataMgr.RemoveSnapshotCallback` | src/volmgr_plugin/volmgr_plugin.py:2578-2592 | a returning run has sent exactly one delete, for the named file system to its group's active node, if and only if the group was not skipped and the agent reported the snapshot, although the volume group filter never matches |
| `VxvmSnapshotData.SnapshotDataMgr.RestoreSnapshotCallback` | src/volmgr_plugin/volmgr_plugin.py:2594-2607 | the same for a restore; a returning unforced run has always found the snapshot |
| `VxvmPopulate.Populator.Populate` | src/volmgr_plugin/drivers/vxvm_snapshot_data_mgr.py:268-359 | fills both dictionaries from the chosen clusters exactly as the specification says |
| `VxvmPopulate.Populator.CollectFss` | src/volmgr_plugin/drivers/vxvm_snapshot_data_mgr.py:327-353 | a file system goes in unless it is Initial or fails the test of its action |
| `VxvmPopulate.ListedIsIn` | src/volmgr_plugin/drivers/vxvm_snapshot_data_mgr.py:310-359 | with unique paths and identifiers every volume group with a file system to act on is in the data set with its own data, and its cluster is listed |
| `VxvmPopulate.InIsListed` | src/volmgr_plugin/drivers/vxvm_snapshot_data_mgr.py:310-359 | nothing else is in the data set: every path in it is that of such a volume group, none Initial |
| `VxvmPopulate.HostsAreStaying` | src/volmgr_plugin/drivers/vxvm_snapshot_data_mgr.py:300-308 | a host is listed exactly when a node that is not Initial has it and it is not excluded |
| `VxvmPopulate.PopulatedIsWellFormed` | src/volmgr_plugin/drivers/vxvm_snapshot_data_mgr.py:268-359 | every volume group in the data set has a file system and a listed cluster, every listed cluster has a volume group, no excluded host is listed |
| `VxvmPopulate.UnchangedModel` | src/volmgr_plugin/volmgr_utils.py:70-75 | on an unchanged model the intersection of snapshot model and model is the list of the clusters that are not Initial |
| `VxvmPopulate.CreationAndRemovalAgree` | src/volmgr_plugin/drivers/vxvm.py:1132-1152 | on an unchanged model creation and removal or restore get the same data set if and only if no file system has a size that is not the text 0 but not positive |
| `VxvmDgHost.Driver.VgMetadata` | src/volmgr_plugin/drivers/vxvm.py:1451-1494 | a query that returns maps each requested group to exactly the node that reports it, and fails as imported twice exactly when a requested group is reported by two nodes |
| `VxvmDgHost.Driver.GetDgHostname` | src/volmgr_plugin/drivers/vxvm.py:1396-1436 | both replies are truthful; imports go to the first applied node that answered, for requested groups nobody reported, and nothing else changes hands; if that node answers again, the run succeeds exactly when it holds all the groups, which after imports that took effect means that it had reported every requested group that any node had; without disturbance the outcome is that of the reference look-up |
| `VxvmDgHost.Driver.ImportDiskGroups` | src/volmgr_plugin/drivers/vxvm.py:1438-1449 | requests go to the given node for the given groups, and nothing else gains a holder |
| `VxvmDgHost.SecondReply` | src/volmgr_plugin/drivers/vxvm.py:1425-1436 | for all truthful replies before and after the imports, the second query finds all the groups exactly when the node holds them, and after imports that took effect exactly when it had reported every requested group that any node had |
| `VxvmDgHost.SecondQueryForgets` | src/volmgr_plugin/drivers/vxvm.py:1425-1436 | the reference look-up fails on two groups of which one is in order on the second node and the other nowhere |
| `VxvmDgHost.OneGroupIsFound` | src/volmgr_plugin/volmgr_plugin.py:2813-2817 | the reference look-up of one group, as the callers ask, succeeds unless two nodes hold it |
| `SnapshotNames.CacheNames` | src/volmgr_plugin/volmgr_utils.py:236-246 | the planner's and the agent's names of cache object and cache volume are the same, and as long as the snapshot name |
| `SnapshotNames.CacheNamesInjective` | puppet/mcollective_agents/files/vxvmsnapshot.rb:1-15 | different snapshots share no cache record, and the three names of one snapshot differ |
| `SnapshotNames.SnapshotNamesInjective` | src/volmgr_plugin/volmgr_utils.py:226-234 | under one tag the name determines the volume, for one volume it determines the tag |
| `SnapshotNames.DeploymentNameIsPrefix` | src/volmgr_plugin/volmgr_utils.py:226-234 | a volume's deployment snapshot name is a prefix of each of its named ones |
| `VxvmAgent.Agent.CreateSnapshot` | puppet/mcollective_agents/files/vxvmsnapshot.rb:34-116 | the action, killed or refused at any command, is the create specification: volume, cache object with one retry after polling, start, snapshot |
| `VxvmAgent.Agent.DeleteSnapshot` | puppet/mcollective_agents/files/vxvmsnapshot.rb:142-176 | the action, killed or refused at any command, is the delete specification |
| `VxvmAgent.CreateKeepsTidy` | puppet/mcollective_agents/files/vxvmsnapshot.rb:34-116 | whenever a create run ends, every cache object stands on its own volume, every snapshot on its own started cache object, and other snapshots' records are as before |
| `VxvmAgent.DeleteKeepsTidy` | puppet/mcollective_agents/files/vxvmsnapshot.rb:142-176 | the same for a delete run |
| `VxvmAgent.HistoryKeepsTidy` | puppet/mcollective_agents/files/vxvmsnapshot.rb:34-176 | the same after any history of create and delete runs, each killed or refused anywhere |
| `VxvmAgent.CreateConverges` | puppet/mcollective_agents/files/vxvmsnapshot.rb:34-116 | undisturbed, from any partial state, create replies 0 and completes the snapshot if and only if its record is not there yet; otherwise it changes nothing and replies 1 |
| `VxvmAgent.CreateReplyMeansMade` | puppet/mcollective_agents/files/vxvmsnapshot.rb:34-116 | whatever the exit codes, create replies 0 exactly when this run made the snapshot record, and then the snapshot is complete |
| `VxvmAgent.RetryCompletes` | puppet/mcollective_agents/files/vxvmsnapshot.rb:34-116 | after any number of interrupted create runs, with runs for other snapshots in between, one undisturbed create run leaves the snapshot complete |
| `VxvmAgent.DeleteConverges` | puppet/mcollective_agents/files/vxvmsnapshot.rb:142-176 | undisturbed, from any partial state, delete replies 0 and removes snapshot, cache object and the volume under it, in four commands |
| `VxvmAgent.DeleteIdempotent` | puppet/mcollective_agents/files/vxvmsnapshot.rb:142-176 | a second deletion changes nothing |
| `VxvmAgent.DeleteThenCreate` | puppet/mcollective_agents/files/vxvmsnapshot.rb:34-176 | after any history an undisturbed delete and create reply 0 and leave the snapshot complete, absorbing a left-over cache volume |
| `VxvmAgent.InterruptedDeleteBlocksCreate` | puppet/mcollective_agents/files/vxvmsnapshot.rb:142-176 | a delete run killed after dissociating leaves a record that no create run gets past |
| `VxvmAgent.PresenceSeesEveryTrace` | puppet/mcollective_agents/files/vxvm.rb:418-472 | with the cache check every partial state is reported present, and nothing else unless a longer name has a record |
| `VxvmAgent.FalsePresence` | puppet/mcollective_agents/files/vxvm.rb:418-472 | a snapshot without any record is reported present if and only if a record starts with one of its names |
| `VxvmAgent.NamedSnapshotLooksLikeDeployment` | puppet/mcollective_agents/files/vxvm.rb:418-472 | a complete named snapshot makes the deployment snapshot of its volume look present |
| `VxvmAgent.AbsentAfterDelete` | puppet/mcollective_agents/files/vxvm.rb:418-472 | after an undisturbed delete the query still says present exactly when a cache volume without a cache object was left or a longer name has a record |
| `GrubRewrite.ReplacedOnce` | puppet/mcollective_agents/files/grub.rb:41 | marking every entry and then replacing runs of marks is one pass that replaces each run of entries |
| `GrubRewrite.SedIsRewrite` | puppet/mcollective_agents/files/grub.rb:41 | the three substitutions in a row are that single pass, for every line and every list of clean names |
| `GrubRewrite.RunAfterRewrite` | puppet/mcollective_agents/files/grub.rb:41 | a run of entries starts in the rewritten text exactly where one started in the text |
| `GrubRewrite.ListIsOneRun` | src/volmgr_plugin/drivers/lvm.py:761-770 | the joined list and its blank are read back as one run |
| `GrubRewrite.LastWriteWins` | puppet/mcollective_agents/files/grub.rb:41 | for a non-empty list, rewriting with it and then with another list is rewriting with the other alone |
| `GrubRewrite.SedLastWriteWins` | puppet/mcollective_agents/files/grub.rb:41 | the same for the sed command over every line of a file |
| `GrubRewrite.RewriteWeaves` | puppet/mcollective_agents/files/grub.rb:41 | the rewritten line is the text outside the runs with the list and one blank for each run |
| `GrubRewrite.OutsideKept` | puppet/mcollective_agents/files/grub.rb:41 | the text outside the runs is the same after a rewrite |
| `GrubRewrite.EntryTakesRestOfLine` | puppet/mcollective_agents/files/grub.rb:41 | an entry with no blank after it takes the rest of the line with it, a closing quote included |
| `GrubRewrite.EmptyListLosesEntry` | puppet/mcollective_agents/files/grub.rb:41 | written with an empty list an entry that ends its line is lost: no later list comes back |
| `GrubRewrite.SedEmptyListIsExact` | puppet/mcollective_agents/files/grub.rb:41 | writing an empty list and then another one gives the same as the other alone if and only if no line has an entry or mark, although the blank left behind may form a new entry |
| `GrubUpdate.BackupsUndoEdits` | puppet/mcollective_agents/files/grub.rb:65-108 | whatever failing edits left of the files, moving back what was backed up gives the original files if and only if no older backup was of an absent file |
| `GrubUpdate.GrubAgent.RestoreBackups` | puppet/mcollective_agents/files/grub.rb:65-71 | every backup is moved over its file, also for files that did not exist; no backup is left |
| `GrubUpdate.GrubAgent.RemoveBackups` | puppet/mcollective_agents/files/grub.rb:73-79 | no backup is left and no file changes |
| `GrubUpdate.GrubAgent.MakeBackups` | puppet/mcollective_agents/files/grub.rb:27-39 | all existing files are backed up, or at the first failure all backups are removed and its exit code is the status |
| `GrubUpdate.GrubAgent.MakeEdits` | puppet/mcollective_agents/files/grub.rb:43-63 | all existing files are edited in order, or at the first failing edit everything is moved back and its exit code is the status |
| `GrubUpdate.GrubAgent.UpdateGrub` | puppet/mcollective_agents/files/grub.rb:13-63 | the whole action: no backup remains; a failed backup leaves the files as they were, a failed edit the rolled-back ones, success the updated ones, each with its status |
| `GrubUpdate.FailureChangesNothing` | puppet/mcollective_agents/files/grub.rb:22-108 | a failed update leaves every file as it was if and only if a backup failed or no stale backup of an absent file lay about |
| `GrubUpdate.SuccessEditsEachOnce` | puppet/mcollective_agents/files/grub.rb:43-63 | after success each edited file is its text rewrite and each generated one comes from the rewritten files |
| `GrubUpdate.LastUpdateWins` | puppet/mcollective_agents/files/grub.rb:13-63 | when generation depends on the edited files only, two successful updates leave the tree of the last one alone |
| `GrubUpdate.FailuresThenSuccess` | puppet/mcollective_agents/files/grub.rb:22-108 | any run of failed updates followed by a successful one leaves what the successful one alone leaves |
| `LvmTargets.SnapOperationAllowed` | src/volmgr_plugin/drivers/driver.py:61-88 | for a deployment snapshot the two counts agree exactly when the node's system, or else the group's own, knows no device of the group as remote storage; without a system, and for named snapshots, it is always allowed |
| `LvmTargets.LocalStorageBackedVgs` | src/volmgr_plugin/drivers/driver.py:56-59 | the groups of the node on suitable storage, in order |
| `LvmTargets.CreateSnapshotTasks` | src/volmgr_plugin/drivers/lvm.py:1823-1870 | names a snapshot for each allowed file system that is not Initial in a group that is not Initial, in model order |
| `LvmTargets.RemoveSnapshotTasks` | src/volmgr_plugin/drivers/lvm.py:1872-1912 | names a snapshot for each allowed file system whatever its state |
| `LvmTargets.RestoreLvs` | src/volmgr_plugin/drivers/lvm.py:2002-2022 | names the deployment snapshot of each allowed file system whatever its state |
| `LvmTargets.GetExpectedNodeSnapshots` | src/volmgr_plugin/drivers/lvm.py:2133-2152 | lists the names for each allowed file system in a group that is not Initial |
| `LvmTargets.ActiveVgsFirst` | src/volmgr_plugin/drivers/lvm.py:1841-1851 | dropping Initial groups before or after collecting the file systems is the same |
| `LvmTargets.SnappableMembers` | src/volmgr_plugin/drivers/lvm.py:2112-2120 | a file system is taken in exactly when it is allowed and its group is on suitable storage |
| `LvmTargets.TargetSetsAgree` | src/volmgr_plugin/drivers/lvm.py:1823-2022 | for deployment snapshots, creation, removal, restore and the checks name the same snapshots if and only if nothing that can be snapped is Initial |
| `LvmTargets.CreatedIsCovered` | src/volmgr_plugin/drivers/lvm.py:1823-2152 | whatever is Initial, each created snapshot is in the removal, expected and restore sets |
| `LvmTargets.EachTargetOnce` | src/volmgr_plugin/drivers/lvm.py:533-538 | with unique group names and identifiers no snapshot of a peer node is named twice |
| `LvmRestore.RestoreSnapshotTasks` | src/volmgr_plugin/drivers/lvm.py:1923-1983 | generates the peers' merges cluster by cluster, then the two checks, then the management servers' merges |
| `LvmRestore.CheckTasks` | src/volmgr_plugin/drivers/lvm.py:2122-2248 | both checks are generated, over the nodes that can have snapshots, when there are any; the presence check only when not forced |
| `LvmRestore.CheckSnapshotsExist` | src/volmgr_plugin/volmgr_plugin.py:2695-2724 | in any dictionary order exactly the expected snapshots that an asked host does not list are reported, unless a request expired |
| `LvmRestore.CheckReachableAndSnapsExist` | src/volmgr_plugin/volmgr_plugin.py:2668-2693 | returns exactly when every peer answers a ping, no request expired and every expected snapshot is listed |
| `LvmRestore.CheckValidSnapshots` | src/volmgr_plugin/volmgr_plugin.py:2609-2666 | returns exactly when no request expired and for each expected name the first line of that name, if there is one, is not invalid; forced, only for reachable nodes |
| `LvmRestore.MergesAreOfNodes` | src/volmgr_plugin/drivers/lvm.py:1985-2022 | every merge of a plan is of a restore target of one of its nodes |
| `LvmRestore.EveryTargetIsMerged` | src/volmgr_plugin/drivers/lvm.py:1985-2022 | every restore target of every management server and of every node of a cluster has its merge in the plan |
| `LvmRestore.ChecksAreExact` | src/volmgr_plugin/volmgr_plugin.py:2609-2724 | the two checks of a plan pass if and only if every node that can have snapshots is cleared: reachable or a management server, nothing expired, every expected name listed by the first check and not invalid for the second |
| `LvmRestore.NoMergeWithoutChecks` | src/volmgr_plugin/volmgr_plugin.py:2392-2398 | in an unforced restore of nodes that can have snapshots, for every order with validation first, all replies and any further merges in the plan, an executed merge has both checks before it and every node cleared by their replies |
| `LvmRestore.NothingToRestore` | src/volmgr_plugin/drivers/lvm.py:1923-1983 | the plan of the modelled file systems is empty, checks included, exactly when no node can have snapshots, so the merges of installed file systems then run unchecked |
| `LvmRestore.MergedIsExpected` | src/volmgr_plugin/drivers/lvm.py:2133-2152 | a name is among the checked ones exactly when a file system that can be snapped has it in a group that is not Initial |
| `LvmRestore.InitialGroupsUnchecked` | src/volmgr_plugin/drivers/lvm.py:2133-2152 | a node all of whose groups are Initial is merged with nothing expected of it |
| `LvmRestore.FirstOfNameIsChecked` | src/volmgr_plugin/volmgr_plugin.py:2639-2663 | the validity check decides about a listed snapshot, whatever the attributes, if and only if it is the first listed volume of its name in any group |
| `LvmRestore.RestoreInstalled` | src/volmgr_plugin/drivers/lvm.py:1545-1592 | the merges of the installed file systems over a scan: refused exactly when a listed expected snapshot is invalid or the merges are not as many as the expected snapshots |
| `LvmRestore.InstalledAllMerged` | src/volmgr_plugin/drivers/lvm.py:1559-1589 | a generated restore of installed file systems merges every expected snapshot if and only if each is listed exactly once |
| `LvmRestore.MissingUnnoticed` | src/volmgr_plugin/drivers/lvm.py:1559-1589 | such an input: of two expected snapshots the first is listed in two groups and the second nowhere |
| `LvmRemove.GatherSnapData` | src/volmgr_plugin/drivers/lvm.py:1720-1796 | builds the data of the merging check over nested dictionaries, modelled and installed file systems |
| `LvmRemove.RemoveModeled` | src/volmgr_plugin/drivers/lvm.py:1872-1912 | generates the removals of the modelled file systems, node by node |
| `LvmInstalled.GetModeledMounts` | src/volmgr_plugin/drivers/lvm.py:1464-1470 | collects exactly the mount points of modelled file systems that are not, and whose groups are not, for removal |
| `LvmInstalled.GetExpectedInstalled` | src/volmgr_plugin/drivers/lvm.py:1473-1496 | the installed file systems snapped under this name whose mount point is not modelled, in the order of the table |
| `LvmRemove.RemoveInstalled` | src/volmgr_plugin/drivers/lvm.py:1498-1535 | generates their removals, management server by management server |
| `LvmRemove.EveryTargetIsRemoved` | src/volmgr_plugin/drivers/lvm.py:1872-1912 | every removal target of every given node has its task in the plan, pinging first exactly for forced peers |
| `LvmRemove.LastGroupOfNameIsChecked` | src/volmgr_plugin/drivers/lvm.py:1753-1770 | of several groups with one name the data holds the last one's snapshots |
| `LvmRemove.EveryRemovalIsChecked` | src/volmgr_plugin/drivers/lvm.py:1498-1535 | with unique hosts and group names and the management servers among the given nodes, every snapshot that a task would remove, modelled or installed, is in the data of the check |
| `LvmRemove.IsLvmMerging` | src/volmgr_plugin/volmgr_plugin.py:2905-2929 | any error about a snapshot either raises or counts as merging |
| `LvmRemove.CheckRestoresInProgress` | src/volmgr_plugin/volmgr_plugin.py:2931-3008 | in any traversal order, returns if and only if no contacted snapshot is merging or in error; forced, only reachable hosts are contacted |
| `LvmRemove.NoRemovalPastMerging` | src/volmgr_plugin/volmgr_plugin.py:2392-2398 | for every order with validation first and all replies, an executed removal comes after a check that found every snapshot the plan removes on a contacted host not merging |
| `LvmRemove.ForcedRemovalsPing` | src/volmgr_plugin/drivers/lvm.py:2061-2088 | in a forced plan a peer's removal pings the host first |
| `LvmRemove.MsOutsideIsUnchecked` | src/volmgr_plugin/volmgr_plugin.py:2408-2432 | a management server outside the given nodes has its installed snapshots removed unchecked |
| `Kickstart.TableSnapsNoSwap` | src/volmgr_plugin/volmgr_utils.py:260-283 | the installation snaps ext4 and xfs volumes only |
| `LvmAgent.Agent.SnapshotIsMerging` | puppet/mcollective_agents/files/snapshot.rb:93-104 | true exactly when the line of a merging snapshot of any group has the name as a word in it |
| `LvmAgent.Agent.Remove` | puppet/mcollective_agents/files/snapshot.rb:48-91 | refuses a name that is merging, succeeds on an absent snapshot, otherwise relays the removal |
| `LvmAgent.Agent.Restore` | puppet/mcollective_agents/files/snapshot.rb:138-167 | 404 when absent, no status when only the merge is left, 0 when a merge of the name is under way, otherwise relays the merge command |
| `LvmAgent.RemovedMeansGone` | puppet/mcollective_agents/files/snapshot.rb:48-91 | removal replies 0 only when the snapshot is gone, and again changes nothing and replies 0 |
| `LvmAgent.RemovalRefused` | puppet/mcollective_agents/files/snapshot.rb:48-104 | a snapshot that could be removed is kept if and only if the line of another, merging one mentions its name |
| `LvmAgent.RestoredMeansMerging` | puppet/mcollective_agents/files/snapshot.rb:138-167 | a restore that replies 0 leaves its snapshot idle if and only if the line of another, merging one mentions its name |
| `LvmAgent.NamesakeBlocks` | puppet/mcollective_agents/files/snapshot.rb:48-167 | while a snapshot of the same name in another group, or of the name with a hyphen and more, is merging, removal and restore change nothing |
| `LvmAgent.MergeIsNeverCut` | puppet/mcollective_agents/files/snapshot.rb:13-167 | over every run of actions a merging snapshot stays merging until its merge finishes |
| `LvmAgent.RemovalOnlyRemoves` | puppet/mcollective_agents/files/snapshot.rb:48-91 | whatever the replies, removals leave every volume that is not a target and change none that stays |
| `LvmAgent.FinishedPlanRemovesAll` | puppet/mcollective_agents/files/snapshot.rb:48-91 | removals that all reply 0 leave none of their targets and everything else |
| `Capacity.EffectiveIsTight` | src/volmgr_plugin/drivers/lvm.py:801-807 | the rounded size is never below the exact one and less than a megabyte above it |
| `Capacity.ValidatePdDisks` | src/volmgr_plugin/volmgr_plugin.py:823-845 | reports exactly the system disks that more than one device refers to |
| `Capacity.GetNodeDiskForPd` | src/volmgr_plugin/volmgr_utils.py:189-196 | finds the first system disk with the device's name, never one without a name |
| `Capacity.ValidateVgSizeAgainstDisks` | src/volmgr_plugin/drivers/lvm.py:809-867 | an error exactly when volumes, snapshots and overhead exceed the disks and none of them shrank |
| `Capacity.ValidateDiskSizes` | src/volmgr_plugin/drivers/lvm.py:910-926 | reports exactly the groups with disks that do not fit and have no shrunk disk |
| `Capacity.FoundWithinDisks` | src/volmgr_plugin/volmgr_plugin.py:823-845 | devices that share no disk find no more than all disks hold together |
| `Capacity.NodeFits` | src/volmgr_plugin/drivers/lvm.py:809-926 | when both validators are silent, no disk shrank and every group has a disk, all volumes, unrounded snapshots and overheads of the node fit its disks together |
| `Capacity.ValidateVxvmVgSize` | src/volmgr_plugin/drivers/vxvm.py:1154-1204 | an error exactly when the group has disks that are not for removal and file systems with set-aside snapshots exceed them |
| `Capacity.SetAsideCoversRequest` | src/volmgr_plugin/drivers/vxvm.py:160-163 | what is set aside for a snapshot covers its floored request and a percent of the file system |
| `Capacity.AcceptedGroupHoldsSnapshots` | src/volmgr_plugin/drivers/vxvm.py:1154-1204 | an accepted group holds its volumes and every requested snapshot with a percent of the file systems' size to spare |
| `RebootPlan.ShouldClusterReboot` | src/volmgr_plugin/volmgr_plugin.py:231-252 | true exactly when some group that is not Initial, with file systems, is on a disk of its system |
| `RebootPlan.GenTasksForClusterReboot` | src/volmgr_plugin/volmgr_plugin.py:190-229 | one restart of the cluster's nodes and then one wait for each, or one combined task when forced |
| `RebootPlan.GenTasks` | src/volmgr_plugin/volmgr_plugin.py:133-229 | the whole plan: deployments in order, clusters in dependency order when there is one, management servers last |
| `RebootPlan.EachNodeOnceInOrder` | src/volmgr_plugin/volmgr_plugin.py:166-229 | restarts and waits both go through the nodes of the selected clusters once each, in the clusters' order |
| `RebootPlan.SelectedHostsMembers` | src/volmgr_plugin/volmgr_plugin.py:190-229 | a host is restarted exactly when it is that of a node, neither Initial nor a management server, of a selected cluster |
| `RebootPlan.NoOverlap` | src/volmgr_plugin/volmgr_plugin.py:133-229 | on every execution, with nodes coming back at any time, a cluster is restarted only while no node is down and a management server only when no restarted peer is down |
| `RebootPlan.AlreadyInTagOrder` | src/volmgr_plugin/volmgr_plugin.py:133-156 | no peer task follows a management server's, so a stable reordering by tag changes nothing |
| `TagLength.GetKsFsMaxLength` | src/volmgr_plugin/volmgr_utils.py:287-301 | the running maximum over the installed volumes, counting the doubled length of a name that beats it |
| `TagLength.GetVxfsTagMaxLength` | src/volmgr_plugin/volmgr_plugin.py:1027-1036 | what the longest file system identifier leaves of the VxVM limit, not below 0 |
| `TagLength.GetLvmfsTagMaxLength` | src/volmgr_plugin/volmgr_plugin.py:1039-1058 | what the running maximum over installed and modelled names leaves of the LVM limit, not below 0 |
| `TagLength.ShouldUseVxvm` | src/volmgr_plugin/volmgr_plugin.py:1060-1066 | true exactly when some VxVM file system has a size other than the text 0 |
| `TagLength.ValidateSnapTagLength` | src/volmgr_plugin/volmgr_plugin.py:1068-1099 | an error exactly when a tag is longer than the available length, its hyphens counted twice unless that length is VxVM's |
| `TagLength.VxvmNamesFit` | src/volmgr_plugin/volmgr_plugin.py:1068-1099 | when VxVM file systems are snapped an accepted tag keeps snapshot, cache object and cache volume names within 31 characters |
| `TagLength.LvmNamesFit` | src/volmgr_plugin/volmgr_plugin.py:1068-1099 | an accepted tag keeps every LVM name, installed volumes included, within 122 characters, hyphens counted once |
| `TagLength.RefusedForAReason` | src/volmgr_plugin/volmgr_plugin.py:1068-1099 | a tag is refused only when some derived VxVM name, or some LVM name with its hyphens doubled, would be too long |
| `TagLength.AcceptedIsExact` | src/volmgr_plugin/volmgr_plugin.py:1068-1099 | with no hyphens around, a tag is accepted if and only if every derived name is legal |
| `TagLength.DoubledBoundIsExact` | src/volmgr_plugin/volmgr_plugin.py:1055-1056 | the running maximum bounds every doubled length if and only if some name of the greatest doubled length is longer than the running maximum when its turn comes |
| `TagLength.HyphenatedNamePassedOver` | src/volmgr_plugin/volmgr_plugin.py:1055-1056 | a hyphenated name not longer than an earlier maximum is passed over and its doubled length exceeds the result |
| `TagLength.LegalIsExact` | src/volmgr_plugin/volmgr_plugin.py:1039-1099 | when one of the longest doubled names is not passed over, a tag keeps all LVM names legal if and only if its doubled length is within what is left for LVM |
| `TagLength.BudgetIsExact` | src/volmgr_plugin/volmgr_plugin.py:1039-1058 | every tag within what is left for LVM keeps all LVM names legal if and only if one of the longest doubled names is not passed over |
| `TagLength.AcceptedTagIsLegal` | src/volmgr_plugin/volmgr_plugin.py:1068-1099 | for hyphen-free volumes an accepted tag keeps all LVM names legal, hyphens doubled, if and only if its own doubled length is within what is left for LVM |
| `TagLength.HyphenatedTagAccepted` | src/volmgr_plugin/volmgr_plugin.py:1081-1099 | an accepted tag that breaks the limit: 28 characters with a hyphen, where what is left for LVM equals the VxVM limit without file systems |
| `DiskUuids.CanonicalIsStable` | src/volmgr_plugin/volmgr_utils.py:177-186 | the canonical form of a canonical uuid is itself |
| `DiskUuids.UniqueDevices` | src/volmgr_plugin/drivers/lvm.py:1180-1195 | collects exactly the device names of what is not for removal |
| `DiskUuids.Gather` | src/volmgr_plugin/drivers/lvm.py:1172-1204 | each node that uses the profile with each uuid it holds, exactly once |
| `DiskUuids.Report` | src/volmgr_plugin/drivers/lvm.py:1206-1221 | every entry of a duplicated uuid other than kgb, once each |
| `DiskUuids.ValidateLvmUuids` | src/volmgr_plugin/drivers/lvm.py:1163-1221 | silent if and only if no uuid other than kgb is held by two nodes using the profile; otherwise exactly one error for each node and shared uuid |

## Left out

- Remote transport, time-outs, retries, logging and the wording of messages: the environment gives a reply or an error,
  and an error is a value; lists of errors kept in the VxVM data set are not modelled.
- The ranking of task tags and the plan builder of the core: stated above as an assumption.
- Disks, purge and resize tasks of deployment plans, file system formatting and directory creation beyond their place
  in a task list: no state of theirs is modelled.
- GRUB copies of snapshot plans: only where a restore or a removal generates their tasks.
- Creation of snapshots of installed file systems: it depends on a scan made while planning.
- The text of a line of the volume listing, and a line too short for its attributes: a line is a group, a name and the
  fifth attribute character.
- VxvmAgent.Agent.CreateSnapshot: polling has a number of attempts instead of a clock.
- GrubUpdate.GrubAgent.UpdateGrub: what the generator writes is a function of the target and the files.
- LvmAgent.Agent.SnapshotIsMerging: of the pattern characters of the search only the dot is special.
- Capacity.NodeFits: groups without any disk, which the validator passes over, are excluded by a precondition.
- RebootPlan.NoOverlap: a forced restart that skips unreachable nodes counts only the nodes it restarts.
- Reports of the VxVM checks, snapshot lists of the disk-group look-up, fencing disks, key clearing and killpart:
  shell sequences and reports over the modelled data.
- Simple one-branch validators: they would only add easy members.
