/** The mount and volume tasks of a node's LVM storage profile, and the profile validators that make
    it safe for the per-file-system task lists of one plan to run in any interleaving. */
module MountPlan {
  import opened Seqs

  type MountPoint = m: string | m != "" witness "/"

  const ROOT: MountPoint := "/"

  datatype FsType = Ext4 | Xfs | Swap

  datatype ItemState = Initial | Applied | Updated

  /** A file system of the profile. `mount` and `applied` are the current and the last applied mount
      point, `optionsChanged` stands for a changed fsck pass or changed mount options, `volumeTask`
      says that something other than the mount properties changed, and `device` is the full device
      name derived from the volume group and the file system. */
  datatype FileSystem = FileSystem(
    vpath: string,
    fsType: FsType,
    state: ItemState,
    mount: Option<MountPoint>,
    applied: Option<MountPoint>,
    optionsChanged: bool,
    volumeTask: bool,
    cleanAfterMount: bool,
    device: string)

  datatype Task =
    | ConfigureVolume(vpath: string)
    | CreateMountPath(path: MountPoint)
    | Mount(path: MountPoint, device: string)
    | CleanDirectory(path: MountPoint)
    | Unmount(path: MountPoint)

  type Table = map<MountPoint, string>

  /** An Initial item has no applied properties and the properties of an Applied item are the applied ones. */
  predicate WellFormed(fs: FileSystem) {
    && (fs.state.Initial? ==> fs.applied.None?)
    && (fs.state.Applied? ==> fs.mount == fs.applied)
  }

  predicate MountPointChanged(fs: FileSystem) {
    fs.state.Updated? && fs.mount != fs.applied
  }

  predicate MountAffectingChanged(fs: FileSystem) {
    MountPointChanged(fs) || (fs.state.Updated? && fs.optionsChanged)
  }

  // ---------------------------------------------------------------- task generation

  function MountTask(fs: FileSystem): Option<Task> {
    if fs.mount.None? || fs.mount.value == ROOT then None
    else Some(Mount(fs.mount.value, fs.device))
  }

  function InitialMountTasks(fs: FileSystem): seq<Task> {
    if fs.mount.Some? && fs.mount.value != ROOT then
      [CreateMountPath(fs.mount.value), Mount(fs.mount.value, fs.device)]
      + if fs.cleanAfterMount then [CleanDirectory(fs.mount.value)] else []
    else []
  }

  /** None when the generator dereferences the missing directory task of the root mount point. */
  function UpdatedMountTasks(fs: FileSystem): Option<seq<Task>> {
    if MountPointChanged(fs) then
      if fs.mount.None? then Some([Unmount(fs.applied.value)])
      else if fs.applied.None? then Some(InitialMountTasks(fs))
      else if fs.mount.value == ROOT then None
      else Some([Unmount(fs.applied.value), CreateMountPath(fs.mount.value), Mount(fs.mount.value, fs.device)])
    else if MountTask(fs).Some? then Some([MountTask(fs).value])
    else Some([])
  }

  function TasksForFileSystem(fs: FileSystem): Option<seq<Task>> {
    if fs.fsType.Swap? then Some([])
    else
      var volume := if fs.volumeTask then [ConfigureVolume(fs.vpath)] else [];
      if fs.state.Initial? then Some(volume + InitialMountTasks(fs))
      else if MountAffectingChanged(fs) then
        match UpdatedMountTasks(fs)
        case None => None
        case Some(tasks) => Some(volume + tasks)
      else Some(volume)
  }

  predicate Plannable(fss: seq<FileSystem>) {
    forall i :: 0 <= i < |fss| ==> TasksForFileSystem(fss[i]).Some?
  }

  /** One ordered task list per file system; nothing orders tasks of different lists. */
  function TaskLists(fss: seq<FileSystem>): (lists: seq<seq<Task>>)
    requires Plannable(fss)
    ensures |lists| == |fss|
    ensures forall i :: 0 <= i < |fss| ==> lists[i] == TasksForFileSystem(fss[i]).value
  {
    seq(|fss|, i requires 0 <= i < |fss| => TasksForFileSystem(fss[i]).value)
  }

  // ---------------------------------------------------------------- validators

  predicate SharesMountPoint(fss: seq<FileSystem>, fs: FileSystem) {
    fs.mount.Some? && exists other :: other in fss && other.vpath != fs.vpath && other.mount == fs.mount
  }

  predicate ReusesMountPoint(fs: FileSystem, other: FileSystem) {
    fs.applied.Some? && other.vpath != fs.vpath && other.mount == fs.applied
  }

  predicate Moves(fs: FileSystem) {
    fs.state.Initial? || MountPointChanged(fs)
  }

  function SharedErrors(all: seq<FileSystem>, fss: seq<FileSystem>): seq<string> {
    if fss == [] then []
    else SharedErrors(all, Front(fss)) + if SharesMountPoint(all, Last(fss)) then [Last(fss).vpath] else []
  }

  /** Reports each file system whose mount point another file system of the profile has as well. */
  method ValidateUniqueMountPoint(profile: seq<seq<FileSystem>>) returns (errors: seq<string>)
    ensures errors == SharedErrors(Flatten(profile), Flatten(profile))
  {
    ghost var all := Flatten(profile);
    errors := [];
    for v := 0 to |profile|
      invariant errors == SharedErrors(all, Flatten(profile[..v]))
    {
      var vg := profile[v];
      ghost var before := Flatten(profile[..v]);
      assert before + vg[..0] == before;
      for f := 0 to |vg|
        invariant errors == SharedErrors(all, before + vg[..f])
      {
        var conflict := HasMountPoint(profile, vg[f]);
        if conflict {
          errors := errors + [vg[f].vpath];
        }
        assert Front(before + vg[..f + 1]) == before + vg[..f];
      }
      assert vg[..|vg|] == vg;
      TakeOneMore(profile, v);
      FlattenOne(profile[..v], vg);
    }
    assert profile[..|profile|] == profile;
  }

  method HasMountPoint(profile: seq<seq<FileSystem>>, fs: FileSystem) returns (found: bool)
    ensures found == SharesMountPoint(Flatten(profile), fs)
  {
    found := false;
    for v := 0 to |profile|
      invariant found == SharesMountPoint(Flatten(profile[..v]), fs)
    {
      var vg := profile[v];
      assert Flatten(profile[..v]) + vg[..0] == Flatten(profile[..v]);
      for f := 0 to |vg|
        invariant found == SharesMountPoint(Flatten(profile[..v]) + vg[..f], fs)
      {
        assert Flatten(profile[..v]) + vg[..f + 1] == (Flatten(profile[..v]) + vg[..f]) + [vg[f]];
        if fs.mount.Some? && vg[f].vpath != fs.vpath && vg[f].mount == fs.mount {
          assert vg[f] in Flatten(profile[..v]) + vg[..f + 1];
          found := true;
        }
      }
      assert vg[..|vg|] == vg;
      TakeOneMore(profile, v);
      FlattenOne(profile[..v], vg);
    }
    assert profile[..|profile|] == profile;
  }

  function ReuseErrorsOf(fs: FileSystem, others: seq<FileSystem>): seq<string> {
    if others == [] then []
    else ReuseErrorsOf(fs, Front(others)) + if ReusesMountPoint(fs, Last(others)) then [fs.vpath] else []
  }

  function ReuseErrors(fss: seq<FileSystem>, others: seq<FileSystem>): seq<string> {
    if fss == [] then [] else ReuseErrors(Front(fss), others) + ReuseErrorsOf(Last(fss), others)
  }

  /** Reports each file system whose applied mount point is handed to another moving file system. */
  method ValidateMountPointNotReused(profile: seq<seq<FileSystem>>) returns (errors: seq<string>)
    ensures errors == ReuseErrors(Filter(Moves, Flatten(profile)), Filter(Moves, Flatten(profile)))
  {
    var fss := MovingFileSystems(profile);
    errors := [];
    for i := 0 to |fss|
      invariant errors == ReuseErrors(fss[..i], fss)
    {
      TakeOneMore(fss, i);
      errors := AddReuses(fss[i], fss, errors);
    }
    assert fss[..|fss|] == fss;
  }

  method MovingFileSystems(profile: seq<seq<FileSystem>>) returns (fss: seq<FileSystem>)
    ensures fss == Filter(Moves, Flatten(profile))
  {
    fss := [];
    for v := 0 to |profile|
      invariant fss == Filter(Moves, Flatten(profile[..v]))
    {
      fss := fss + Filter(Moves, profile[v]);
      TakeOneMore(profile, v);
      FlattenOne(profile[..v], profile[v]);
      FilterAppend(Moves, Flatten(profile[..v]), profile[v]);
    }
    assert profile[..|profile|] == profile;
  }

  /** The inner loop, for one file system. */
  method AddReuses(fs: FileSystem, fss: seq<FileSystem>, already: seq<string>) returns (errors: seq<string>)
    ensures errors == already + ReuseErrorsOf(fs, fss)
  {
    errors := already;
    for j := 0 to |fss|
      invariant errors == already + ReuseErrorsOf(fs, fss[..j])
    {
      var fs2 := fss[j];
      TakeOneMore(fss, j);
      if fs.applied.None? {
        continue;
      }
      if fs2.vpath != fs.vpath && fs2.mount == fs.applied {
        Regroup(already, ReuseErrorsOf(fs, fss[..j]), [fs.vpath]);
        errors := errors + [fs.vpath];
      }
    }
    assert fss[..|fss|] == fss;
  }

  ghost predicate UniqueVpaths(fss: seq<FileSystem>) {
    forall i, j :: 0 <= i < j < |fss| ==> fss[i].vpath != fss[j].vpath
  }

  ghost predicate CurrentDistinct(fss: seq<FileSystem>) {
    forall i, j :: 0 <= i < j < |fss| && fss[i].mount.Some? ==> fss[i].mount != fss[j].mount
  }

  ghost predicate AppliedDistinct(fss: seq<FileSystem>) {
    forall i, j :: 0 <= i < j < |fss| && fss[i].applied.Some? ==> fss[i].applied != fss[j].applied
  }

  ghost predicate NoReuse(fss: seq<FileSystem>) {
    forall i, j :: 0 <= i < |fss| && 0 <= j < |fss| && i != j ==>
      MountPointChanged(fss[i]) && Moves(fss[j]) && fss[i].applied.Some? ==> fss[j].mount != fss[i].applied
  }

  lemma {:induction false} SharedErrorsEmpty(all: seq<FileSystem>, fss: seq<FileSystem>)
    ensures SharedErrors(all, fss) == [] <==> forall fs :: fs in fss ==> !SharesMountPoint(all, fs)
  {
    if fss != [] {
      SharedErrorsEmpty(all, Front(fss));
      assert fss == Front(fss) + [Last(fss)];
    }
  }

  /** The uniqueness validator is silent exactly when the current mount points are pairwise distinct. */
  lemma {:induction false} UniqueSilent(fss: seq<FileSystem>)
    requires UniqueVpaths(fss)
    ensures SharedErrors(fss, fss) == [] <==> CurrentDistinct(fss)
  {
    SharedErrorsEmpty(fss, fss);
    if SharedErrors(fss, fss) == [] {
      forall i, j | 0 <= i < j < |fss| && fss[i].mount.Some? ensures fss[i].mount != fss[j].mount {
        assert !SharesMountPoint(fss, fss[i]) && fss[j] in fss;
      }
    } else {
      var fs :| fs in fss && SharesMountPoint(fss, fs);
      var other :| other in fss && other.vpath != fs.vpath && other.mount == fs.mount;
      var i :| 0 <= i < |fss| && fss[i] == fs;
      var j :| 0 <= j < |fss| && fss[j] == other;
    }
  }

  lemma {:induction false} ReuseErrorsOfEmpty(fs: FileSystem, others: seq<FileSystem>)
    ensures ReuseErrorsOf(fs, others) == [] <==> forall other :: other in others ==> !ReusesMountPoint(fs, other)
  {
    if others != [] {
      ReuseErrorsOfEmpty(fs, Front(others));
      assert others == Front(others) + [Last(others)];
    }
  }

  lemma {:induction false} ReuseErrorsEmpty(fss: seq<FileSystem>, others: seq<FileSystem>)
    ensures ReuseErrors(fss, others) == []
      <==> forall fs, other :: fs in fss && other in others ==> !ReusesMountPoint(fs, other)
  {
    if fss != [] {
      ReuseErrorsEmpty(Front(fss), others);
      ReuseErrorsOfEmpty(Last(fss), others);
      assert fss == Front(fss) + [Last(fss)];
    }
  }

  /** The reuse validator is silent exactly when no moved-away mount point is taken by a moving file system. */
  lemma {:induction false} ReuseSilent(fss: seq<FileSystem>)
    requires UniqueVpaths(fss)
    requires forall fs :: fs in fss ==> WellFormed(fs)
    ensures ReuseErrors(Filter(Moves, fss), Filter(Moves, fss)) == [] <==> NoReuse(fss)
  {
    var moving := Filter(Moves, fss);
    ReuseErrorsEmpty(moving, moving);
    if NoReuse(fss) {
      forall fs, other | fs in moving && other in moving ensures !ReusesMountPoint(fs, other) {
        FilterMembers(Moves, fss, fs);
        FilterMembers(Moves, fss, other);
        var i :| 0 <= i < |fss| && fss[i] == fs;
        var j :| 0 <= j < |fss| && fss[j] == other;
      }
    } else {
      ReuseIsReported(fss);
    }
  }

  lemma {:induction false} ReuseIsReported(fss: seq<FileSystem>)
    requires UniqueVpaths(fss) && !NoReuse(fss)
    ensures exists fs, other :: fs in Filter(Moves, fss) && other in Filter(Moves, fss) && ReusesMountPoint(fs, other)
  {
    var i, j :| 0 <= i < |fss| && 0 <= j < |fss| && i != j && MountPointChanged(fss[i]) && Moves(fss[j])
      && fss[i].applied.Some? && fss[j].mount == fss[i].applied;
    FilterMembers(Moves, fss, fss[i]);
    FilterMembers(Moves, fss, fss[j]);
    assert fss[i].vpath != fss[j].vpath by {
      assert i < j || j < i;
    }
    assert ReusesMountPoint(fss[i], fss[j]);
  }

  // ---------------------------------------------------------------- execution

  function Apply(task: Task, t: Table): Table {
    match task
    case Mount(path, device) => t[path := device]
    case Unmount(path) => t - {path}
    case _ => t
  }

  function RunInOrder(tasks: seq<Task>, t: Table): Table {
    if tasks == [] then t else RunInOrder(tasks[1..], Apply(tasks[0], t))
  }

  /** A schedule names, step by step, the list whose next task runs. It is complete when every list is used up. */
  ghost predicate Complete(lists: seq<seq<Task>>, schedule: seq<nat>)
    decreases |schedule|
  {
    if schedule == [] then forall i :: 0 <= i < |lists| ==> lists[i] == []
    else
      && schedule[0] < |lists|
      && lists[schedule[0]] != []
      && Complete(lists[schedule[0] := lists[schedule[0]][1..]], schedule[1..])
  }

  ghost function RunSchedule(lists: seq<seq<Task>>, schedule: seq<nat>, t: Table): Table
    requires Complete(lists, schedule)
    decreases |schedule|
  {
    if schedule == [] then t
    else
      var i := schedule[0];
      RunSchedule(lists[i := lists[i][1..]], schedule[1..], Apply(lists[i][0], t))
  }

  function Lookup(t: Table, k: MountPoint): Option<string> {
    if k in t then Some(t[k]) else None
  }

  predicate Touches(task: Task, k: MountPoint) {
    (task.Mount? || task.Unmount?) && task.path == k
  }

  predicate ListTouches(tasks: seq<Task>, k: MountPoint) {
    exists task :: task in tasks && Touches(task, k)
  }

  lemma {:induction false} RunInOrderAt(tasks: seq<Task>, t: Table, u: Table, k: MountPoint)
    requires Lookup(t, k) == Lookup(u, k)
    ensures Lookup(RunInOrder(tasks, t), k) == Lookup(RunInOrder(tasks, u), k)
    ensures !ListTouches(tasks, k) ==> Lookup(RunInOrder(tasks, t), k) == Lookup(t, k)
  {
    if tasks != [] {
      assert tasks[0] in tasks;
      RunInOrderAt(tasks[1..], Apply(tasks[0], t), Apply(tasks[0], u), k);
    }
  }

  lemma {:induction false} RunInOrderAppend(a: seq<Task>, b: seq<Task>, t: Table)
    ensures RunInOrder(a + b, t) == RunInOrder(b, RunInOrder(a, t))
  {
    if a == [] {
      assert a + b == b;
    } else {
      assert (a + b)[1..] == a[1..] + b;
      RunInOrderAppend(a[1..], b, Apply(a[0], t));
    }
  }

  /** Commutation: a mount point that only one list touches ends as if that list had run alone. */
  lemma {:induction false} OnlyOwnerMatters(lists: seq<seq<Task>>, schedule: seq<nat>, t: Table, k: MountPoint,
      owner: nat)
    requires Complete(lists, schedule)
    requires owner < |lists|
    requires forall i :: 0 <= i < |lists| && i != owner ==> !ListTouches(lists[i], k)
    ensures Lookup(RunSchedule(lists, schedule, t), k) == Lookup(RunInOrder(lists[owner], t), k)
    decreases |schedule|
  {
    if schedule == [] {
      assert lists[owner] == [];
    } else {
      var i := schedule[0];
      var rest := lists[i := lists[i][1..]];
      assert lists[i][0] in lists[i];
      forall j | 0 <= j < |rest| && j != owner ensures !ListTouches(rest[j], k) {
        assert forall task :: task in rest[j] ==> task in lists[j];
      }
      OnlyOwnerMatters(rest, schedule[1..], Apply(lists[i][0], t), k, owner);
      if i != owner {
        assert !Touches(lists[i][0], k);
        RunInOrderAt(lists[owner], Apply(lists[i][0], t), t, k);
      }
    }
  }

  // ---------------------------------------------------------------- what a plan should leave behind

  /** The mount point a file system's list mounts, and the one it unmounts. */
  function Mounts(fs: FileSystem): Option<MountPoint> {
    if fs.fsType.Swap? || !(fs.state.Initial? || MountAffectingChanged(fs)) then None
    else if fs.mount == Some(ROOT) then None
    else fs.mount
  }

  function Unmounts(fs: FileSystem): Option<MountPoint> {
    if fs.fsType.Swap? || !MountPointChanged(fs) then None else fs.applied
  }

  function MountAll(fss: seq<FileSystem>, t: Table): Table {
    if fss == [] then t
    else
      var rest := MountAll(Front(fss), t);
      if Mounts(Last(fss)).Some? then rest[Mounts(Last(fss)).value := Last(fss).device] else rest
  }

  /** Every replaced mount point goes first, then every new one is mounted on its own device. */
  function ModelTable(fss: seq<FileSystem>, t: Table): Table {
    MountAll(fss, t - set fs | fs in fss && Unmounts(fs).Some? :: Unmounts(fs).value)
  }

  lemma {:induction false} ListEffect(fs: FileSystem, t: Table, k: MountPoint)
    requires TasksForFileSystem(fs).Some?
    ensures ListTouches(TasksForFileSystem(fs).value, k) ==> Mounts(fs) == Some(k) || Unmounts(fs) == Some(k)
    ensures Mounts(fs) == Some(k) ==> Lookup(RunInOrder(TasksForFileSystem(fs).value, t), k) == Some(fs.device)
    ensures Mounts(fs) != Some(k) && Unmounts(fs) == Some(k)
      ==> Lookup(RunInOrder(TasksForFileSystem(fs).value, t), k) == None
  {
    if !fs.fsType.Swap? {
      var volume := if fs.volumeTask then [ConfigureVolume(fs.vpath)] else [];
      var rest := TasksForFileSystem(fs).value[|volume|..];
      assert TasksForFileSystem(fs).value == volume + rest;
      RunInOrderAppend(volume, rest, t);
      assert volume != [] ==> volume[1..] == [];
      assert RunInOrder(volume, t) == t;
      ShortListEffect(fs, rest, t, k);
    }
  }

  lemma {:induction false} ShortListEffect(fs: FileSystem, rest: seq<Task>, t: Table, k: MountPoint)
    requires !fs.fsType.Swap?
    requires rest == if fs.state.Initial? then InitialMountTasks(fs)
                     else if !MountAffectingChanged(fs) then []
                     else if UpdatedMountTasks(fs).Some? then UpdatedMountTasks(fs).value else []
    requires !fs.state.Initial? && MountAffectingChanged(fs) ==> UpdatedMountTasks(fs).Some?
    ensures ListTouches(rest, k) ==> Mounts(fs) == Some(k) || Unmounts(fs) == Some(k)
    ensures Mounts(fs) == Some(k) ==> Lookup(RunInOrder(rest, t), k) == Some(fs.device)
    ensures Mounts(fs) != Some(k) && Unmounts(fs) == Some(k) ==> Lookup(RunInOrder(rest, t), k) == None
  {
    if |rest| >= 1 {
      assert RunInOrder(rest, t) == RunInOrder(rest[1..], Apply(rest[0], t));
    }
    if |rest| >= 2 {
      assert rest[1..][1..] == rest[2..];
      assert RunInOrder(rest[1..], Apply(rest[0], t)) == RunInOrder(rest[2..], Apply(rest[1], Apply(rest[0], t)));
    }
    if |rest| == 3 {
      assert rest[2..][1..] == [];
      var u := Apply(rest[1], Apply(rest[0], t));
      assert RunInOrder(rest[2..], u) == Apply(rest[2], u);
    }
  }

  lemma {:induction false} MountAllAt(fss: seq<FileSystem>, t: Table, k: MountPoint, owner: nat)
    requires owner < |fss| && Mounts(fss[owner]) == Some(k)
    requires forall i :: 0 <= i < |fss| && i != owner ==> Mounts(fss[i]) != Some(k)
    ensures Lookup(MountAll(fss, t), k) == Some(fss[owner].device)
  {
    if owner < |fss| - 1 {
      MountAllAt(Front(fss), t, k, owner);
      assert Mounts(Last(fss)) != Some(k);
    }
  }

  lemma {:induction false} MountAllElsewhere(fss: seq<FileSystem>, t: Table, k: MountPoint)
    requires forall i :: 0 <= i < |fss| ==> Mounts(fss[i]) != Some(k)
    ensures Lookup(MountAll(fss, t), k) == Lookup(t, k)
  {
    if fss != [] {
      MountAllElsewhere(Front(fss), t, k);
      assert Mounts(Last(fss)) != Some(k);
    }
  }

  ghost predicate Accepted(fss: seq<FileSystem>) {
    && (forall i :: 0 <= i < |fss| ==> WellFormed(fss[i]))
    && Plannable(fss)
    && UniqueVpaths(fss)
    && CurrentDistinct(fss)
    && NoReuse(fss)
  }

  /** No list mounts what another one unmounts. */
  ghost predicate NoCollision(fss: seq<FileSystem>) {
    forall i, j :: 0 <= i < |fss| && 0 <= j < |fss| && i != j && Unmounts(fss[i]).Some? ==>
      Mounts(fss[j]) != Unmounts(fss[i])
  }

  /** What the generator and the uniqueness validator see to, without the reuse validator. */
  ghost predicate Sound(fss: seq<FileSystem>) {
    && (forall i :: 0 <= i < |fss| ==> WellFormed(fss[i]))
    && Plannable(fss) && UniqueVpaths(fss) && CurrentDistinct(fss) && AppliedDistinct(fss)
  }

  /** A pair that the reuse validator objects to collides unless a swap file system or the root mount is in it. */
  ghost predicate Reuse(fss: seq<FileSystem>, i: nat, j: nat)
    requires i < |fss| && j < |fss|
  {
    && i != j && MountPointChanged(fss[i]) && Moves(fss[j])
    && fss[i].applied.Some? && fss[j].mount == fss[i].applied
  }

  lemma {:induction false} ReuseCollides(fss: seq<FileSystem>, i: nat, j: nat)
    requires Sound(fss) && i < |fss| && j < |fss| && i != j
    ensures (Unmounts(fss[i]).Some? && Mounts(fss[j]) == Unmounts(fss[i])) <==>
      (Reuse(fss, i, j) && !fss[i].fsType.Swap? && !fss[j].fsType.Swap? && fss[i].applied != Some(ROOT))
  {
    var a, b := if i < j then i else j, if i < j then j else i;
    assert fss[a].applied.Some? ==> fss[a].applied != fss[b].applied;
    assert WellFormed(fss[i]) && WellFormed(fss[j]);
  }

  /** Without a collision no two lists touch the same mount point. */
  lemma {:induction false} TouchedByOne(fss: seq<FileSystem>, k: MountPoint, i: nat, j: nat)
    requires Sound(fss) && NoCollision(fss)
    requires i < |fss| && j < |fss| && i != j
    requires Mounts(fss[i]) == Some(k) || Unmounts(fss[i]) == Some(k)
    ensures Mounts(fss[j]) != Some(k) && Unmounts(fss[j]) != Some(k)
  {
    var a, b := if i < j then i else j, if i < j then j else i;
    assert fss[a].mount.Some? ==> fss[a].mount != fss[b].mount;
    assert fss[a].applied.Some? ==> fss[a].applied != fss[b].applied;
  }

  lemma {:induction false} ModelTableAt(fss: seq<FileSystem>, t: Table, k: MountPoint, owner: nat)
    requires Sound(fss) && NoCollision(fss)
    requires owner < |fss|
    requires Mounts(fss[owner]) == Some(k) || Unmounts(fss[owner]) == Some(k)
    ensures Lookup(ModelTable(fss, t), k) == if Mounts(fss[owner]) == Some(k) then Some(fss[owner].device) else None
  {
    forall j | 0 <= j < |fss| && j != owner ensures Mounts(fss[j]) != Some(k) {
      TouchedByOne(fss, k, owner, j);
    }
    var gone := set fs | fs in fss && Unmounts(fs).Some? :: Unmounts(fs).value;
    if Mounts(fss[owner]) == Some(k) {
      MountAllAt(fss, t - gone, k, owner);
    } else {
      assert fss[owner] in fss && k in gone;
      MountAllElsewhere(fss, t - gone, k);
    }
  }

  lemma {:induction false} ModelTableElsewhere(fss: seq<FileSystem>, t: Table, k: MountPoint)
    requires forall i :: 0 <= i < |fss| ==> Mounts(fss[i]) != Some(k) && Unmounts(fss[i]) != Some(k)
    ensures Lookup(ModelTable(fss, t), k) == Lookup(t, k)
  {
    var gone := set fs | fs in fss && Unmounts(fs).Some? :: Unmounts(fs).value;
    forall fs | fs in fss ensures Unmounts(fs) != Some(k) {
      var i :| 0 <= i < |fss| && fss[i] == fs;
    }
    assert k !in gone;
    MountAllElsewhere(fss, t - gone, k);
  }

  lemma {:induction false} TablesEqual(t: Table, u: Table)
    requires forall k: MountPoint :: Lookup(t, k) == Lookup(u, k)
    ensures t == u
  {
    forall k: MountPoint ensures k in t <==> k in u {
      assert Lookup(t, k) == Lookup(u, k);
    }
    forall k: MountPoint | k in t ensures t[k] == u[k] {
      assert Lookup(t, k) == Lookup(u, k);
    }
  }

  lemma {:induction false} NoReuseNoCollision(fss: seq<FileSystem>)
    requires Accepted(fss) && AppliedDistinct(fss)
    ensures Sound(fss) && NoCollision(fss)
  {
    forall i, j | 0 <= i < |fss| && 0 <= j < |fss| && i != j && Unmounts(fss[i]).Some?
      ensures Mounts(fss[j]) != Unmounts(fss[i])
    {
      ReuseCollides(fss, i, j);
    }
  }

  /** Whatever order the lists of an accepted profile are interleaved in, the plan leaves the model's table. */
  lemma {:induction false} AnyInterleaving(fss: seq<FileSystem>, schedule: seq<nat>, t: Table)
    requires Accepted(fss) && AppliedDistinct(fss)
    requires Complete(TaskLists(fss), schedule)
    ensures RunSchedule(TaskLists(fss), schedule, t) == ModelTable(fss, t)
  {
    NoReuseNoCollision(fss);
    CollisionFreeInterleaving(fss, schedule, t);
  }

  lemma {:induction false} CollisionFreeInterleaving(fss: seq<FileSystem>, schedule: seq<nat>, t: Table)
    requires Sound(fss) && NoCollision(fss)
    requires Complete(TaskLists(fss), schedule)
    ensures RunSchedule(TaskLists(fss), schedule, t) == ModelTable(fss, t)
  {
    var lists := TaskLists(fss);
    var final := RunSchedule(lists, schedule, t);
    forall k: MountPoint ensures Lookup(final, k) == Lookup(ModelTable(fss, t), k) {
      forall i | 0 <= i < |fss|
        ensures ListTouches(lists[i], k) ==> Mounts(fss[i]) == Some(k) || Unmounts(fss[i]) == Some(k)
      {
        ListEffect(fss[i], t, k);
      }
      if owner: nat :| owner < |fss| && (Mounts(fss[owner]) == Some(k) || Unmounts(fss[owner]) == Some(k)) {
        forall j | 0 <= j < |fss| && j != owner ensures !ListTouches(lists[j], k) {
          TouchedByOne(fss, k, owner, j);
        }
        OnlyOwnerMatters(lists, schedule, t, k, owner);
        ListEffect(fss[owner], t, k);
        ModelTableAt(fss, t, k, owner);
      } else {
        ModelTableElsewhere(fss, t, k);
        if |fss| == 0 {
          assert schedule == [];
        } else {
          OnlyOwnerMatters(lists, schedule, t, k, 0);
          RunInOrderAt(lists[0], t, t, k);
        }
      }
    }
    TablesEqual(final, ModelTable(fss, t));
  }

  // ---------------------------------------------------------------- the reuse validator is exact

  /** Some complete schedule runs the list of `last` after every other list. */
  lemma {:induction false} ScheduleLast(lists: seq<seq<Task>>, last: nat, t: Table)
    returns (schedule: seq<nat>, before: Table)
    requires last < |lists|
    ensures Complete(lists, schedule)
    ensures RunSchedule(lists, schedule, t) == RunInOrder(lists[last], before)
    decreases |Flatten(lists)|
  {
    if i: nat :| i < |lists| && i != last && lists[i] != [] {
      var rest := lists[i := lists[i][1..]];
      ShorterByOne(lists, i);
      var tail, u := ScheduleLast(rest, last, Apply(lists[i][0], t));
      schedule, before := [i] + tail, u;
    } else if lists[last] == [] {
      schedule, before := [], t;
    } else {
      var rest := lists[last := lists[last][1..]];
      ShorterByOne(lists, last);
      var tail, _ := ScheduleLast(rest, last, Apply(lists[last][0], t));
      schedule, before := [last] + tail, t;
      OnlyListLeft(rest, tail, last, Apply(lists[last][0], t));
    }
  }

  lemma {:induction false} OnlyListLeft(lists: seq<seq<Task>>, schedule: seq<nat>, last: nat, t: Table)
    requires last < |lists| && Complete(lists, schedule)
    requires forall i :: 0 <= i < |lists| && i != last ==> lists[i] == []
    ensures RunSchedule(lists, schedule, t) == RunInOrder(lists[last], t)
    decreases |schedule|
  {
    if schedule != [] {
      assert schedule[0] == last;
      OnlyListLeft(lists[last := lists[last][1..]], schedule[1..], last, Apply(lists[last][0], t));
    }
  }

  lemma {:induction false} ShorterByOne(lists: seq<seq<Task>>, i: nat)
    requires i < |lists| && lists[i] != []
    ensures |Flatten(lists[i := lists[i][1..]])| < |Flatten(lists)|
  {
    var rest := lists[i := lists[i][1..]];
    if i == |lists| - 1 {
      assert Front(rest) == Front(lists);
    } else {
      ShorterByOne(Front(lists), i);
      assert Front(rest) == Front(lists)[i := lists[i][1..]];
    }
  }

  /** Handing a mount point on within one plan loses it under some schedule. */
  lemma {:induction false} ReuseLosesMount(fss: seq<FileSystem>, t: Table, i: nat, j: nat)
    returns (schedule: seq<nat>)
    requires Plannable(fss) && CurrentDistinct(fss)
    requires i < |fss| && j < |fss| && i != j
    requires Unmounts(fss[i]).Some? && Mounts(fss[j]) == Unmounts(fss[i])
    ensures Complete(TaskLists(fss), schedule)
    ensures Unmounts(fss[i]).value !in RunSchedule(TaskLists(fss), schedule, t)
    ensures Lookup(ModelTable(fss, t), Unmounts(fss[i]).value) == Some(fss[j].device)
  {
    var k := fss[j].mount.value;
    forall n | 0 <= n < |fss| && n != j ensures Mounts(fss[n]) != Some(k) {
      var a, b := if n < j then n else j, if n < j then j else n;
      assert fss[a].mount.Some? ==> fss[a].mount != fss[b].mount;
    }
    var before;
    schedule, before := ScheduleLast(TaskLists(fss), i, t);
    ListEffect(fss[i], before, k);
    assert Lookup(RunSchedule(TaskLists(fss), schedule, t), k) == None;
    MountAllAt(fss, t - set fs | fs in fss && Unmounts(fs).Some? :: Unmounts(fs).value, k, j);
  }

  /** The two validators staying silent is all the interleaving theorem asks of a profile. */
  lemma {:induction false} ValidatorsGuardPlan(profile: seq<seq<FileSystem>>, schedule: seq<nat>, t: Table)
    requires var fss := Flatten(profile);
      && (forall fs :: fs in fss ==> WellFormed(fs))
      && Plannable(fss) && UniqueVpaths(fss) && AppliedDistinct(fss)
      && SharedErrors(fss, fss) == []
      && ReuseErrors(Filter(Moves, fss), Filter(Moves, fss)) == []
    requires Complete(TaskLists(Flatten(profile)), schedule)
    ensures RunSchedule(TaskLists(Flatten(profile)), schedule, t) == ModelTable(Flatten(profile), t)
  {
    var fss := Flatten(profile);
    UniqueSilent(fss);
    ReuseSilent(fss);
    assert forall i :: 0 <= i < |fss| ==> fss[i] in fss;
    AnyInterleaving(fss, schedule, t);
  }

  ghost predicate EveryScheduleRight(fss: seq<FileSystem>, t: Table)
    requires Plannable(fss)
  {
    forall schedule :: Complete(TaskLists(fss), schedule)
      ==> RunSchedule(TaskLists(fss), schedule, t) == ModelTable(fss, t)
  }

  /** Every interleaving of the plan is right if and only if no list mounts what another one unmounts. */
  lemma {:induction false} RightUnlessCollision(fss: seq<FileSystem>, t: Table)
    requires Sound(fss)
    ensures EveryScheduleRight(fss, t) <==> NoCollision(fss)
  {
    if NoCollision(fss) {
      forall schedule | Complete(TaskLists(fss), schedule)
        ensures RunSchedule(TaskLists(fss), schedule, t) == ModelTable(fss, t)
      {
        CollisionFreeInterleaving(fss, schedule, t);
      }
    } else {
      var i, j :| 0 <= i < |fss| && 0 <= j < |fss| && i != j
        && Unmounts(fss[i]).Some? && Mounts(fss[j]) == Unmounts(fss[i]);
      var schedule := ReuseLosesMount(fss, t, i, j);
      assert RunSchedule(TaskLists(fss), schedule, t) != ModelTable(fss, t);
    }
  }

  /** The reuse validator is silent if and only if every interleaving is right and it has nothing harmless to object
      to: a reuse in which a swap file system or the root mount takes part. */
  lemma {:induction false} ReuseValidatorIsExact(fss: seq<FileSystem>, t: Table)
    requires Sound(fss)
    ensures ReuseErrors(Filter(Moves, fss), Filter(Moves, fss)) == [] <==>
      && EveryScheduleRight(fss, t)
      && forall i, j :: 0 <= i < |fss| && 0 <= j < |fss| && Reuse(fss, i, j) ==>
           !fss[i].fsType.Swap? && !fss[j].fsType.Swap? && fss[i].applied != Some(ROOT)
  {
    ReuseSilent(fss);
    RightUnlessCollision(fss, t);
    forall i, j | 0 <= i < |fss| && 0 <= j < |fss| && i != j
      ensures (Unmounts(fss[i]).Some? && Mounts(fss[j]) == Unmounts(fss[i])) <==>
        (Reuse(fss, i, j) && !fss[i].fsType.Swap? && !fss[j].fsType.Swap? && fss[i].applied != Some(ROOT))
    {
      ReuseCollides(fss, i, j);
    }
    if i, j :| 0 <= i < |fss| && 0 <= j < |fss| && Reuse(fss, i, j) {
      assert !NoReuse(fss);
    } else {
      forall i, j | 0 <= i < |fss| && 0 <= j < |fss| && i != j
        ensures MountPointChanged(fss[i]) && Moves(fss[j]) && fss[i].applied.Some? ==> fss[j].mount != fss[i].applied
      {
        assert !Reuse(fss, i, j);
      }
      assert NoReuse(fss);
    }
  }

  // ---------------------------------------------------------------- runs of several plans

  /** The table agrees with the applied mount points, which are distinct. The root mount is not the plugin's. */
  ghost predicate Settled(fss: seq<FileSystem>, t: Table) {
    && AppliedDistinct(fss)
    && forall i :: 0 <= i < |fss| && !fss[i].fsType.Swap? && fss[i].applied.Some? && fss[i].applied != Some(ROOT)
         ==> Lookup(t, fss[i].applied.value) == Some(fss[i].device)
  }

  /** What the table must say once a plan has run: each mount point of the model on its own device,
      each replaced mount point gone, every other entry untouched. */
  ghost predicate Realised(fss: seq<FileSystem>, before: Table, after: Table) {
    && (forall i :: 0 <= i < |fss| && !fss[i].fsType.Swap? && fss[i].mount.Some? && fss[i].mount != Some(ROOT)
         ==> Lookup(after, fss[i].mount.value) == Some(fss[i].device))
    && (forall i :: 0 <= i < |fss| && Unmounts(fss[i]).Some? ==> Lookup(after, Unmounts(fss[i]).value) == None)
    && (forall k: MountPoint {:trigger Lookup(after, k)} ::
          (forall i :: 0 <= i < |fss| ==> Mounts(fss[i]) != Some(k) && Unmounts(fss[i]) != Some(k))
            ==> Lookup(after, k) == Lookup(before, k))
  }

  lemma {:induction false} PlanRealisesModel(fss: seq<FileSystem>, schedule: seq<nat>, t: Table)
    requires Accepted(fss) && Settled(fss, t)
    requires Complete(TaskLists(fss), schedule)
    ensures Realised(fss, t, RunSchedule(TaskLists(fss), schedule, t))
  {
    NoReuseNoCollision(fss);
    CollisionFreeInterleaving(fss, schedule, t);
    forall i: nat | i < |fss| && !fss[i].fsType.Swap? && fss[i].mount.Some? && fss[i].mount != Some(ROOT)
      ensures Lookup(ModelTable(fss, t), fss[i].mount.value) == Some(fss[i].device)
    {
      var k := fss[i].mount.value;
      if Mounts(fss[i]) == Some(k) {
        ModelTableAt(fss, t, k, i);
      } else {
        // Neither Initial nor changed: the applied mount point is the current one.
        UntouchedMount(fss, k, i);
        ModelTableElsewhere(fss, t, k);
      }
    }
    forall i: nat | i < |fss| && Unmounts(fss[i]).Some?
      ensures Lookup(ModelTable(fss, t), Unmounts(fss[i]).value) == None
    {
      ModelTableAt(fss, t, Unmounts(fss[i]).value, i);
    }
    forall k: MountPoint | forall i :: 0 <= i < |fss| ==> Mounts(fss[i]) != Some(k) && Unmounts(fss[i]) != Some(k)
      ensures Lookup(ModelTable(fss, t), k) == Lookup(t, k)
    {
      ModelTableElsewhere(fss, t, k);
    }
  }

  lemma {:induction false} UntouchedMount(fss: seq<FileSystem>, k: MountPoint, i: nat)
    requires Accepted(fss) && AppliedDistinct(fss)
    requires i < |fss| && fss[i].mount == fss[i].applied == Some(k)
    requires Mounts(fss[i]) != Some(k)
    ensures forall j :: 0 <= j < |fss| ==> Mounts(fss[j]) != Some(k) && Unmounts(fss[j]) != Some(k)
  {
    forall j: nat | j < |fss| ensures Mounts(fss[j]) != Some(k) && Unmounts(fss[j]) != Some(k) {
      if j != i {
        var a, b := if i < j then i else j, if i < j then j else i;
        assert fss[a].mount.Some? ==> fss[a].mount != fss[b].mount;
        assert fss[a].applied.Some? ==> fss[a].applied != fss[b].applied;
      }
    }
  }

  /** The next profile keeps every file system of the last plan, with its properties now applied; the rest is new. */
  ghost predicate Follows(prev: seq<FileSystem>, next: seq<FileSystem>) {
    && |prev| <= |next|
    && (forall i :: 0 <= i < |prev| ==>
          && !next[i].state.Initial?
          && next[i].applied == prev[i].mount
          && next[i].device == prev[i].device
          && next[i].fsType == prev[i].fsType)
    && (forall i :: |prev| <= i < |next| ==> next[i].state.Initial?)
  }

  lemma {:induction false} SettledAgain(prev: seq<FileSystem>, next: seq<FileSystem>, t: Table, after: Table)
    requires Accepted(prev) && Realised(prev, t, after)
    requires Follows(prev, next) && Accepted(next)
    ensures Settled(next, after)
  {
    forall i, j | 0 <= i < j < |next| && next[i].applied.Some? ensures next[i].applied != next[j].applied {
      if j < |prev| {
        assert prev[i].mount != prev[j].mount;
      }
    }
  }

  datatype PlanRun = PlanRun(fss: seq<FileSystem>, schedule: seq<nat>)

  /** Accepted plans, each run to completion under its own schedule, one after the other. */
  ghost predicate History(runs: seq<PlanRun>) {
    && (forall i :: 0 <= i < |runs| ==> Accepted(runs[i].fss) && Complete(TaskLists(runs[i].fss), runs[i].schedule))
    && (forall i :: 0 < i < |runs| ==> Follows(runs[i - 1].fss, runs[i].fss))
  }

  ghost function TableAfter(runs: seq<PlanRun>, t: Table): Table
    requires History(runs)
  {
    if runs == [] then t
    else RunSchedule(TaskLists(Last(runs).fss), Last(runs).schedule, TableAfter(Front(runs), t))
  }

  /** Over every history the table stays settled before each plan and realises the model after it. */
  lemma {:induction false} EveryRunRealisesModel(runs: seq<PlanRun>, t: Table)
    requires runs != [] && History(runs) && Settled(runs[0].fss, t)
    ensures Settled(Last(runs).fss, TableAfter(Front(runs), t))
    ensures Realised(Last(runs).fss, TableAfter(Front(runs), t), TableAfter(runs, t))
  {
    if |runs| > 1 {
      var prev := Front(runs);
      EveryRunRealisesModel(prev, t);
      assert Follows(runs[|runs| - 2].fss, Last(runs).fss);
      SettledAgain(Last(prev).fss, Last(runs).fss, TableAfter(Front(prev), t), TableAfter(prev, t));
    }
    PlanRealisesModel(Last(runs).fss, Last(runs).schedule, TableAfter(Front(runs), t));
  }

  /** An entry no plan of the history ever names is never touched. */
  lemma {:induction false} ForeignEntriesSurvive(runs: seq<PlanRun>, t: Table, k: MountPoint)
    requires History(runs) && (runs != [] ==> Settled(runs[0].fss, t))
    requires forall n, i :: 0 <= n < |runs| && 0 <= i < |runs[n].fss| ==>
      runs[n].fss[i].mount != Some(k) && runs[n].fss[i].applied != Some(k)
    ensures Lookup(TableAfter(runs, t), k) == Lookup(t, k)
  {
    if runs != [] {
      ForeignEntriesSurvive(Front(runs), t, k);
      EveryRunRealisesModel(runs, t);
      var fss := Last(runs).fss;
      assert fss == runs[|runs| - 1].fss;
      assert forall i :: 0 <= i < |fss| ==> Mounts(fss[i]) != Some(k) && Unmounts(fss[i]) != Some(k);
    }
  }
}
