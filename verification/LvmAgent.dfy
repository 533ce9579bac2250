/** The LVM snapshot agent of one node. Whether a snapshot is merging is decided by searching the listing for its
    name as a word, so the line of any merging snapshot of any volume group counts that mentions the name anywhere. */
module LvmAgent {
  import opened Seqs

  datatype Volume = Volume(vg: string, name: string)

  /** A merging snapshot may have lost its device node already; `rest` is what its line shows after name and group. */
  datatype Merge = Merge(device: bool, rest: string)

  datatype State = Idle | Merging(merge: Merge)

  type Volumes = map<Volume, State>

  /** An exit code, and whether the command did its work; one that reports success did. */
  datatype Command = Command(code: int, done: bool)

  predicate Honest(c: Command) {
    c.code == 0 ==> c.done
  }

  // ---------------------------------------------------------------- the word search

  predicate WordChar(c: char) {
    'a' <= c <= 'z' || 'A' <= c <= 'Z' || '0' <= c <= '9' || c == '_'
  }

  /** The name is taken as a pattern, in which a dot is any character. */
  predicate MatchAt(line: string, name: string, i: nat) {
    i + |name| <= |line| && forall k :: 0 <= k < |name| ==> name[k] == '.' || line[i + k] == name[k]
  }

  predicate WordAt(line: string, name: string, i: nat) {
    && MatchAt(line, name, i)
    && (i == 0 || !WordChar(line[i - 1]))
    && (i + |name| == |line| || !WordChar(line[i + |name|]))
  }

  predicate HasWord(line: string, name: string) {
    exists i :: 0 <= i <= |line| && WordAt(line, name, i)
  }

  function Line(v: Volume, state: State): string
    requires state.Merging?
  {
    v.name + " " + v.vg + " " + state.merge.rest
  }

  predicate Mentions(vols: Volumes, v: Volume, name: string)
    requires v in vols
  {
    vols[v].Merging? && HasWord(Line(v, vols[v]), name)
  }

  ghost predicate NameMerging(vols: Volumes, name: string) {
    exists v :: v in vols && Mentions(vols, v, name)
  }

  /** A merging snapshot is found by its own name, and by what stands before a character of its name that is not part
      of a word, such as a hyphen. */
  lemma {:induction false} FoundByStart(vols: Volumes, v: Volume, name: string)
    requires v in vols && vols[v].Merging?
    requires name <= v.name && (name == v.name || !WordChar(v.name[|name|]))
    ensures Mentions(vols, v, name)
  {
    var line := Line(v, vols[v]);
    assert line == v.name + (" " + v.vg + " " + vols[v].merge.rest);
    assert line[|v.name|] == ' ' && WordAt(line, name, 0);
  }

  predicate HasDevice(vols: Volumes, v: Volume) {
    v in vols && (vols[v].Merging? ==> vols[v].merge.device)
  }

  // ---------------------------------------------------------------- the actions

  ghost function Created(vols: Volumes, v: Volume, c: Command): Volumes {
    if c.done && v !in vols then vols[v := Idle] else vols
  }

  ghost function Removed(vols: Volumes, v: Volume, c: Command): Volumes {
    if !NameMerging(vols, v.name) && HasDevice(vols, v) && c.done then vols - {v} else vols
  }

  ghost function RemoveStatus(vols: Volumes, v: Volume, c: Command): int {
    if NameMerging(vols, v.name) then 1 else if !HasDevice(vols, v) then 0 else c.code
  }

  /** `after` is what a merge that starts leaves of the snapshot: nothing when it completes at once. */
  ghost function Restored(vols: Volumes, v: Volume, c: Command, after: Option<Merge>): Volumes {
    if !HasDevice(vols, v) || NameMerging(vols, v.name) || !c.done then vols
    else if after.None? then vols - {v}
    else vols[v := Merging(after.value)]
  }

  /** Without a device and with a merge under way no status is set at all. */
  ghost function RestoreStatus(vols: Volumes, v: Volume, c: Command): Option<int> {
    if !HasDevice(vols, v) then (if NameMerging(vols, v.name) then None else Some(404))
    else if NameMerging(vols, v.name) then Some(0)
    else Some(c.code)
  }

  class Agent {
    var vols: Volumes

    constructor (vols: Volumes)
      ensures this.vols == vols
    {
      this.vols := vols;
    }

    method SnapshotIsMerging(name: string) returns (merging: bool)
      ensures merging <==> NameMerging(vols, name)
    {
      merging := false;
      var left := vols.Keys;
      while left != {}
        invariant left <= vols.Keys
        invariant merging <==> exists v :: v in vols.Keys - left && Mentions(vols, v, name)
      {
        var v :| v in left;
        merging := merging || Mentions(vols, v, name);
        left := left - {v};
      }
    }

    method Create(v: Volume, c: Command) returns (status: int)
      modifies this
      ensures vols == Created(old(vols), v, c) && status == c.code
    {
      if c.done && v !in vols {
        vols := vols[v := Idle];
      }
      status := c.code;
    }

    method Remove(v: Volume, c: Command) returns (status: int)
      modifies this
      ensures vols == Removed(old(vols), v, c) && status == RemoveStatus(old(vols), v, c)
    {
      var merging := SnapshotIsMerging(v.name);
      if merging {
        status := 1;
      } else if !HasDevice(vols, v) {
        status := 0;
      } else {
        status := c.code;
        if c.done {
          vols := vols - {v};
        }
      }
    }

    method Restore(v: Volume, c: Command, after: Option<Merge>) returns (status: Option<int>)
      modifies this
      ensures vols == Restored(old(vols), v, c, after) && status == RestoreStatus(old(vols), v, c)
    {
      var merging := SnapshotIsMerging(v.name);
      if !HasDevice(vols, v) {
        status := if merging then None else Some(404);
      } else if merging {
        status := Some(0);
      } else {
        status := Some(c.code);
        if c.done {
          vols := if after.None? then vols - {v} else vols[v := Merging(after.value)];
        }
      }
    }
  }

  // ---------------------------------------------------------------- what a reply means

  /** Removal replies 0 only when the snapshot is gone, and a repeated removal replies 0 and changes nothing. */
  lemma {:induction false} RemovedMeansGone(vols: Volumes, v: Volume, c: Command, again: Command)
    requires Honest(c) && RemoveStatus(vols, v, c) == 0
    ensures v !in Removed(vols, v, c)
    ensures RemoveStatus(Removed(vols, v, c), v, again) == 0
    ensures Removed(Removed(vols, v, c), v, again) == Removed(vols, v, c)
  {
    if v in vols && vols[v].Merging? {
      FoundByStart(vols, v, v.name);
    }
  }

  /** A snapshot that could be removed is kept exactly when the line of another, merging one mentions its name. */
  lemma {:induction false} RemovalRefused(vols: Volumes, v: Volume, c: Command)
    requires v in vols && vols[v].Idle? && c.code == 0 && c.done
    ensures v in Removed(vols, v, c) <==> exists w :: w in vols && w != v && Mentions(vols, w, v.name)
  {
  }

  /** A restore that replies 0 has the snapshot merging or merged, except exactly when it was left idle because the
      line of another, merging one mentions its name. */
  lemma {:induction false} RestoredMeansMerging(vols: Volumes, v: Volume, c: Command, after: Option<Merge>)
    requires Honest(c) && RestoreStatus(vols, v, c) == Some(0)
    ensures var now := Restored(vols, v, c, after);
      (v in now && now[v].Idle?) <==>
        vols[v].Idle? && exists w :: w in vols && w != v && Mentions(vols, w, v.name)
  {
    if vols[v].Merging? {
      FoundByStart(vols, v, v.name);
    }
  }

  /** Such a line is that of a snapshot of the same name in another group, or of a longer name with a hyphen. */
  lemma {:induction false} NamesakeBlocks(vols: Volumes, v: Volume, w: Volume, tail: string, c: Command)
    requires v in vols && vols[v].Idle? && w in vols && vols[w].Merging?
    requires w.name == v.name || w.name == v.name + "-" + tail
    ensures Removed(vols, v, c) == vols && RemoveStatus(vols, v, c) == 1
    ensures RestoreStatus(vols, v, c) == Some(0) && forall after :: Restored(vols, v, c, after) == vols
  {
    if w.name != v.name {
      assert w.name == v.name + ("-" + tail) && w.name[|v.name|] == '-';
    }
    FoundByStart(vols, w, v.name);
  }

  // ---------------------------------------------------------------- over whole runs

  /** What happens on a node: actions of the agent, and the kernel finishing a merge. */
  datatype Event =
    | DoCreate(v: Volume, c: Command)
    | DoRemove(v: Volume, c: Command)
    | DoRestore(v: Volume, c: Command, after: Option<Merge>)
    | Finish(v: Volume)

  ghost function Step(vols: Volumes, e: Event): Volumes {
    match e
    case DoCreate(v, c) => Created(vols, v, c)
    case DoRemove(v, c) => Removed(vols, v, c)
    case DoRestore(v, c, after) => Restored(vols, v, c, after)
    case Finish(v) => if v in vols && vols[v].Merging? then vols - {v} else vols
  }

  ghost function Run(vols: Volumes, events: seq<Event>): Volumes
    decreases |events|
  {
    if events == [] then vols else Run(Step(vols, events[0]), events[1..])
  }

  /** Whatever the agents are asked to do, a merging snapshot stays merging until the merge itself finishes. */
  lemma {:induction false} MergeIsNeverCut(vols: Volumes, events: seq<Event>, v: Volume)
    requires v in vols && vols[v].Merging? && Finish(v) !in events
    ensures v in Run(vols, events) && Run(vols, events)[v] == vols[v]
    decreases |events|
  {
    if events != [] {
      var next := Step(vols, events[0]);
      assert next[v] == vols[v] by {
        if events[0].DoRemove? && events[0].v == v {
          FoundByStart(vols, v, v.name);
        }
        if events[0].DoRestore? && events[0].v == v {
          FoundByStart(vols, v, v.name);
        }
      }
      MergeIsNeverCut(next, events[1..], v);
    }
  }

  ghost predicate AllReplyZero(vols: Volumes, targets: seq<Volume>, cs: seq<Command>)
    requires |cs| == |targets|
    decreases |targets|
  {
    targets != [] ==>
      && RemoveStatus(vols, targets[0], cs[0]) == 0
      && AllReplyZero(Removed(vols, targets[0], cs[0]), targets[1..], cs[1..])
  }

  ghost function RemoveAll(vols: Volumes, targets: seq<Volume>, cs: seq<Command>): Volumes
    requires |cs| == |targets|
    decreases |targets|
  {
    if targets == [] then vols else RemoveAll(Removed(vols, targets[0], cs[0]), targets[1..], cs[1..])
  }

  lemma {:induction false} RemovalOnlyRemoves(vols: Volumes, targets: seq<Volume>, cs: seq<Command>, v: Volume)
    requires |cs| == |targets|
    ensures v in RemoveAll(vols, targets, cs) ==> v in vols && RemoveAll(vols, targets, cs)[v] == vols[v]
    ensures v in vols && v !in targets ==> v in RemoveAll(vols, targets, cs)
    decreases |targets|
  {
    if targets != [] {
      RemovalOnlyRemoves(Removed(vols, targets[0], cs[0]), targets[1..], cs[1..], v);
      assert targets == [targets[0]] + targets[1..];
    }
  }

  /** A remove plan all of whose tasks replied 0 leaves none of its targets and everything else as it was. */
  lemma {:induction false} FinishedPlanRemovesAll(vols: Volumes, targets: seq<Volume>, cs: seq<Command>, v: Volume)
    requires |cs| == |targets| && (forall i :: 0 <= i < |cs| ==> Honest(cs[i])) && AllReplyZero(vols, targets, cs)
    ensures var after := RemoveAll(vols, targets, cs);
      v in after <==> v in vols && v !in targets
    decreases |targets|
  {
    if targets != [] {
      var next := Removed(vols, targets[0], cs[0]);
      RemovedMeansGone(vols, targets[0], cs[0], cs[0]);
      FinishedPlanRemovesAll(next, targets[1..], cs[1..], v);
      assert targets == [targets[0]] + targets[1..];
    }
  }
}
