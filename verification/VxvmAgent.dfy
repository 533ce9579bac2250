/** The create and delete command chains of the VxVM snapshot agent and its presence query, over the records of
    one disk group. The behaviour of the commands is what the agent's accepted exit codes say about them. */
module VxvmAgent {
  import opened Seqs
  import opened SnapshotNames

  datatype Cache = Cache(volume: string, started: bool)

  /** `associated` turns false once the snapshot has been dissociated from its volume. */
  datatype Snapshot = Snapshot(cache: string, associated: bool)

  datatype DiskGroup = DiskGroup(volumes: set<string>, caches: map<string, Cache>, snapshots: map<string, Snapshot>)

  datatype Command =
    | MakeVolume(volume: string)
    | MakeCache(cache: string, volume: string)
    | PollOpen(volume: string)
    | StartCache(cache: string)
    | MakeSnapshot(snapshot: string, cache: string)
    | Dissociate(snapshot: string)
    | RemoveSnapshot(snapshot: string)
    | StopCache(cache: string)
    | RemoveCache(cache: string)

  datatype Step = Step(command: Command, good: set<int>)

  /** The outside world of one agent run: the n-th command may be refused with some exit code, the n-th poll may
      find the volume closed, and the clock allows so many polls. */
  datatype Env = Env(refusal: nat -> int, closed: nat -> bool, maxPolls: nat)

  const DOCUMENTED: set<int> := {0, 2, 11, 12, 20, 25, 26}

  ghost predicate Honest(env: Env) {
    forall n :: env.refusal(n) == 0 || env.refusal(n) !in DOCUMENTED
  }

  ghost predicate Cooperative(env: Env) {
    forall n :: env.refusal(n) == 0
  }

  function Done(group: DiskGroup, refusal: int, after: DiskGroup): (DiskGroup, int) {
    if refusal != 0 then (group, refusal) else (after, 0)
  }

  function Exec(command: Command, g: DiskGroup, refusal: int): (DiskGroup, int) {
    match command
    case MakeVolume(volume) =>
      if volume in g.volumes then (g, 12)
      else Done(g, refusal, g.(volumes := g.volumes + {volume}))
    case MakeCache(cache, volume) =>
      if cache in g.caches then (g, 12)
      else if volume !in g.volumes then (g, 1)
      else Done(g, refusal, g.(caches := g.caches[cache := Cache(volume, false)]))
    case PollOpen(volume) => (g, refusal)
    case StartCache(cache) =>
      if cache !in g.caches then (g, 11)
      else if g.caches[cache].started then (g, 25)
      else Done(g, refusal, g.(caches := g.caches[cache := g.caches[cache].(started := true)]))
    case MakeSnapshot(snapshot, cache) =>
      if snapshot in g.snapshots || cache !in g.caches || !g.caches[cache].started then (g, 1)
      else Done(g, refusal, g.(snapshots := g.snapshots[snapshot := Snapshot(cache, true)]))
    case Dissociate(snapshot) =>
      if snapshot !in g.snapshots then (g, 2)
      else if !g.snapshots[snapshot].associated then (g, 20)
      else Done(g, refusal, g.(snapshots := g.snapshots[snapshot := g.snapshots[snapshot].(associated := false)]))
    case RemoveSnapshot(snapshot) =>
      if snapshot !in g.snapshots then (g, 11)
      else if g.snapshots[snapshot].associated then (g, 1)
      else Done(g, refusal, g.(snapshots := g.snapshots - {snapshot}))
    case StopCache(cache) =>
      if cache !in g.caches then (g, 11)
      else if !g.caches[cache].started then (g, 26)
      else if exists s :: s in g.snapshots && g.snapshots[s].cache == cache then (g, 1)
      else Done(g, refusal, g.(caches := g.caches[cache := g.caches[cache].(started := false)]))
    case RemoveCache(cache) =>
      if cache !in g.caches then (g, 11)
      else if g.caches[cache].started then (g, 1)
      else Done(g, refusal, g.(caches := g.caches - {cache}, volumes := g.volumes - {g.caches[cache].volume}))
  }

  /** How a run ended: killed before its next command, or with a reply. */
  datatype Ending = Killed | Stopped(status: int) | Completed(status: int)

  datatype Run = Run(group: DiskGroup, executed: nat, ending: Ending)

  /** Commands in order until one exits with a code its step does not accept, or the run is killed at `limit`. */
  function Chain(g: DiskGroup, steps: seq<Step>, env: Env, n: nat, limit: nat, status: int): Run
    decreases |steps|
  {
    if steps == [] then Run(g, n, Completed(status))
    else if n >= limit then Run(g, n, Killed)
    else
      var (after, code) := Exec(steps[0].command, g, env.refusal(n));
      if code in steps[0].good then Chain(after, steps[1..], env, n + 1, limit, code)
      else Run(after, n + 1, Stopped(code))
  }

  /** Polls until the volume is found closed, the clock runs out or the run is killed; nothing changes meanwhile. */
  function Polls(env: Env, n: nat, limit: nat, polls: nat): (nat, Option<bool>)
    decreases env.maxPolls - polls
  {
    if polls >= env.maxPolls then (n, Some(false))
    else if n >= limit then (n, None)
    else if env.closed(n) then (n + 1, Some(true))
    else Polls(env, n + 1, limit, polls + 1)
  }

  function MakeCacheStep(snapshot: string): Step {
    Step(MakeCache(CacheObject(snapshot), CacheVolume(snapshot)), {0, 12})
  }

  function FinalSteps(snapshot: string): seq<Step> {
    [Step(StartCache(CacheObject(snapshot)), {0, 25}), Step(MakeSnapshot(snapshot, CacheObject(snapshot)), {0})]
  }

  function DeleteSteps(snapshot: string): seq<Step> {
    [Step(Dissociate(snapshot), {0, 2, 20}),
     Step(RemoveSnapshot(snapshot), {0, 11}),
     Step(StopCache(CacheObject(snapshot)), {0, 11, 26}),
     Step(RemoveCache(CacheObject(snapshot)), {0, 11})]
  }

  /** Making the cache object: one attempt, and a second one if polling finds the cache volume closed. */
  function MakeCacheWithRetry(g: DiskGroup, snapshot: string, env: Env, n: nat, limit: nat): Run {
    var first := Chain(g, [MakeCacheStep(snapshot)], env, n, limit, 0);
    if !first.ending.Stopped? then first
    else
      var (m, closed) := Polls(env, first.executed, limit, 0);
      match closed
      case None => Run(first.group, m, Killed)
      case Some(false) => Run(first.group, m, Stopped(1))
      case Some(true) => Chain(first.group, [MakeCacheStep(snapshot)], env, m, limit, 0)
  }

  function Create(g: DiskGroup, snapshot: string, env: Env, limit: nat): Run {
    var a := Chain(g, [Step(MakeVolume(CacheVolume(snapshot)), {0, 12})], env, 0, limit, 0);
    if !a.ending.Completed? then a
    else
      var b := MakeCacheWithRetry(a.group, snapshot, env, a.executed, limit);
      if !b.ending.Completed? then b
      else Chain(b.group, FinalSteps(snapshot), env, b.executed, limit, 0)
  }

  /** A chain that runs to its end replies 0 whatever its last accepted code was. */
  function Delete(g: DiskGroup, snapshot: string, env: Env, limit: nat): Run {
    var r := Chain(g, DeleteSteps(snapshot), env, 0, limit, 0);
    if r.ending.Completed? then r.(ending := Completed(0)) else r
  }

  predicate Replies(run: Run, status: int) {
    !run.ending.Killed? && run.ending.status == status
  }

  // ---------------------------------------------------------------- the agent

  class Agent {
    var group: DiskGroup
    var executed: nat
    const env: Env
    const limit: nat

    constructor (group: DiskGroup, env: Env, limit: nat)
      ensures this.group == group && this.executed == 0 && this.env == env && this.limit == limit
    {
      this.group, this.executed, this.env, this.limit := group, 0, env, limit;
    }

    /** Runs one command, unless the process is killed first. */
    method RunCommand(command: Command) returns (alive: bool, code: int)
      modifies this
      ensures alive == (old(executed) < limit)
      ensures !alive ==> group == old(group) && executed == old(executed)
      ensures alive ==> executed == old(executed) + 1
      ensures alive ==> (group, code) == Exec(command, old(group), env.refusal(old(executed)))
    {
      alive, code := executed < limit, 0;
      if alive {
        var result := Exec(command, group, env.refusal(executed));
        group, code := result.0, result.1;
        executed := executed + 1;
      }
    }

    method RunSteps(steps: seq<Step>) returns (ending: Ending)
      modifies this
      ensures Run(group, executed, ending) == Chain(old(group), steps, env, old(executed), limit, 0)
    {
      var status := 0;
      for i := 0 to |steps|
        invariant Chain(old(group), steps, env, old(executed), limit, 0)
          == Chain(group, steps[i..], env, executed, limit, status)
      {
        var alive, code := RunCommand(steps[i].command);
        assert steps[i..][1..] == steps[i + 1..];
        if !alive {
          return Killed;
        }
        if code !in steps[i].good {
          return Stopped(code);
        }
        status := code;
      }
      return Completed(status);
    }

    method WaitUntilClosed(volume: string) returns (alive: bool, free: bool)
      modifies this
      ensures group == old(group)
      ensures Polls(env, old(executed), limit, 0) == (executed, if alive then Some(free) else None)
    {
      var polls := 0;
      while polls < env.maxPolls
        invariant 0 <= polls && group == old(group)
        invariant Polls(env, old(executed), limit, 0) == Polls(env, executed, limit, polls)
      {
        var n := executed;
        var code;
        alive, code := RunCommand(PollOpen(volume));
        if !alive {
          return alive, false;
        }
        if env.closed(n) {
          return true, true;
        }
        polls := polls + 1;
      }
      return true, false;
    }

    method CreateSnapshot(snapshot: string) returns (ending: Ending)
      requires executed == 0
      modifies this
      ensures Run(group, executed, ending) == Create(old(group), snapshot, env, limit)
    {
      ending := RunSteps([Step(MakeVolume(CacheVolume(snapshot)), {0, 12})]);
      if !ending.Completed? {
        return;
      }
      ending := RunSteps([MakeCacheStep(snapshot)]);
      if ending.Killed? {
        return;
      }
      if ending.Stopped? {
        var alive, free := WaitUntilClosed(CacheVolume(snapshot));
        if !alive {
          return Killed;
        }
        if !free {
          return Stopped(1);
        }
        ending := RunSteps([MakeCacheStep(snapshot)]);
        if !ending.Completed? {
          return;
        }
      }
      ending := RunSteps(FinalSteps(snapshot));
    }

    method DeleteSnapshot(snapshot: string) returns (ending: Ending)
      requires executed == 0
      modifies this
      ensures Run(group, executed, ending) == Delete(old(group), snapshot, env, limit)
    {
      ending := RunSteps(DeleteSteps(snapshot));
      if ending.Completed? {
        ending := Completed(0);
      }
    }
  }

  // ---------------------------------------------------------------- what every command keeps

  /** The group's caches and snapshots are the ones this agent makes: a cache object stands on its own cache
      volume, and a snapshot, dissociated or not, stands on its own started cache object. */
  ghost predicate Tidy(g: DiskGroup) {
    && (forall c :: c in g.caches ==>
          "LO" <= c && g.caches[c].volume == ['L', 'V'] + c[2..] && g.caches[c].volume in g.volumes)
    && (forall s :: s in g.snapshots ==>
          && "L_" <= s && g.snapshots[s].cache == CacheObject(s)
          && CacheObject(s) in g.caches && g.caches[CacheObject(s)].started)
  }

  predicate OwnCommand(command: Command, snapshot: string) {
    match command
    case MakeVolume(v) => v == CacheVolume(snapshot)
    case MakeCache(c, v) => c == CacheObject(snapshot) && v == CacheVolume(snapshot)
    case PollOpen(_) => true
    case StartCache(c) => c == CacheObject(snapshot)
    case MakeSnapshot(s, c) => s == snapshot && c == CacheObject(snapshot)
    case Dissociate(s) => s == snapshot
    case RemoveSnapshot(s) => s == snapshot
    case StopCache(c) => c == CacheObject(snapshot)
    case RemoveCache(c) => c == CacheObject(snapshot)
  }

  /** The records of every other snapshot are as they were. */
  ghost predicate OthersKept(before: DiskGroup, after: DiskGroup, snapshot: string) {
    && after.volumes - {CacheVolume(snapshot)} == before.volumes - {CacheVolume(snapshot)}
    && after.caches - {CacheObject(snapshot)} == before.caches - {CacheObject(snapshot)}
    && after.snapshots - {snapshot} == before.snapshots - {snapshot}
  }

  lemma {:induction false} CommandKeepsTidy(command: Command, g: DiskGroup, snapshot: string, refusal: int)
    requires Tidy(g) && "L_" <= snapshot && OwnCommand(command, snapshot)
    ensures Tidy(Exec(command, g, refusal).0)
  {
    var after := Exec(command, g, refusal).0;
    assert "LO" <= CacheObject(snapshot) && CacheObject(snapshot)[2..] == snapshot[2..];
    forall s | s in g.snapshots && s != snapshot ensures CacheObject(s) != CacheObject(snapshot) {
      CacheNamesInjective(s, snapshot);
    }
    if command.RemoveCache? && after != g {
      forall c | c in after.caches ensures g.caches[c].volume != CacheVolume(snapshot) {
        assert c[..2] == "LO" && c == ['L', 'O'] + c[2..] && c != CacheObject(snapshot);
        assert g.caches[c].volume[2..] == c[2..] && CacheVolume(snapshot)[2..] == snapshot[2..];
      }
    }
  }

  lemma {:induction false} RemoveCacheKeepsOthers(g: DiskGroup, snapshot: string, refusal: int)
    requires Tidy(g) && "L_" <= snapshot
    ensures OthersKept(g, Exec(RemoveCache(CacheObject(snapshot)), g, refusal).0, snapshot)
  {
    if CacheObject(snapshot) in g.caches {
      assert CacheObject(snapshot)[2..] == snapshot[2..];
      assert g.caches[CacheObject(snapshot)].volume == CacheVolume(snapshot);
    }
  }

  lemma {:induction false} CacheCommandKeepsOthers(command: Command, g: DiskGroup, snapshot: string, refusal: int)
    requires OwnCommand(command, snapshot) && (command.MakeCache? || command.StartCache? || command.StopCache?)
    ensures OthersKept(g, Exec(command, g, refusal).0, snapshot)
  {
    var co, after := CacheObject(snapshot), Exec(command, g, refusal).0;
    assert after.volumes == g.volumes && after.snapshots == g.snapshots;
    assert after.caches - {co} == g.caches - {co};
  }

  lemma {:induction false} SnapshotCommandKeepsOthers(command: Command, g: DiskGroup, snapshot: string, refusal: int)
    requires OwnCommand(command, snapshot) && (command.MakeSnapshot? || command.Dissociate? || command.RemoveSnapshot?)
    ensures OthersKept(g, Exec(command, g, refusal).0, snapshot)
  {
    var after := Exec(command, g, refusal).0;
    assert after.volumes == g.volumes && after.caches == g.caches;
    assert after.snapshots - {snapshot} == g.snapshots - {snapshot};
  }

  lemma {:induction false} CommandKeepsOthers(command: Command, g: DiskGroup, snapshot: string, refusal: int)
    requires Tidy(g) && "L_" <= snapshot && OwnCommand(command, snapshot)
    ensures OthersKept(g, Exec(command, g, refusal).0, snapshot)
  {
    if command.RemoveCache? {
      RemoveCacheKeepsOthers(g, snapshot, refusal);
    } else if command.MakeCache? || command.StartCache? || command.StopCache? {
      CacheCommandKeepsOthers(command, g, snapshot, refusal);
    } else if command.MakeSnapshot? || command.Dissociate? || command.RemoveSnapshot? {
      SnapshotCommandKeepsOthers(command, g, snapshot, refusal);
    }
  }

  lemma {:induction false} ChainKeepsTidy(g: DiskGroup, steps: seq<Step>, env: Env, n: nat, limit: nat, status: int,
      snapshot: string)
    requires Tidy(g) && "L_" <= snapshot
    requires forall i :: 0 <= i < |steps| ==> OwnCommand(steps[i].command, snapshot)
    ensures Tidy(Chain(g, steps, env, n, limit, status).group)
    ensures OthersKept(g, Chain(g, steps, env, n, limit, status).group, snapshot)
    decreases |steps|
  {
    if steps != [] && n < limit {
      var result := Exec(steps[0].command, g, env.refusal(n));
      CommandKeepsTidy(steps[0].command, g, snapshot, env.refusal(n));
      CommandKeepsOthers(steps[0].command, g, snapshot, env.refusal(n));
      if result.1 in steps[0].good {
        ChainKeepsTidy(result.0, steps[1..], env, n + 1, limit, result.1, snapshot);
      }
    }
  }

  lemma {:induction false} CacheStepsKeepTidy(g: DiskGroup, snapshot: string, env: Env, n: nat, limit: nat)
    requires Tidy(g) && "L_" <= snapshot
    ensures Tidy(MakeCacheWithRetry(g, snapshot, env, n, limit).group)
    ensures OthersKept(g, MakeCacheWithRetry(g, snapshot, env, n, limit).group, snapshot)
  {
    ChainKeepsTidy(g, [MakeCacheStep(snapshot)], env, n, limit, 0, snapshot);
    var first := Chain(g, [MakeCacheStep(snapshot)], env, n, limit, 0);
    ChainKeepsTidy(first.group, [MakeCacheStep(snapshot)], env, Polls(env, first.executed, limit, 0).0, limit, 0,
                   snapshot);
  }

  /** Whenever a run is killed or refused, the group stays tidy and other snapshots keep their records. */
  lemma {:induction false} CreateKeepsTidy(g: DiskGroup, snapshot: string, env: Env, limit: nat)
    requires Tidy(g) && "L_" <= snapshot
    ensures Tidy(Create(g, snapshot, env, limit).group)
    ensures OthersKept(g, Create(g, snapshot, env, limit).group, snapshot)
  {
    var makeVolume := [Step(MakeVolume(CacheVolume(snapshot)), {0, 12})];
    ChainKeepsTidy(g, makeVolume, env, 0, limit, 0, snapshot);
    var a := Chain(g, makeVolume, env, 0, limit, 0);
    if a.ending.Completed? {
      CacheStepsKeepTidy(a.group, snapshot, env, a.executed, limit);
      var b := MakeCacheWithRetry(a.group, snapshot, env, a.executed, limit);
      if b.ending.Completed? {
        ChainKeepsTidy(b.group, FinalSteps(snapshot), env, b.executed, limit, 0, snapshot);
      }
    }
  }

  lemma {:induction false} DeleteKeepsTidy(g: DiskGroup, snapshot: string, env: Env, limit: nat)
    requires Tidy(g) && "L_" <= snapshot
    ensures Tidy(Delete(g, snapshot, env, limit).group)
    ensures OthersKept(g, Delete(g, snapshot, env, limit).group, snapshot)
  {
    ChainKeepsTidy(g, DeleteSteps(snapshot), env, 0, limit, 0, snapshot);
  }

  // ---------------------------------------------------------------- convergence

  ghost predicate Complete(g: DiskGroup, snapshot: string) {
    && snapshot in g.snapshots && g.snapshots[snapshot] == Snapshot(CacheObject(snapshot), true)
    && CacheObject(snapshot) in g.caches && g.caches[CacheObject(snapshot)] == Cache(CacheVolume(snapshot), true)
    && CacheVolume(snapshot) in g.volumes
  }

  lemma {:induction false} ChainOfOne(g: DiskGroup, step: Step, env: Env, n: nat, limit: nat, status: int)
    ensures Chain(g, [step], env, n, limit, status) ==
      if n >= limit then Run(g, n, Killed)
      else var (after, code) := Exec(step.command, g, env.refusal(n));
           Run(after, n + 1, if code in step.good then Completed(code) else Stopped(code))
  {
    assert [step][1..] == [];
  }

  lemma {:induction false} ChainOfTwo(g: DiskGroup, x: Step, y: Step, env: Env, n: nat, limit: nat, status: int)
    ensures Chain(g, [x, y], env, n, limit, status) ==
      if n >= limit then Run(g, n, Killed)
      else var (after, code) := Exec(x.command, g, env.refusal(n));
           if code in x.good then Chain(after, [y], env, n + 1, limit, code) else Run(after, n + 1, Stopped(code))
  {
    assert [x, y][1..] == [y];
  }

  /** The making of the cache object never touches the snapshot records and never replies 0 itself. */
  lemma {:induction false} CacheStepsEffect(g: DiskGroup, snapshot: string, env: Env, n: nat, limit: nat)
    requires Honest(env)
    ensures var run := MakeCacheWithRetry(g, snapshot, env, n, limit);
      run.group.snapshots == g.snapshots && run.ending != Stopped(0)
  {
    ChainOfOne(g, MakeCacheStep(snapshot), env, n, limit, 0);
    var first := Chain(g, [MakeCacheStep(snapshot)], env, n, limit, 0);
    ChainOfOne(first.group, MakeCacheStep(snapshot), env, Polls(env, first.executed, limit, 0).0, limit, 0);
  }

  /** With a cooperative world a create run ends complete and replies 0 exactly when the snapshot record is not
      there yet; otherwise it changes nothing and replies with the refusal of the last command. */
  lemma {:induction false} CreateConverges(g: DiskGroup, snapshot: string, env: Env, limit: nat)
    requires Tidy(g) && "L_" <= snapshot && Cooperative(env) && limit >= 4
    ensures var run := Create(g, snapshot, env, limit);
      && (Replies(run, 0) <==> snapshot !in g.snapshots)
      && (snapshot !in g.snapshots ==> Complete(run.group, snapshot))
      && (snapshot in g.snapshots ==> run.group == g && Replies(run, 1))
  {
    var co, cv := CacheObject(snapshot), CacheVolume(snapshot);
    assert co[2..] == snapshot[2..] && "LO" <= co;
    ChainOfOne(g, Step(MakeVolume(cv), {0, 12}), env, 0, limit, 0);
    var a := Exec(MakeVolume(cv), g, 0).0;
    ChainOfOne(a, MakeCacheStep(snapshot), env, 1, limit, 0);
    var b := Exec(MakeCache(co, cv), a, 0).0;
    var (c, cc) := Exec(StartCache(co), b, 0);
    var start, make := Step(StartCache(co), {0, 25}), Step(MakeSnapshot(snapshot, co), {0});
    ChainOfTwo(b, start, make, env, 2, limit, 0);
    ChainOfOne(c, make, env, 3, limit, cc);
    assert Create(g, snapshot, env, limit) == Chain(b, [start, make], env, 2, limit, 0);
  }

  /** Whatever the world does, a create run replies 0 exactly when it made the snapshot record. */
  lemma {:induction false} CreateReplyMeansMade(g: DiskGroup, snapshot: string, env: Env, limit: nat)
    requires Tidy(g) && "L_" <= snapshot && Honest(env)
    ensures var run := Create(g, snapshot, env, limit);
      Replies(run, 0) <==> snapshot in run.group.snapshots && snapshot !in g.snapshots
    ensures Replies(Create(g, snapshot, env, limit), 0) ==> Complete(Create(g, snapshot, env, limit).group, snapshot)
  {
    CreateKeepsTidy(g, snapshot, env, limit);
    ChainOfOne(g, Step(MakeVolume(CacheVolume(snapshot)), {0, 12}), env, 0, limit, 0);
    var a := Chain(g, [Step(MakeVolume(CacheVolume(snapshot)), {0, 12})], env, 0, limit, 0);
    if a.ending.Completed? {
      CacheStepsEffect(a.group, snapshot, env, a.executed, limit);
      var b := MakeCacheWithRetry(a.group, snapshot, env, a.executed, limit);
      if b.ending.Completed? {
        FinalStepsEffect(b.group, snapshot, env, b.executed, limit);
        assert CacheObject(snapshot)[2..] == snapshot[2..];
      }
    }
  }

  lemma {:induction false} FinalStepsEffect(g: DiskGroup, snapshot: string, env: Env, n: nat, limit: nat)
    requires Honest(env)
    ensures var run := Chain(g, FinalSteps(snapshot), env, n, limit, 0);
      && (Replies(run, 0) <==> snapshot in run.group.snapshots && snapshot !in g.snapshots)
      && (Replies(run, 0) ==> run.group.snapshots[snapshot] == Snapshot(CacheObject(snapshot), true))
      && (snapshot in g.snapshots ==> run.group.snapshots == g.snapshots)
  {
    var start := Step(StartCache(CacheObject(snapshot)), {0, 25});
    var make := Step(MakeSnapshot(snapshot, CacheObject(snapshot)), {0});
    ChainOfTwo(g, start, make, env, n, limit, 0);
    var (after, code) := Exec(start.command, g, env.refusal(n));
    ChainOfOne(after, make, env, n + 1, limit, code);
  }

  /** The records of the snapshot are gone; its cache volume goes with the cache object that stood on it. */
  function Deleted(g: DiskGroup, snapshot: string): DiskGroup {
    DiskGroup(
      if CacheObject(snapshot) in g.caches then g.volumes - {CacheVolume(snapshot)} else g.volumes,
      g.caches - {CacheObject(snapshot)},
      g.snapshots - {snapshot})
  }

  lemma {:induction false} ChainContinues(g: DiskGroup, step: Step, rest: seq<Step>, env: Env, n: nat, limit: nat,
      status: int)
    requires Cooperative(env) && n < limit && Exec(step.command, g, 0).1 in step.good
    ensures var (after, code) := Exec(step.command, g, 0);
      Chain(g, [step] + rest, env, n, limit, status) == Chain(after, rest, env, n + 1, limit, code)
  {
    assert ([step] + rest)[1..] == rest;
  }

  /** First half of a removal: the snapshot record goes, from whatever state it was in. */
  lemma {:induction false} SnapshotGoes(g: DiskGroup, snapshot: string)
    requires Tidy(g)
    ensures var (a, ca) := Exec(Dissociate(snapshot), g, 0);
      var (b, cb) := Exec(RemoveSnapshot(snapshot), a, 0);
      ca in {0, 2, 20} && cb in {0, 11} && b == g.(snapshots := g.snapshots - {snapshot})
  {
    var a := Exec(Dissociate(snapshot), g, 0).0;
    assert a.snapshots - {snapshot} == g.snapshots - {snapshot};
    if snapshot !in g.snapshots {
      assert g.snapshots - {snapshot} == g.snapshots;
    }
  }

  /** Second half: with no snapshot on it the cache object goes, and its volume with it. */
  lemma {:induction false} CacheGoes(g: DiskGroup, snapshot: string)
    requires Tidy(g) && "L_" <= snapshot && snapshot !in g.snapshots
    ensures var (c, cc) := Exec(StopCache(CacheObject(snapshot)), g, 0);
      var (d, cd) := Exec(RemoveCache(CacheObject(snapshot)), c, 0);
      cc in {0, 11, 26} && cd in {0, 11} && d == Deleted(g, snapshot)
  {
    var co := CacheObject(snapshot);
    assert co[2..] == snapshot[2..];
    forall s | s in g.snapshots ensures g.snapshots[s].cache != co {
      CacheNamesInjective(s, snapshot);
    }
    assert g.snapshots - {snapshot} == g.snapshots;
    var c := Exec(StopCache(co), g, 0).0;
    assert c.caches - {co} == g.caches - {co};
    if co !in g.caches {
      assert g.caches - {co} == g.caches;
    }
  }

  /** With a cooperative world a delete run from any partial state removes snapshot and cache object and replies 0. */
  lemma {:induction false} DeleteConverges(g: DiskGroup, snapshot: string, env: Env, limit: nat)
    requires Tidy(g) && "L_" <= snapshot && Cooperative(env) && limit >= 4
    ensures Delete(g, snapshot, env, limit) == Run(Deleted(g, snapshot), 4, Completed(0))
  {
    var s0 := Step(Dissociate(snapshot), {0, 2, 20});
    var s1 := Step(RemoveSnapshot(snapshot), {0, 11});
    var s2 := Step(StopCache(CacheObject(snapshot)), {0, 11, 26});
    var s3 := Step(RemoveCache(CacheObject(snapshot)), {0, 11});
    var (a, ca) := Exec(s0.command, g, 0);
    var (b, cb) := Exec(s1.command, a, 0);
    var (c, cc) := Exec(s2.command, b, 0);
    var (d, cd) := Exec(s3.command, c, 0);
    SnapshotGoes(g, snapshot);
    CommandKeepsTidy(s0.command, g, snapshot, 0);
    CommandKeepsTidy(s1.command, a, snapshot, 0);
    CacheGoes(b, snapshot);
    DeletedAfterSnapshot(g, snapshot);
    ChainContinues(g, s0, [s1, s2, s3], env, 0, limit, 0);
    ChainContinues(a, s1, [s2, s3], env, 1, limit, ca);
    ChainContinues(b, s2, [s3], env, 2, limit, cb);
    ChainOfOne(c, s3, env, 3, limit, cc);
    assert DeleteSteps(snapshot) == [s0] + [s1, s2, s3] && [s1, s2, s3] == [s1] + [s2, s3] && [s2, s3] == [s2] + [s3];
  }

  lemma {:induction false} DeletedAfterSnapshot(g: DiskGroup, snapshot: string)
    ensures Deleted(g.(snapshots := g.snapshots - {snapshot}), snapshot) == Deleted(g, snapshot)
  {
  }

  lemma {:induction false} DeleteIdempotent(g: DiskGroup, snapshot: string)
    requires Tidy(g) && "L_" <= snapshot
    ensures Tidy(Deleted(g, snapshot)) && Deleted(Deleted(g, snapshot), snapshot) == Deleted(g, snapshot)
  {
    var env := Env((n: nat) => 0, (n: nat) => true, 1);
    DeleteConverges(g, snapshot, env, 4);
    DeleteKeepsTidy(g, snapshot, env, 4);
  }

  // ---------------------------------------------------------------- whole histories

  datatype Job = CreateJob(snapshot: string, env: Env, limit: nat) | DeleteJob(snapshot: string, env: Env, limit: nat)

  function RunJob(g: DiskGroup, job: Job): Run {
    match job
    case CreateJob(s, env, limit) => Create(g, s, env, limit)
    case DeleteJob(s, env, limit) => Delete(g, s, env, limit)
  }

  /** The state after a history of runs, each of which may be refused or killed after any command. */
  function After(g: DiskGroup, jobs: seq<Job>): DiskGroup {
    if jobs == [] then g else RunJob(After(g, Front(jobs)), Last(jobs)).group
  }

  lemma {:induction false} HistoryKeepsTidy(g: DiskGroup, jobs: seq<Job>)
    requires Tidy(g) && forall i :: 0 <= i < |jobs| ==> "L_" <= jobs[i].snapshot
    ensures Tidy(After(g, jobs))
  {
    if jobs != [] {
      HistoryKeepsTidy(g, Front(jobs));
      var job := Last(jobs);
      assert "L_" <= jobs[|jobs| - 1].snapshot;
      if job.CreateJob? {
        CreateKeepsTidy(After(g, Front(jobs)), job.snapshot, job.env, job.limit);
      } else {
        DeleteKeepsTidy(After(g, Front(jobs)), job.snapshot, job.env, job.limit);
      }
    }
  }

  /** A create run never dissociates: after create runs only, an existing snapshot record is associated. */
  lemma {:induction false} CreatesLeaveAssociated(g: DiskGroup, jobs: seq<Job>, snapshot: string)
    requires Tidy(g) && snapshot !in g.snapshots && "L_" <= snapshot
    requires forall i :: 0 <= i < |jobs| ==>
      "L_" <= jobs[i].snapshot && (jobs[i].snapshot == snapshot ==> jobs[i].CreateJob? && Honest(jobs[i].env))
    ensures Tidy(After(g, jobs))
    ensures snapshot in After(g, jobs).snapshots ==> Complete(After(g, jobs), snapshot)
  {
    HistoryKeepsTidy(g, jobs);
    if jobs != [] {
      var job, before := Last(jobs), After(g, Front(jobs));
      assert job == jobs[|jobs| - 1];
      CreatesLeaveAssociated(g, Front(jobs), snapshot);
      if job.snapshot == snapshot {
        CreateReplyMeansMade(before, snapshot, job.env, job.limit);
        if snapshot in before.snapshots {
          CreateKeepsSnapshot(before, snapshot, job.env, job.limit);
        }
      } else {
        if job.CreateJob? {
          CreateKeepsTidy(before, job.snapshot, job.env, job.limit);
        } else {
          DeleteKeepsTidy(before, job.snapshot, job.env, job.limit);
        }
        assert snapshot in After(g, jobs).snapshots ==> snapshot in (After(g, jobs).snapshots - {job.snapshot});
        assert snapshot in before.snapshots ==>
          before.snapshots[snapshot] == (before.snapshots - {job.snapshot})[snapshot];
      }
      assert CacheObject(snapshot)[2..] == snapshot[2..];
    }
  }

  lemma {:induction false} CreateKeepsSnapshot(g: DiskGroup, snapshot: string, env: Env, limit: nat)
    requires snapshot in g.snapshots && Honest(env)
    ensures snapshot in Create(g, snapshot, env, limit).group.snapshots
    ensures Create(g, snapshot, env, limit).group.snapshots[snapshot] == g.snapshots[snapshot]
  {
    ChainOfOne(g, Step(MakeVolume(CacheVolume(snapshot)), {0, 12}), env, 0, limit, 0);
    var a := Chain(g, [Step(MakeVolume(CacheVolume(snapshot)), {0, 12})], env, 0, limit, 0);
    CacheStepsEffect(a.group, snapshot, env, a.executed, limit);
    var b := MakeCacheWithRetry(a.group, snapshot, env, a.executed, limit);
    FinalStepsEffect(b.group, snapshot, env, b.executed, limit);
  }

  /** Crash and retry: after any number of interrupted create runs of a snapshot, with any runs for other
      snapshots in between, one undisturbed create run leaves it complete. */
  lemma {:induction false} RetryCompletes(g: DiskGroup, jobs: seq<Job>, snapshot: string, env: Env, limit: nat)
    requires Tidy(g) && snapshot !in g.snapshots && "L_" <= snapshot && Cooperative(env) && limit >= 4
    requires forall i :: 0 <= i < |jobs| ==>
      "L_" <= jobs[i].snapshot && (jobs[i].snapshot == snapshot ==> jobs[i].CreateJob? && Honest(jobs[i].env))
    ensures Complete(Create(After(g, jobs), snapshot, env, limit).group, snapshot)
  {
    CreatesLeaveAssociated(g, jobs, snapshot);
    CreateConverges(After(g, jobs), snapshot, env, limit);
  }

  /** After any history at all, one undisturbed delete run followed by one undisturbed create run replies 0 twice
      and leaves the snapshot complete; the create absorbs a cache volume the delete left behind. */
  lemma {:induction false} DeleteThenCreate(g: DiskGroup, jobs: seq<Job>, snapshot: string, env: Env, limit: nat)
    requires Tidy(g) && "L_" <= snapshot && Cooperative(env) && limit >= 4
    requires forall i :: 0 <= i < |jobs| ==> "L_" <= jobs[i].snapshot
    ensures var deleted := Delete(After(g, jobs), snapshot, env, limit);
      && Replies(deleted, 0)
      && var created := Create(deleted.group, snapshot, env, limit);
      && Replies(created, 0) && Complete(created.group, snapshot)
  {
    HistoryKeepsTidy(g, jobs);
    DeleteConverges(After(g, jobs), snapshot, env, limit);
    DeleteKeepsTidy(After(g, jobs), snapshot, env, limit);
    CreateConverges(Deleted(After(g, jobs), snapshot), snapshot, env, limit);
  }

  /** A delete run killed between dissociating and removing leaves a record that no create run gets past. */
  lemma {:induction false} InterruptedDeleteBlocksCreate(g: DiskGroup, snapshot: string, env: Env, limit: nat)
    requires Tidy(g) && "L_" <= snapshot && Complete(g, snapshot) && Cooperative(env) && limit >= 4
    ensures var partial := Delete(g, snapshot, env, 1).group;
      && snapshot in partial.snapshots && !partial.snapshots[snapshot].associated
      && var run := Create(partial, snapshot, env, limit); !Replies(run, 0) && run.group == partial
  {
    var steps := DeleteSteps(snapshot);
    assert Chain(g, steps, env, 0, 1, 0) == Chain(Exec(Dissociate(snapshot), g, 0).0, steps[1..], env, 1, 1, 0);
    DeleteKeepsTidy(g, snapshot, env, 1);
    CreateConverges(Delete(g, snapshot, env, 1).group, snapshot, env, limit);
  }

  // ---------------------------------------------------------------- presence

  /** What the presence query answers: each record is looked up by a grep for lines that start with its name. */
  predicate ReportsPresent(g: DiskGroup, snapshot: string, checkForCache: bool) {
    || (exists s :: s in g.snapshots && snapshot <= s && g.snapshots[s].associated)
    || (checkForCache && (
          || (exists v :: v in g.volumes && CacheVolume(snapshot) <= v)
          || (exists c :: c in g.caches && CacheObject(snapshot) <= c)))
  }

  predicate HasTrace(g: DiskGroup, snapshot: string) {
    snapshot in g.snapshots || CacheObject(snapshot) in g.caches || CacheVolume(snapshot) in g.volumes
  }

  /** No record belongs to a snapshot whose name properly extends this one. */
  ghost predicate NoLongerName(g: DiskGroup, snapshot: string) {
    && (forall s :: s in g.snapshots && snapshot <= s ==> s == snapshot)
    && (forall v :: v in g.volumes && CacheVolume(snapshot) <= v ==> v == CacheVolume(snapshot))
    && (forall c :: c in g.caches && CacheObject(snapshot) <= c ==> c == CacheObject(snapshot))
  }

  /** With the cache check on, every partial state is seen, and nothing else unless a longer name is around. */
  lemma {:induction false} PresenceSeesEveryTrace(g: DiskGroup, snapshot: string)
    requires Tidy(g) && "L_" <= snapshot
    ensures HasTrace(g, snapshot) ==> ReportsPresent(g, snapshot, true)
    ensures NoLongerName(g, snapshot) ==> (ReportsPresent(g, snapshot, true) <==> HasTrace(g, snapshot))
    ensures NoLongerName(g, snapshot) ==>
      (ReportsPresent(g, snapshot, false) <==> snapshot in g.snapshots && g.snapshots[snapshot].associated)
  {
    if CacheObject(snapshot) in g.caches || snapshot in g.snapshots {
      assert CacheObject(snapshot) <= CacheObject(snapshot);
    }
    if CacheVolume(snapshot) in g.volumes {
      assert CacheVolume(snapshot) <= CacheVolume(snapshot);
    }
  }

  /** The query is wrong about a snapshot without any record exactly when a longer name has a record it greps for. */
  lemma {:induction false} FalsePresence(g: DiskGroup, snapshot: string)
    requires Tidy(g) && "L_" <= snapshot && !HasTrace(g, snapshot)
    ensures ReportsPresent(g, snapshot, true) <==> !NoLongerName(g, snapshot)
  {
    if s :| s in g.snapshots && snapshot <= s && s != snapshot {
      assert CacheObject(snapshot) <= CacheObject(s);
    }
  }

  /** So a named snapshot of a volume makes its deployment snapshot look present. */
  lemma {:induction false} NamedSnapshotLooksLikeDeployment(g: DiskGroup, volume: string, tag: string)
    requires Tidy(g) && Complete(g, GenSnapshotName(volume, tag))
    ensures ReportsPresent(g, GenSnapshotName(volume, UPGRADE_SNAPSHOT_NAME), false)
  {
    DeploymentNameIsPrefix(volume, tag);
  }

  lemma {:induction false} LongerNamesStay(g: DiskGroup, snapshot: string)
    ensures NoLongerName(Deleted(g, snapshot), snapshot) <==> NoLongerName(g, snapshot)
  {
    var after := Deleted(g, snapshot);
    assert forall s :: s != snapshot ==> (s in after.snapshots <==> s in g.snapshots);
    assert forall c :: c != CacheObject(snapshot) ==> (c in after.caches <==> c in g.caches);
    assert forall v :: v != CacheVolume(snapshot) ==> (v in after.volumes <==> v in g.volumes);
  }

  /** After an undisturbed delete run the query with the cache check on turns to absent, except exactly when a cache
      volume without a cache object is left over or a longer name has a record. */
  lemma {:induction false} AbsentAfterDelete(g: DiskGroup, snapshot: string)
    requires Tidy(g) && "L_" <= snapshot
    ensures ReportsPresent(Deleted(g, snapshot), snapshot, true) <==>
      (CacheVolume(snapshot) in g.volumes && CacheObject(snapshot) !in g.caches) || !NoLongerName(g, snapshot)
  {
    var after := Deleted(g, snapshot);
    DeleteIdempotent(g, snapshot);
    PresenceSeesEveryTrace(after, snapshot);
    LongerNamesStay(g, snapshot);
    if !HasTrace(after, snapshot) {
      FalsePresence(after, snapshot);
    }
  }
}
