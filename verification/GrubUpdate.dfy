/** The grub update of one node: back up every grub file there is, edit each in turn, and on any failure put
    the backups back. Commands are environment steps: each has an exit code, and a failing command may leave
    anything in the one file it writes. The commands of the rollback itself are taken to succeed. */
module GrubUpdate {
  import opened Seqs
  import opened GrubRewrite

  datatype File = DefaultGrub | VxdmpScript | RackGrub | GrubCfg

  /** The order in which the files are visited: both edited files come before both generated ones. */
  const FILES := [DefaultGrub, VxdmpScript, RackGrub, GrubCfg]

  type Content = seq<string>
  type Tree = map<File, Content>

  predicate Generated(file: File) {
    file == RackGrub || file == GrubCfg
  }

  /** How the commands behave: exit codes, what a failing command leaves behind, and what grub2-mkconfig
      writes for a target given all the files it may read. */
  datatype Commands = Commands(
    backupExit: File -> int,
    halfBackup: File -> Option<Content>,
    editExit: File -> int,
    halfEdit: File -> Option<Content>,
    mkconfig: (File, Tree) -> Content)

  function Put(tree: Tree, file: File, content: Option<Content>): Tree {
    match content
    case None => tree - {file}
    case Some(c) => tree[file := c]
  }

  // ---------------------------------------------------------------- what the update amounts to

  predicate BackupsWork(env: Commands, files: Tree) {
    forall f :: f in files ==> env.backupExit(f) == 0
  }

  predicate EditsWork(env: Commands, files: Tree) {
    forall f :: f in files ==> env.editExit(f) == 0
  }

  /** The files with the text rewrite applied to the edited ones. */
  function Rewritten(files: Tree, names: string): Tree {
    map f | f in files :: if Generated(f) then files[f] else SedFile(files[f], names)
  }

  function Regenerate(env: Commands, files: Tree, target: File): Tree {
    if target in files then files[target := env.mkconfig(target, files)] else files
  }

  /** Every file edited once; what is generated is generated from the rewritten files. */
  function Updated(env: Commands, files: Tree, names: string): Tree {
    Regenerate(env, Regenerate(env, Rewritten(files, names), RackGrub), GrubCfg)
  }

  /** The files after the rollback: the original ones, and whatever an old backup of an absent file held. */
  function RolledBack(files: Tree, backups: Tree): Tree {
    backups + files
  }

  /** A file's place in the order of visits. */
  function Rank(file: File): (r: nat)
    ensures r < |FILES| && FILES[r] == file
  {
    match file
    case DefaultGrub => 0
    case VxdmpScript => 1
    case RackGrub => 2
    case GrubCfg => 3
  }

  predicate WorksBefore(exit: File -> int, files: Tree, n: nat) {
    forall f :: f in files && Rank(f) < n ==> exit(f) == 0
  }

  predicate AnyBefore(files: Tree, n: nat) {
    exists f :: f in files && Rank(f) < n
  }

  lemma {:induction false} CoveredByBackups(files: Tree, backups: Tree)
    ensures files.Keys <= backups.Keys ==> files + backups == backups
  {
  }

  /** The status of the first command that fails, in the order of visits. */
  predicate FirstFailure(exit: File -> int, files: Tree, status: int) {
    exists f :: f in files && exit(f) == status != 0 && WorksBefore(exit, files, Rank(f))
  }

  // ---------------------------------------------------------------- the agent

  class GrubAgent {
    const env: Commands
    var files: Tree
    var backups: Tree
    var status: int

    constructor (env: Commands, files: Tree, backups: Tree)
      ensures this.env == env && this.files == files && this.backups == backups && status == 0
    {
      this.env := env;
      this.files := files;
      this.backups := backups;
      status := 0;
    }

    method BackUp(file: File) returns (exit: int)
      requires file in files
      modifies this`backups
      ensures exit == env.backupExit(file)
      ensures exit == 0 ==> backups == old(backups)[file := files[file]]
      ensures exit != 0 ==> backups == Put(old(backups), file, env.halfBackup(file))
    {
      exit := env.backupExit(file);
      backups := if exit == 0 then backups[file := files[file]] else Put(backups, file, env.halfBackup(file));
    }

    method RestoreBackups()
      modifies this`files, this`backups
      ensures backups == map[]
      ensures files == old(files) + old(backups)
    {
      var i := 0;
      while i < |FILES|
        invariant 0 <= i <= |FILES|
        invariant files + backups == old(files) + old(backups)
        invariant forall f :: f in backups ==> Rank(f) >= i
      {
        var file := FILES[i];
        assert Rank(file) == i;
        if file in backups {
          files := files[file := backups[file]];
          backups := backups - {file};
        }
        i := i + 1;
      }
    }

    method RemoveBackups()
      modifies this`backups
      ensures backups == map[]
    {
      var i := 0;
      while i < |FILES|
        invariant 0 <= i <= |FILES|
        invariant forall f :: f in backups ==> Rank(f) >= i
      {
        if FILES[i] in backups {
          backups := backups - {FILES[i]};
        }
        i := i + 1;
      }
    }

    method Edit(file: File, names: string) returns (exit: int)
      requires file in files
      modifies this`files
      ensures exit == env.editExit(file)
      ensures exit == 0 ==> files == EditStep(env, old(files), names, file)
      ensures exit != 0 ==> files == Put(old(files), file, env.halfEdit(file))
    {
      exit := env.editExit(file);
      if exit != 0 {
        files := Put(files, file, env.halfEdit(file));
      } else if Generated(file) {
        files := files[file := env.mkconfig(file, files)];
      } else {
        files := files[file := SedFile(files[file], names)];
      }
    }

    /** The first loop: true when every backup was made. */
    method MakeBackups() returns (ok: bool)
      modifies this`backups, this`status
      ensures ok == BackupsWork(env, files)
      ensures ok ==> backups == old(backups) + files && status == old(status)
      ensures !ok ==> backups == map[] && FirstFailure(env.backupExit, files, status)
    {
      var i := 0;
      while i < |FILES|
        invariant 0 <= i <= |FILES| && status == old(status)
        invariant WorksBefore(env.backupExit, files, i)
        invariant forall f :: f in backups <==> f in old(backups) || (f in files && Rank(f) < i)
        invariant forall f :: f in backups ==>
          backups[f] == if f in files && Rank(f) < i then files[f] else old(backups)[f]
      {
        var file := FILES[i];
        assert Rank(file) == i;
        if file in files {
          var exit := BackUp(file);
          if exit != 0 {
            RemoveBackups();
            status := exit;
            return false;
          }
        }
        i := i + 1;
      }
      return true;
    }

    /** One turn of the second loop. */
    method EditIfThere(file: File, names: string) returns (exit: int)
      modifies this`files, this`status
      ensures exit == if file in old(files) then env.editExit(file) else 0
      ensures status == if file in old(files) then exit else old(status)
      ensures exit == 0 ==> files == EditStep(env, old(files), names, file)
      ensures exit != 0 ==> files.Keys <= old(files).Keys
    {
      exit := 0;
      if file in files {
        exit := Edit(file, names);
        status := exit;
      }
    }

    /** The second loop: true when every edit was made; otherwise everything is rolled back. */
    method MakeEdits(names: string) returns (ok: bool)
      modifies this
      ensures ok == EditsWork(env, old(files))
      ensures ok ==> files == Updated(env, old(files), names) && backups == old(backups)
      ensures ok ==> status == if old(files) == map[] then old(status) else 0
      ensures !ok ==> backups == map[] && FirstFailure(env.editExit, old(files), status)
      ensures !ok && old(files).Keys <= old(backups).Keys ==> files == old(backups)
    {
      ghost var before := files;
      var i := 0;
      while i < |FILES|
        invariant 0 <= i <= |FILES| && backups == old(backups)
        invariant WorksBefore(env.editExit, before, i)
        invariant files == EditedUpTo(env, before, names, i)
        invariant status == if AnyBefore(before, i) then 0 else old(status)
      {
        var file := FILES[i];
        assert Rank(file) == i;
        NextEdit(env, before, names, i);
        var exit := EditIfThere(file, names);
        if exit != 0 {
          CoveredByBackups(files, backups);
          RestoreBackups();
          return false;
        }
        i := i + 1;
      }
      return true;
    }

    /** The whole action. */
    method UpdateGrub(names: string)
      modifies this
      ensures backups == map[]
      ensures !BackupsWork(env, old(files)) ==>
        files == old(files) && FirstFailure(env.backupExit, old(files), status)
      ensures BackupsWork(env, old(files)) && !EditsWork(env, old(files)) ==>
        files == RolledBack(old(files), old(backups)) && FirstFailure(env.editExit, old(files), status)
      ensures BackupsWork(env, old(files)) && EditsWork(env, old(files)) ==>
        files == Updated(env, old(files), names) && status == if old(files) == map[] then old(status) else 0
    {
      var ok := MakeBackups();
      if ok {
        ok := MakeEdits(names);
        if ok {
          RemoveBackups();
        }
      }
    }
  }

  function EditStep(env: Commands, files: Tree, names: string, file: File): Tree {
    if file !in files then files
    else if Generated(file) then files[file := env.mkconfig(file, files)]
    else files[file := SedFile(files[file], names)]
  }

  /** The files after the edits of the first `n` in order. */
  function EditedUpTo(env: Commands, files: Tree, names: string, n: nat): (done: Tree)
    ensures done.Keys == files.Keys
  {
    match n
    case 0 => files
    case 1 => EditStep(env, files, names, DefaultGrub)
    case 2 => Rewritten(files, names)
    case 3 => Regenerate(env, Rewritten(files, names), RackGrub)
    case _ => Updated(env, files, names)
  }

  lemma {:induction false} BothEdited(env: Commands, files: Tree, names: string)
    ensures EditStep(env, EditStep(env, files, names, DefaultGrub), names, VxdmpScript) == Rewritten(files, names)
  {
    var two := EditStep(env, EditStep(env, files, names, DefaultGrub), names, VxdmpScript);
    assert two.Keys == files.Keys;
    forall f | f in files ensures two[f] == Rewritten(files, names)[f] {
      match f
      case DefaultGrub =>
      case VxdmpScript =>
      case RackGrub =>
      case GrubCfg =>
    }
  }

  lemma {:induction false} NextEdit(env: Commands, files: Tree, names: string, n: nat)
    requires n < |FILES|
    ensures EditedUpTo(env, files, names, n + 1) == EditStep(env, EditedUpTo(env, files, names, n), names, FILES[n])
  {
    BothEdited(env, files, names);
  }

  // ---------------------------------------------------------------- all or nothing

  /** What the action leaves of the files, on any run. */
  function Outcome(env: Commands, files: Tree, backups: Tree, names: string): Tree {
    if !BackupsWork(env, files) then files
    else if !EditsWork(env, files) then RolledBack(files, backups)
    else Updated(env, files, names)
  }

  /** Whatever the edits left of the files, moving the backups made of them back gives the files again, exactly when no
      older backup was of a file that is not there. */
  lemma {:induction false} BackupsUndoEdits(files: Tree, backups: Tree, damaged: Tree)
    requires damaged.Keys <= files.Keys
    ensures damaged + (backups + files) == files <==> backups.Keys <= files.Keys
  {
    var restored := damaged + (backups + files);
    if restored == files {
      forall f | f in backups ensures f in files {
        assert f in restored;
      }
    }
  }

  /** A failed update changes nothing, unless an edit failed while an old backup of an absent file lay about. */
  lemma {:induction false} FailureChangesNothing(env: Commands, files: Tree, backups: Tree, names: string)
    requires !(BackupsWork(env, files) && EditsWork(env, files))
    ensures Outcome(env, files, backups, names) == files <==>
      (!BackupsWork(env, files) || backups.Keys <= files.Keys)
  {
    if BackupsWork(env, files) && backups.Keys <= files.Keys {
      assert RolledBack(files, backups) == files;
    }
    if BackupsWork(env, files) && RolledBack(files, backups) == files {
      assert backups.Keys <= RolledBack(files, backups).Keys;
    }
  }

  /** On success each edited file is its rewrite, and each generated one comes from rewritten files alone. */
  lemma {:induction false} SuccessEditsEachOnce(env: Commands, files: Tree, names: string, file: File)
    requires file in files
    ensures var after := Updated(env, files, names);
      && after.Keys == files.Keys
      && (!Generated(file) ==> after[file] == SedFile(files[file], names))
      && (file == RackGrub ==> after[file] == env.mkconfig(file, Rewritten(files, names)))
      && (file == GrubCfg ==> after[file] == env.mkconfig(file, Regenerate(env, Rewritten(files, names), RackGrub)))
  {
  }

  predicate SameEdited(a: Tree, b: Tree) {
    a.Keys == b.Keys && forall f :: f in a && !Generated(f) ==> a[f] == b[f]
  }

  /** What the generator writes depends on the edited files only, not on what it wrote before. */
  ghost predicate GeneratesFromEdited(env: Commands) {
    forall target: File, a: Tree, b: Tree :: SameEdited(a, b) ==> env.mkconfig(target, a) == env.mkconfig(target, b)
  }

  lemma {:induction false} SameRegenerated(env: Commands, a: Tree, b: Tree)
    requires GeneratesFromEdited(env) && SameEdited(a, b)
    ensures Regenerate(env, Regenerate(env, a, RackGrub), GrubCfg)
      == Regenerate(env, Regenerate(env, b, RackGrub), GrubCfg)
  {
    var c, d := Regenerate(env, a, RackGrub), Regenerate(env, b, RackGrub);
    assert SameEdited(c, d);
    assert env.mkconfig(RackGrub, a) == env.mkconfig(RackGrub, b)
      && env.mkconfig(GrubCfg, c) == env.mkconfig(GrubCfg, d);
    var x, y := Regenerate(env, c, GrubCfg), Regenerate(env, d, GrubCfg);
    forall f | f in a ensures x[f] == y[f] {
      assert Generated(f) <==> f == RackGrub || f == GrubCfg;
    }
  }

  lemma {:induction false} RewrittenTwice(files: Tree, list: seq<string>, other: seq<string>)
    requires list != [] && CleanList(list) && CleanList(other)
    ensures Rewritten(Rewritten(files, LvString(list)), LvString(other)) == Rewritten(files, LvString(other))
  {
    forall f | f in files && !Generated(f)
      ensures SedFile(SedFile(files[f], LvString(list)), LvString(other)) == SedFile(files[f], LvString(other))
    {
      SedLastWriteWins(files[f], list, other);
    }
  }

  lemma {:induction false} UpdatedIsRewritten(env: Commands, files: Tree, names: string, other: string)
    ensures SameEdited(Rewritten(Updated(env, files, names), other), Rewritten(Rewritten(files, names), other))
  {
    assert SameEdited(Updated(env, files, names), Rewritten(files, names));
  }

  /** A successful update is the last one that counts: the whole tree is as if only it had been made. */
  lemma {:induction false} LastUpdateWins(env: Commands, files: Tree, list: seq<string>, other: seq<string>)
    requires list != [] && CleanList(list) && CleanList(other) && GeneratesFromEdited(env)
    ensures Updated(env, Updated(env, files, LvString(list)), LvString(other)) == Updated(env, files, LvString(other))
  {
    RewrittenTwice(files, list, other);
    UpdatedIsRewritten(env, files, LvString(list), LvString(other));
    SameRegenerated(env, Rewritten(Updated(env, files, LvString(list)), LvString(other)),
                    Rewritten(files, LvString(other)));
  }

  /** Any run of failed updates followed by a successful one leaves what the successful one alone leaves. */
  lemma {:induction false} FailuresThenSuccess(failed: seq<Commands>, env: Commands, files: Tree, names: seq<string>,
      last: string)
    requires |names| == |failed|
    requires forall i :: 0 <= i < |failed| ==> !(BackupsWork(failed[i], files) && EditsWork(failed[i], files))
    requires BackupsWork(env, files) && EditsWork(env, files)
    ensures Outcome(env, AfterAll(failed, files, names), map[], last) == Updated(env, files, last)
  {
    if failed != [] {
      FailureChangesNothing(failed[0], files, map[], names[0]);
      FailuresThenSuccess(failed[1..], env, files, names[1..], last);
    }
  }

  /** The files after a run of updates; each leaves no backup behind for the next. */
  function AfterAll(envs: seq<Commands>, files: Tree, names: seq<string>): Tree
    requires |names| == |envs|
  {
    if envs == [] then files
    else AfterAll(envs[1..], Outcome(envs[0], files, map[], names[0]), names[1..])
  }
}
