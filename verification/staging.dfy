/** `initialize_database`: renaming a copied data directory, mirroring the
    install home into the workspace, copying an outside configuration
    directory, and patching the launcher script. */
module Staging {
  import opened Wrappers
  import opened Text
  import opened PosixPath
  import opened YamlConfig
  import opened Platform
  import opened Locator
  import opened LauncherPatch

  /** What staging does with one top-level entry of the install home. */
  datatype Action =
    | Keep                                  // the destination already exists
    | Symlink(src: string, dst: string)     // os.symlink
    | CopyTree(src: string, dst: string)    // shutil.copytree
    | CopyFile(src: string, dst: string)    // shutil.copyfile

  /** The code as written differs from the corrected code in two places:
      - the staging loop tests whether `<base_dir>/<entry>` exists, also for
        `conf`, which it copies to `<base_dir>/config`; the corrected loop
        tests the path it is about to create;
      - the launcher is rewritten in place without truncating the file; the
        corrected rewrite truncates it after writing. */
  datatype Revision = AsWritten | Corrected

  /** Entries linked rather than copied. */
  const LinkedEntries: set<string> := {"lib", "plugins"}

  /** Where an entry of the install home ends up in the workspace: `conf` is
      renamed to `config`, everything else keeps its name. */
  function EntryDestination(baseDir: string, name: string): string {
    if name == "conf" then Join(baseDir, "config") else Join(baseDir, name)
  }

  /** The path whose existence decides that an entry is left alone. */
  function CheckedPath(rev: Revision, baseDir: string, name: string): string {
    match rev
    case AsWritten => Join(baseDir, name)
    case Corrected => EntryDestination(baseDir, name)
  }

  /** The decision for one entry `name` of the install home. */
  function EntryAction(rev: Revision, fs: FileSystem, home: string, baseDir: string, name: string): (a: Action)
    ensures a.Keep? <==> CheckedPath(rev, baseDir, name) in fs.existing
    ensures !a.Keep? ==> a.src == Join(home, name) && a.dst == EntryDestination(baseDir, name)
    ensures a.Symlink? <==> !a.Keep? && name in LinkedEntries
    ensures a.CopyTree? <==> !a.Keep? && name !in LinkedEntries && (name == "conf" || Join(home, name) in fs.dirs)
    ensures a.CopyFile? <==> !a.Keep? && name !in LinkedEntries && name != "conf" && Join(home, name) !in fs.dirs
  {
    var src, dst := Join(home, name), EntryDestination(baseDir, name);
    if CheckedPath(rev, baseDir, name) in fs.existing then Keep
    else if name in LinkedEntries then Symlink(src, dst)
    else if name == "conf" || src in fs.dirs then CopyTree(src, dst)
    else CopyFile(src, dst)
  }

  /** The corrected decision never writes over an existing path, and it
      leaves an entry alone exactly when the entry's destination exists. */
  lemma CorrectedNeverOverwrites(fs: FileSystem, home: string, baseDir: string, name: string)
    ensures var a := EntryAction(Corrected, fs, home, baseDir, name);
            (a.Keep? <==> EntryDestination(baseDir, name) in fs.existing) &&
            (!a.Keep? ==> a.dst !in fs.existing)
  {
  }

  /** The effect of an action on the file system. `symlink` fails when its
      destination exists; `copytree` fails when its source is not a
      directory or its destination exists; `copyfile` overwrites. Only the
      top-level destination is tracked, not the copied tree below it. */
  function Apply(fs: FileSystem, a: Action): (r: Result<FileSystem, string>)
    ensures r.Success? ==> fs.existing <= r.value.existing && fs.dirs <= r.value.dirs
    ensures r.Success? && !a.Keep? ==> a.dst in r.value.existing
    ensures r.Failure? <==> (a.Symlink? && a.dst in fs.existing) ||
                            (a.CopyTree? && (a.src !in fs.dirs || a.dst in fs.existing))
  {
    match a
    case Keep => Success(fs)
    case Symlink(src, dst) =>
      if dst in fs.existing then Failure("OSError: File exists: " + dst)
      else Success(FileSystem(fs.existing + {dst}, if src in fs.dirs then fs.dirs + {dst} else fs.dirs))
    case CopyTree(src, dst) =>
      if src !in fs.dirs then Failure("OSError: Not a directory: " + src)
      else if dst in fs.existing then Failure("OSError: File exists: " + dst)
      else Success(FileSystem(fs.existing + {dst}, fs.dirs + {dst}))
    case CopyFile(src, dst) =>
      Success(fs.(existing := fs.existing + {dst}))
  }

  datatype Staged = Staged(actions: seq<Action>, fs: FileSystem)

  /** The loop over `os.listdir(home)`: each entry is decided against the
      file system as the earlier entries left it. */
  function StageEntries(rev: Revision, fs: FileSystem, home: string, baseDir: string, names: seq<string>): (r: Result<Staged, string>)
    ensures r.Success? ==> |r.value.actions| == |names|
    ensures r.Success? ==> fs.existing <= r.value.fs.existing && fs.dirs <= r.value.fs.dirs
    decreases |names|
  {
    if |names| == 0 then Success(Staged([], fs))
    else
      var a := EntryAction(rev, fs, home, baseDir, names[0]);
      var next :- Apply(fs, a);
      var rest :- StageEntries(rev, next, home, baseDir, names[1..]);
      Success(Staged([a] + rest.actions, rest.fs))
  }

  /** One successful step of the loop: the first entry's action succeeded
      and the rest of the listing was staged from there. */
  lemma StageEntriesStep(rev: Revision, fs: FileSystem, home: string, baseDir: string, names: seq<string>)
    requires |names| > 0 && StageEntries(rev, fs, home, baseDir, names).Success?
    ensures Apply(fs, EntryAction(rev, fs, home, baseDir, names[0])).Success?
    ensures var next := Apply(fs, EntryAction(rev, fs, home, baseDir, names[0])).value;
            var rest := StageEntries(rev, next, home, baseDir, names[1..]);
            rest.Success? && StageEntries(rev, fs, home, baseDir, names).value.fs == rest.value.fs
  {
  }

  /** Entry `name` was found in place or created. */
  predicate EntryPresent(rev: Revision, existing: set<string>, baseDir: string, name: string) {
    CheckedPath(rev, baseDir, name) in existing || EntryDestination(baseDir, name) in existing
  }

  /** After successful staging each entry was either found in place (its
      checked path exists) or created (its destination exists). */
  lemma {:induction false} StagedEntriesPresent(rev: Revision, fs: FileSystem, home: string, baseDir: string, names: seq<string>)
    ensures var r := StageEntries(rev, fs, home, baseDir, names);
            r.Success? ==> forall i :: 0 <= i < |names| ==>
              CheckedPath(rev, baseDir, names[i]) in r.value.fs.existing ||
              EntryDestination(baseDir, names[i]) in r.value.fs.existing
    decreases |names|
  {
    var r := StageEntries(rev, fs, home, baseDir, names);
    if |names| > 0 && r.Success? {
      StageEntriesStep(rev, fs, home, baseDir, names);
      var next := Apply(fs, EntryAction(rev, fs, home, baseDir, names[0])).value;
      StagedEntriesPresent(rev, next, home, baseDir, names[1..]);
      var existing := r.value.fs.existing;
      assert EntryPresent(rev, next.existing, baseDir, names[0]);
      assert next.existing <= existing;
      forall i | 0 <= i < |names|
        ensures EntryPresent(rev, existing, baseDir, names[i])
      {
        if i > 0 {
          assert names[i] == names[1..][i - 1];
        }
      }
    }
  }

  /** Every `conf` entry of the listing is a directory. */
  predicate ConfIsDirectory(fs: FileSystem, home: string, names: seq<string>) {
    forall i :: 0 <= i < |names| && names[i] == "conf" ==> Join(home, names[i]) in fs.dirs
  }

  /** With the corrected test, staging succeeds whenever `conf` (if listed)
      is a directory, as `copytree` needs, and afterwards every entry's
      destination exists, whether it was created now or found in place. */
  lemma {:induction false} CorrectedStagingSucceeds(fs: FileSystem, home: string, baseDir: string, names: seq<string>)
    ensures ConfIsDirectory(fs, home, names) ==> StageEntries(Corrected, fs, home, baseDir, names).Success?
    ensures var r := StageEntries(Corrected, fs, home, baseDir, names);
            r.Success? ==> forall i :: 0 <= i < |names| ==> EntryDestination(baseDir, names[i]) in r.value.fs.existing
    decreases |names|
  {
    StagedEntriesPresent(Corrected, fs, home, baseDir, names);
    if |names| > 0 && ConfIsDirectory(fs, home, names) {
      var a := EntryAction(Corrected, fs, home, baseDir, names[0]);
      assert names[0] == "conf" ==> Join(home, names[0]) in fs.dirs;
      var next := Apply(fs, a);
      assert next.Success?;
      assert ConfIsDirectory(next.value, home, names[1..]) by {
        forall i | 0 <= i < |names[1..]| && names[1..][i] == "conf"
          ensures Join(home, names[1..][i]) in next.value.dirs
        {
          assert names[1..][i] == names[i + 1];
        }
      }
      CorrectedStagingSucceeds(next.value, home, baseDir, names[1..]);
    }
  }

  /** The defect of the loop as written: on a workspace that already holds a
      `config` directory (a reused `base_dir`), an install home with a `conf`
      directory makes staging fail, because the test looks for `conf`. The
      corrected test keeps the entry. */
  lemma ConfReuseFailsAsWritten()
    ensures var fs := FileSystem({"/tmp/es/config", "/usr/share/elasticsearch/conf"},
                                 {"/tmp/es/config", "/usr/share/elasticsearch/conf"});
            && StageEntries(AsWritten, fs, "/usr/share/elasticsearch", "/tmp/es", ["conf"]).Failure?
            && StageEntries(Corrected, fs, "/usr/share/elasticsearch", "/tmp/es", ["conf"]).Success?
  {
    var fs := FileSystem({"/tmp/es/config", "/usr/share/elasticsearch/conf"},
                         {"/tmp/es/config", "/usr/share/elasticsearch/conf"});
    assert Join("/tmp/es", "conf") == "/tmp/es/conf";
    assert Join("/tmp/es", "config") == "/tmp/es/config";
    assert Join("/usr/share/elasticsearch", "conf") == "/usr/share/elasticsearch/conf";
    assert EntryAction(AsWritten, fs, "/usr/share/elasticsearch", "/tmp/es", "conf")
        == CopyTree("/usr/share/elasticsearch/conf", "/tmp/es/config");
    assert EntryAction(Corrected, fs, "/usr/share/elasticsearch", "/tmp/es", "conf").Keep?;
  }

  /** The rename after copying a data directory: the first entry `listdir`
      reports for the source (the old cluster's directory) is renamed, inside
      `<base_dir>/data`, to the new cluster name. Nothing is renamed unless
      both the source and the cluster name are truthy. */
  function CopiedDataRename(copyFrom: Option<string>, clusterName: Option<Value>, listing: seq<string>, baseDir: string): (r: Result<Option<(string, string)>, string>)
    ensures (copyFrom.None? || copyFrom.value == "") ==> r == Success(None)
    ensures r.Success? && r.value.Some? ==>
              && copyFrom.Some? && copyFrom.value != "" && |listing| > 0
              && clusterName.Some? && clusterName.value.Str? && clusterName.value.s != ""
              && r.value.value == (Join(DataDirectory(baseDir), listing[0]), Join(DataDirectory(baseDir), clusterName.value.s))
    ensures copyFrom.Some? && copyFrom.value != "" && clusterName.Some? && clusterName.value.Str? &&
            clusterName.value.s != "" && |listing| > 0 ==>
              r == Success(Some((Join(DataDirectory(baseDir), listing[0]), Join(DataDirectory(baseDir), clusterName.value.s))))
    ensures r.Failure? <==> copyFrom.Some? && copyFrom.value != "" &&
                            (clusterName.None? || (Truthy(clusterName.value) && (|listing| == 0 || !clusterName.value.Str?)))
  {
    if copyFrom.None? || copyFrom.value == "" then Success(None)
    else if clusterName.None? then Failure("KeyError: 'cluster.name'")
    else if !Truthy(clusterName.value) then Success(None)
    else if |listing| == 0 then Failure("IndexError: list index out of range")
    else if !clusterName.value.Str? then Failure("TypeError: cluster.name is not a string")
    else Success(Some((Join(DataDirectory(baseDir), listing[0]), Join(DataDirectory(baseDir), clusterName.value.s))))
  }

  function LauncherScriptPath(baseDir: string): string {
    Join(Join(baseDir, "bin"), "elasticsearch.in.sh")
  }

  /** The workspace `initialize_database` leaves behind. */
  datatype Workspace = Workspace(
    rename: Option<(string, string)>,
    actions: seq<Action>,
    fs: FileSystem,
    launcher: string)

  /** The file system after staging and, when the configuration file lies
      outside the install home, after copying its directory to
      `<base_dir>/config` (which fails if that exists). */
  function StageWorkspace(rev: Revision, host: Host, home: string, baseDir: string): (r: Result<Staged, string>)
    ensures r.Success? ==> host.fs.existing <= r.value.fs.existing
    ensures r.Success? ==> forall i :: 0 <= i < |host.listdir(home)| ==>
                             CheckedPath(rev, baseDir, host.listdir(home)[i]) in r.value.fs.existing ||
                             EntryDestination(baseDir, host.listdir(home)[i]) in r.value.fs.existing
    ensures r.Success? && rev.Corrected? ==> forall i :: 0 <= i < |host.listdir(home)| ==>
                                               EntryDestination(baseDir, host.listdir(home)[i]) in r.value.fs.existing
    ensures r.Success? ==> StageEntries(rev, host.fs, home, baseDir, host.listdir(home)).Success?
    ensures var staged := StageEntries(rev, host.fs, home, baseDir, host.listdir(home));
            staged.Success? ==>
              var yaml := FindYamlPath(staged.value.fs, home);
              && (yaml.Failure? ==> r == Failure(YamlNotFound))
              && (yaml.Success? && StartsWith(yaml.value, home) ==> r == staged)
              && (yaml.Success? && !StartsWith(yaml.value, home) ==>
                    && (r.Success? <==> DirName(yaml.value) in staged.value.fs.dirs &&
                                        Join(baseDir, "config") !in staged.value.fs.existing)
                    && (r.Success? ==> Join(baseDir, "config") in r.value.fs.existing))
  {
    StagedEntriesPresent(rev, host.fs, home, baseDir, host.listdir(home));
    CorrectedStagingSucceeds(host.fs, home, baseDir, host.listdir(home));
    var staged :- StageEntries(rev, host.fs, home, baseDir, host.listdir(home));
    var yamlPath :- FindYamlPath(staged.fs, home);
    if StartsWith(yamlPath, home) then Success(staged)
    else
      var fs :- Apply(staged.fs, CopyTree(DirName(yamlPath), Join(baseDir, "config")));
      Success(Staged(staged.actions, fs))
  }

  /** Reading `<base_dir>/bin/elasticsearch.in.sh`, removing every
      `ES_HOME=` assignment from its text and writing the result back from
      the start of the file. As written the file is not truncated, so the
      original's last characters stay behind the shorter text; corrected,
      the file holds exactly the rewritten text. */
  function PatchLauncher(rev: Revision, host: Host, baseDir: string): (r: Result<string, string>)
    ensures r.Success? <==> host.readText(LauncherScriptPath(baseDir)).Some?
    ensures r.Success? ==> var text := host.readText(LauncherScriptPath(baseDir)).value;
                           StartsWith(r.value, StripEsHome(text))
    ensures r.Success? && rev.Corrected? ==> var text := host.readText(LauncherScriptPath(baseDir)).value;
                                             r.value == StripEsHome(text) && MarkerIndex(r.value).None?
    ensures r.Success? && rev.AsWritten? ==> var text := host.readText(LauncherScriptPath(baseDir)).value;
                                             |r.value| == |text| &&
                                             r.value == StripEsHome(text) + text[|StripEsHome(text)|..]
  {
    match host.readText(LauncherScriptPath(baseDir))
    case None => Failure("IOError: cannot open " + LauncherScriptPath(baseDir))
    case Some(text) =>
      var body := StripEsHome(text);
      StripRemovesMarker(text);
      RewrittenLauncherKeepsTail(text);
      Success(if rev.Corrected? then body else RewriteInPlace(text, body))
  }

  /** `os.rename(src, dst)`: fails when `src` does not exist; renaming a path
      to itself changes nothing; an existing `dst` is replaced when both are
      files, and otherwise (a directory on either side, which this model
      takes to be non-empty) the call fails. `src` is gone afterwards and
      `dst` is a directory exactly when `src` was. */
  function Rename(fs: FileSystem, src: string, dst: string): (r: Result<FileSystem, string>)
    ensures r.Failure? <==> src !in fs.existing || (src != dst && dst in fs.existing && (src in fs.dirs || dst in fs.dirs))
    ensures r.Success? && src == dst ==> r.value == fs
    ensures r.Success? && src != dst ==> r.value.existing == fs.existing - {src} + {dst}
    ensures r.Success? && src != dst ==> src !in r.value.dirs && (dst in r.value.dirs <==> src in fs.dirs)
    ensures r.Success? && src != dst ==> r.value.dirs - {dst} == fs.dirs - {src, dst}
  {
    if src !in fs.existing then Failure("OSError: No such file or directory: " + src)
    else if src == dst then Success(fs)
    else if dst in fs.existing && (src in fs.dirs || dst in fs.dirs) then Failure("OSError: Directory not empty: " + dst)
    else Success(FileSystem(fs.existing - {src} + {dst}, fs.dirs - {src, dst} + (if src in fs.dirs then {dst} else {})))
  }

  /** Every directory is an existing path. */
  predicate WellFormed(fs: FileSystem) {
    fs.dirs <= fs.existing
  }

  /** Renaming to a fresh name and back restores the file system. */
  lemma RenameBack(fs: FileSystem, src: string, dst: string)
    requires WellFormed(fs) && src in fs.existing && dst !in fs.existing
    ensures Rename(fs, src, dst).Success?
    ensures WellFormed(Rename(fs, src, dst).value)
    ensures Rename(Rename(fs, src, dst).value, dst, src) == Success(fs)
  {
    var moved := Rename(fs, src, dst).value;
    assert moved.existing - {dst} + {src} == fs.existing;
    assert moved.dirs - {dst, src} + (if dst in moved.dirs then {src} else {}) == fs.dirs;
  }

  /** The rename `CopiedDataRename` decided, if any, applied to `fs`. */
  function ApplyRename(fs: FileSystem, rename: Option<(string, string)>): (r: Result<FileSystem, string>)
    ensures rename.None? ==> r == Success(fs)
    ensures rename.Some? ==> r == Rename(fs, rename.value.0, rename.value.1)
  {
    match rename
    case None => Success(fs)
    case Some((src, dst)) => Rename(fs, src, dst)
  }

  /** The first step of `initialize_database()`: the rename decided for the
      copied data, and the file system after it. */
  function RenameCopiedData(host: Host, baseDir: string, cfg: Config, copyFrom: Option<string>): (r: Result<(Option<(string, string)>, FileSystem), string>)
    ensures var clusterName := if ClusterNameKey in cfg then Some(cfg[ClusterNameKey]) else None;
            var listing := if copyFrom.Some? then host.listdir(copyFrom.value) else [];
            var rename := CopiedDataRename(copyFrom, clusterName, listing, baseDir);
            && (r.Success? <==> rename.Success? && ApplyRename(host.fs, rename.value).Success?)
            && (r.Success? ==> rename == Success(r.value.0) && ApplyRename(host.fs, r.value.0) == Success(r.value.1))
    ensures r.Success? && r.value.0.None? ==> r.value.1 == host.fs
    ensures r.Success? && r.value.0.Some? ==>
              var (src, dst) := r.value.0.value;
              && src in host.fs.existing
              && host.fs.existing - {src} <= r.value.1.existing
              && dst in r.value.1.existing
              && (src != dst ==> src !in r.value.1.existing)
  {
    var clusterName := if ClusterNameKey in cfg then Some(cfg[ClusterNameKey]) else None;
    var listing := if copyFrom.Some? then host.listdir(copyFrom.value) else [];
    var rename :- CopiedDataRename(copyFrom, clusterName, listing, baseDir);
    var renamed :- ApplyRename(host.fs, rename);
    Success((rename, renamed))
  }

  /** `initialize_database()`: the copied data directory is renamed first,
      then the install home is staged into the renamed file system, then the
      launcher is patched. */
  function InitializeDatabase(rev: Revision, host: Host, home: string, baseDir: string, cfg: Config, copyFrom: Option<string>): (r: Result<Workspace, string>)
    ensures var renamed := RenameCopiedData(host, baseDir, cfg, copyFrom);
            && (r.Success? <==> renamed.Success? &&
                                StageWorkspace(rev, host.(fs := renamed.value.1), home, baseDir).Success? &&
                                host.readText(LauncherScriptPath(baseDir)).Some?)
            && (r.Success? ==> renamed.value.0 == r.value.rename &&
                               StageWorkspace(rev, host.(fs := renamed.value.1), home, baseDir) ==
                                 Success(Staged(r.value.actions, r.value.fs)))
    ensures r.Success? && r.value.rename.None? ==> host.fs.existing <= r.value.fs.existing
    ensures r.Success? && r.value.rename.Some? ==>
              var (src, dst) := r.value.rename.value;
              && src in host.fs.existing
              && host.fs.existing - {src} <= r.value.fs.existing
              && dst in r.value.fs.existing
    ensures r.Success? && rev.Corrected? ==> forall i :: 0 <= i < |host.listdir(home)| ==>
                                               EntryDestination(baseDir, host.listdir(home)[i]) in r.value.fs.existing
    ensures r.Success? ==> PatchLauncher(rev, host, baseDir) == Success(r.value.launcher)
    ensures r.Success? ==> StartsWith(r.value.launcher, StripEsHome(host.readText(LauncherScriptPath(baseDir)).value))
    ensures r.Success? && rev.Corrected? ==> MarkerIndex(r.value.launcher).None?
  {
    var (rename, renamed) :- RenameCopiedData(host, baseDir, cfg, copyFrom);
    var staged :- StageWorkspace(rev, host.(fs := renamed), home, baseDir);
    var launcher :- PatchLauncher(rev, host, baseDir);
    Success(Workspace(rename, staged.actions, staged.fs, launcher))
  }
}
