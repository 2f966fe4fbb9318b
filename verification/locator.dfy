/** Finding the distribution: `find_elasticsearch_home` and
    `find_elasticsearch_yaml_path`. */
module Locator {
  import opened Wrappers
  import opened PosixPath
  import opened Version
  import opened Platform

  /** The fixed install location tried after `ES_HOME`. */
  const SearchPaths: seq<string> := ["/usr/share/elasticsearch"]

  /** The glob patterns tried last, concatenated in this order. */
  const GlobPatterns: seq<string> := ["/usr/local/*elasticsearch*", "*elasticsearch*", "/usr/local/Cellar/elasticsearch/*/libexec"]

  const HomeNotFound: string := "could not find ES_HOME"
  const YamlNotFound: string := "could not find elasticsearch.yml"

  /** `<home>/bin/elasticsearch`, whose existence marks an install home. */
  function LauncherPath(home: string): string {
    Join(Join(home, "bin"), "elasticsearch")
  }

  predicate HasLauncher(fs: FileSystem, home: string) {
    LauncherPath(home) in fs.existing
  }

  /** The index of the first path that exists. */
  function FirstExisting(paths: seq<string>, fs: FileSystem): (r: Option<nat>)
    ensures r.Some? ==> r.value < |paths| && paths[r.value] in fs.existing
    ensures r.Some? ==> forall j :: 0 <= j < r.value ==> paths[j] !in fs.existing
    ensures r.None? <==> forall j :: 0 <= j < |paths| ==> paths[j] !in fs.existing
    decreases |paths|
  {
    if |paths| == 0 then None
    else if paths[0] in fs.existing then Some(0)
    else match FirstExisting(paths[1..], fs)
      case None => None
      case Some(i) => Some(i + 1)
  }

  function LauncherPaths(homes: seq<string>): (r: seq<string>)
    ensures |r| == |homes|
    ensures forall i :: 0 <= i < |homes| ==> r[i] == LauncherPath(homes[i])
  {
    seq(|homes|, i requires 0 <= i < |homes| => LauncherPath(homes[i]))
  }

  /** `ES_HOME` made absolute, when it is set to a non-empty value. */
  function EnvHome(host: Host): (r: Option<string>)
    ensures r.Some? <==> "ES_HOME" in host.env && host.env["ES_HOME"] != ""
    ensures r.Some? ==> r.value == host.abspath(host.env["ES_HOME"])
  {
    if "ES_HOME" in host.env && host.env["ES_HOME"] != "" then Some(host.abspath(host.env["ES_HOME"])) else None
  }

  predicate EnvHomeUsable(host: Host) {
    EnvHome(host).Some? && HasLauncher(host.fs, EnvHome(host).value)
  }

  /** `paths[i]` is the first of `paths` that holds a launcher. */
  predicate IsFirstWithLauncher(fs: FileSystem, paths: seq<string>, i: int) {
    && 0 <= i < |paths|
    && HasLauncher(fs, paths[i])
    && forall j :: 0 <= j < i ==> !HasLauncher(fs, paths[j])
  }

  predicate SomeSearchPathUsable(host: Host) {
    exists i :: 0 <= i < |SearchPaths| && HasLauncher(host.fs, SearchPaths[i])
  }

  function Globbed(host: Host): seq<string> {
    host.glob(GlobPatterns[0]) + host.glob(GlobPatterns[1]) + host.glob(GlobPatterns[2])
  }

  /** `[os.path.abspath(d) for d in globbed if os.path.isdir(d)]`. */
  function CandidateDirs(host: Host, globbed: seq<string>): (r: seq<string>)
    ensures |r| <= |globbed|
    ensures |r| == 0 <==> forall i :: 0 <= i < |globbed| ==> globbed[i] !in host.fs.dirs
    ensures forall d :: d in r ==> exists i :: 0 <= i < |globbed| && globbed[i] in host.fs.dirs && d == host.abspath(globbed[i])
    ensures forall i :: 0 <= i < |globbed| && globbed[i] in host.fs.dirs ==> host.abspath(globbed[i]) in r
    decreases |globbed|
  {
    if |globbed| == 0 then []
    else
      var rest := CandidateDirs(host, globbed[1..]);
      assert forall i :: 0 <= i < |globbed[1..]| ==> globbed[1..][i] == globbed[i + 1];
      if globbed[0] in host.fs.dirs then [host.abspath(globbed[0])] + rest else rest
  }

  /** The filter keeps the order of the glob results: filtering a
      concatenation is concatenating the filtered parts. */
  lemma {:induction false} CandidateDirsAppend(host: Host, a: seq<string>, b: seq<string>)
    ensures CandidateDirs(host, a + b) == CandidateDirs(host, a) + CandidateDirs(host, b)
    decreases |a|
  {
    if |a| > 0 {
      var ab := a + b;
      assert ab[0] == a[0];
      assert ab[1..] == a[1..] + b;
      CandidateDirsAppend(host, a[1..], b);
      var head: seq<string> := if a[0] in host.fs.dirs then [host.abspath(a[0])] else [];
      assert CandidateDirs(host, ab) == head + CandidateDirs(host, ab[1..]);
      assert CandidateDirs(host, a) == head + CandidateDirs(host, a[1..]);
    } else {
      assert a + b == b;
    }
  }

  /** A single globbed path contributes its absolute form exactly when it is
      a directory. */
  lemma CandidateDirsSingle(host: Host, p: string)
    ensures CandidateDirs(host, [p]) == if p in host.fs.dirs then [host.abspath(p)] else []
  {
    assert [p][1..] == [];
  }

  /** `find_elasticsearch_home()`: `ES_HOME`, then the fixed search paths,
      then the newest globbed directory, else an error. */
  function FindHome(host: Host): (r: Result<string, string>)
    ensures EnvHomeUsable(host) ==> r == Success(EnvHome(host).value)
    ensures !EnvHomeUsable(host) && SomeSearchPathUsable(host) ==>
              exists i :: 0 <= i < |SearchPaths| && IsFirstWithLauncher(host.fs, SearchPaths, i) && r == Success(SearchPaths[i])
    ensures !EnvHomeUsable(host) && !SomeSearchPathUsable(host) && |CandidateDirs(host, Globbed(host))| > 0 ==>
              exists k :: IsNewest(StripVersion, CandidateDirs(host, Globbed(host)), k) &&
                          r == Success(CandidateDirs(host, Globbed(host))[k])
    ensures r.Failure? <==> !EnvHomeUsable(host) && !SomeSearchPathUsable(host) &&
                            forall i :: 0 <= i < |Globbed(host)| ==> Globbed(host)[i] !in host.fs.dirs
    ensures r.Failure? ==> r.error == HomeNotFound
  {
    if EnvHomeUsable(host) then Success(EnvHome(host).value)
    else match FirstSearchPath(host.fs)
      case Some(i) => Success(SearchPaths[i])
      case None => NewestGlobbedHome(host)
  }

  /** The index of the first fixed search path that holds a launcher. */
  function FirstSearchPath(fs: FileSystem): (r: Option<nat>)
    ensures r.Some? ==> IsFirstWithLauncher(fs, SearchPaths, r.value)
    ensures r.None? <==> !exists i :: 0 <= i < |SearchPaths| && HasLauncher(fs, SearchPaths[i])
  {
    FirstExisting(LauncherPaths(SearchPaths), fs)
  }

  /** The last step of `find_elasticsearch_home()`: the newest globbed
      directory by version, else an error. */
  function NewestGlobbedHome(host: Host): (r: Result<string, string>)
    ensures |CandidateDirs(host, Globbed(host))| > 0 ==>
              exists k :: IsNewest(StripVersion, CandidateDirs(host, Globbed(host)), k) &&
                          r == Success(CandidateDirs(host, Globbed(host))[k])
    ensures r.Failure? <==> forall i :: 0 <= i < |Globbed(host)| ==> Globbed(host)[i] !in host.fs.dirs
    ensures r.Failure? ==> r.error == HomeNotFound
  {
    var dirs := CandidateDirs(host, Globbed(host));
    if |dirs| > 0 then
      SortByKeyLast(StripVersion, dirs);
      Success(Last(SortByKey(StripVersion, dirs)))
    else Failure(HomeNotFound)
  }

  /** The configuration files tried, in order: the `conf` layout, the
      official package's `config` layout, then the system-wide file. */
  function YamlCandidates(home: string): seq<string> {
    [Join(Join(home, "conf"), "elasticsearch.yml"),
     Join(Join(home, "config"), "elasticsearch.yml"),
     "/etc/elasticsearch/elasticsearch.yml"]
  }

  /** The first of `paths` that exists, else the configuration-file error. */
  function FirstExistingPath(paths: seq<string>, fs: FileSystem): (r: Result<string, string>)
    ensures r.Success? <==> exists i :: 0 <= i < |paths| && paths[i] in fs.existing
    ensures r.Success? ==> exists i :: 0 <= i < |paths| && r.value == paths[i] && r.value in fs.existing &&
                                      forall j :: 0 <= j < i ==> paths[j] !in fs.existing
    ensures r.Failure? ==> r.error == YamlNotFound
  {
    match FirstExisting(paths, fs)
    case Some(i) => Success(paths[i])
    case None => Failure(YamlNotFound)
  }

  /** `find_elasticsearch_yaml_path(home)`: the first candidate that exists,
      else an error. */
  function FindYamlPath(fs: FileSystem, home: string): (r: Result<string, string>)
    ensures var candidates := YamlCandidates(home);
            && (r.Success? <==> exists i :: 0 <= i < 3 && candidates[i] in fs.existing)
            && (r.Success? ==> exists i :: 0 <= i < 3 && r.value == candidates[i] && r.value in fs.existing &&
                                           forall j :: 0 <= j < i ==> candidates[j] !in fs.existing)
    ensures r.Failure? ==> r.error == YamlNotFound
  {
    FirstExistingPath(YamlCandidates(home), fs)
  }
}
