# testing.elasticsearch, modelled in Dafny

`testing.elasticsearch` starts a throw-away Elasticsearch server for a test
run. It works in four steps:

- It locates an installed distribution, the "home".
- It builds a private workspace directory (`base_dir`) that mirrors the home.
- It writes a merged `elasticsearch.yml` into the workspace that pins the
  server to the loopback address, to a fresh port and to a random cluster
  name.
- It then reports the connection address (`dsn`) and probes the server's
  `_cluster/health` endpoint.

This project models the decision logic of `src/testing/elasticsearch.py` and
proves properties of it. The operating system is reduced to data: the
`Platform.Host` datatype holds the environment, which paths exist and which
are directories, and the answers of `glob`, `listdir`, `abspath`, file reads
and YAML loading.

Modules, one per concern of the source file:

| module | models |
|---|---|
| `Wrappers` | `Option` and `Result`, the latter standing for a raised exception |
| `Text` | decimal digits, `'%d'` formatting |
| `PosixPath` | `os.path.join` and `os.path.dirname` |
| `Version` | `strip_version`, the order on version keys, Python's stable `sorted(...)[-1]` |
| `ClusterName` | `generate_cluster_name` |
| `YamlConfig` | YAML values, the configuration merge of `initialize`, `prestart`'s port re-pin, `dsn`, `get_data_directory` |
| `Platform` | the abstract host |
| `Locator` | `find_elasticsearch_home`, `find_elasticsearch_yaml_path` |
| `Health` | the status rule of `is_server_available` |
| `LauncherPatch` | `re.sub('ES_HOME=.*', '', text)` |
| `Staging` | `initialize_database` |
| `Instance` | `initialize`, and how `prestart`, `dsn` and the probe fit together |

Points where the code behaves differently from what a reader might expect:

- An override of `network.host` wins. The code applies the user's
  overrides after pinning `network.host` to `127.0.0.1`
  (`YamlConfig.UserOverridesWin`).
- The staging loop tests the wrong path for `conf`, so a reused workspace
  makes it raise (see "Findings").
- The launcher is rewritten without truncating the file, so an `ES_HOME=`
  can survive in it (see "Findings").
- After copying data, the entry that is renamed is the first one `listdir`
  reports for the *source* directory, not for the copy
  (`Staging.CopiedDataRename`).

Both defects are modelled twice. `Staging.Revision` selects the code as
written (`AsWritten`) or the corrected code (`Corrected`), and the
properties of each are proved.

## Model

| member | source | states |
|---|---|---|
| Version.StripVersionIsLeftmostMatch | src/testing/elasticsearch.py:142-147 | `strip_version` gives no key exactly when no position holds `digits.digits.digits`; otherwise the key is the three numbers at the leftmost such position |
| Version.StripVersion | src/testing/elasticsearch.py:142-147 | the key of a directory name; what it returns is stated by `StripVersionIsLeftmostMatch` and `StripVersionOfName` |
| Version.StripVersionOfName | src/testing/elasticsearch.py:142-147 | a directory name `prefix a.b.c suffix` yields `(a, b, c)` when the prefix has no digits and the suffix does not continue the last number |
| Version.SearchFrom | src/testing/elasticsearch.py:143 | `re.search` scanning from a position finds the leftmost match at or after it and nothing before it |
| Version.DigitRunEnd | src/testing/elasticsearch.py:143 | returns the end of the maximal run of digits starting at a position, where a greedy `\d+` stops |
| Version.MatchAt | src/testing/elasticsearch.py:143 | the regex `(\d+)\.(\d+)\.(\d+)` tried at one position; `Version.MatchAtIsGreedyMatch` states that it agrees with the regex |
| Version.MatchAtIsGreedyMatch | src/testing/elasticsearch.py:143 | a match exists at a position exactly when `MatchAt` succeeds. Every match there has the same first two groups, and `MatchAt` returns the groups of the one whose third group is longest, which is the match backtracking tries first |
| Version.KeyLeTotalOrder | src/testing/elasticsearch.py:167 | version keys are totally ordered: a missing version is lowest, and triples compare lexicographically as Python tuples do |
| Version.SortByKey | src/testing/elasticsearch.py:167 | `sorted(dirs, key=strip_version)` is a permutation of its input, ordered by key |
| Version.InsertByKeySorted | src/testing/elasticsearch.py:167 | inserting one directory into a key-ordered list keeps it ordered and a permutation |
| Version.NewestIndex | src/testing/elasticsearch.py:166-167 | a non-empty list has an entry with the highest key after which only strictly lower keys follow |
| Version.NewestIsUnique | src/testing/elasticsearch.py:167 | at most one entry has that property |
| Version.SortByKeyLast | src/testing/elasticsearch.py:167 | `sorted(...)[-1]` is exactly that entry, the last of the directories sharing the highest version |
| Locator.FirstExisting | src/testing/elasticsearch.py:157-159 | the first path of a list that exists is chosen; no path before it exists |
| Locator.CandidateDirs | src/testing/elasticsearch.py:165 | exactly the globbed paths that are directories survive, each made absolute; every globbed directory is in the result; the list is empty exactly when none is a directory |
| Locator.CandidateDirsAppend | src/testing/elasticsearch.py:162-165 | filtering the concatenated glob results is concatenating the filtered results, so glob order is kept |
| Locator.CandidateDirsSingle | src/testing/elasticsearch.py:165 | one globbed path contributes its absolute form exactly when it is a directory |
| Locator.FindHome | src/testing/elasticsearch.py:150-169 | a non-empty `ES_HOME` with `bin/elasticsearch` wins; otherwise the first search path with a launcher; otherwise the newest globbed directory; the error `could not find ES_HOME` is raised exactly when all three fail |
| Locator.EnvHome | src/testing/elasticsearch.py:151-153 | `ES_HOME` is used exactly when it is set and non-empty, made absolute |
| Locator.FindYamlPath | src/testing/elasticsearch.py:172-179 | the first of `conf/elasticsearch.yml`, `config/elasticsearch.yml` and `/etc/elasticsearch/elasticsearch.yml` that exists; `could not find elasticsearch.yml` exactly when none exists |
| PosixPath.Join | src/testing/elasticsearch.py:59 | an absolute second part replaces the first; after an empty first part or one ending in `/` the parts are concatenated; otherwise they are joined with one `/` |
| PosixPath.DirName | src/testing/elasticsearch.py:99 | the part of the path up to its last `/`, with only trailing separators removed, and those kept when the head is separators only; a path without `/` has an empty directory |
| PosixPath.DirNameOfJoin | src/testing/elasticsearch.py:99 | `dirname(join(d, name)) == d` for a single path component `name` |
| ClusterName.GenerateClusterName | src/testing/elasticsearch.py:182-186 | the generated name has six characters, each an ASCII letter |
| ClusterName.GenerateCoversEveryName | src/testing/elasticsearch.py:182-186 | every six-letter name is produced by some sequence of draws |
| ClusterName.PicksOfGenerate | src/testing/elasticsearch.py:182-186 | different draws give different names, so the draws can be read back from the name |
| YamlConfig.MergeConfig | src/testing/elasticsearch.py:55-66 | the merged keys are the file's keys, the six system keys and the user's keys; user values win; system keys the user did not set hold the forced values; other keys of the file are kept |
| YamlConfig.Overlay | src/testing/elasticsearch.py:64-66 | assigning every item of the top mapping into the base mapping: the keys of both, the top's values for its keys and the base's values for the rest |
| YamlConfig.Truthy | src/testing/elasticsearch.py:56 | Python truthiness of a YAML value, as `or {}` uses it here and the test at line 76 uses it for the data rename; `YamlConfig.FalsyValues` lists the falsy values |
| YamlConfig.FalsyValues | src/testing/elasticsearch.py:56 | a value is falsy exactly when it is `""`, `0`, `0.0`, `False`, `None`, `[]` or `{}` |
| YamlConfig.BaseMapping | src/testing/elasticsearch.py:56 | `yaml.load(...) or {}` gives the empty mapping for a falsy document and the document itself for a mapping; any other document raises when the first key is assigned |
| YamlConfig.MergeWithoutOverrides | src/testing/elasticsearch.py:56-62 | without overrides the mapping has loopback binding, the given port, `<base_dir>/data`, `<base_dir>/logs`, the cluster name and multicast off, whatever the file said |
| YamlConfig.UserOverridesWin | src/testing/elasticsearch.py:64-66 | every key the user names takes the user's value, `network.host` included |
| YamlConfig.DataDirectoryInConfig | src/testing/elasticsearch.py:59 | `path.data` in the mapping is the directory `get_data_directory` returns unless overridden |
| YamlConfig.DataDirectory | src/testing/elasticsearch.py:71-72 | the data directory is `<base_dir>/data`, or `<base_dir>data` when `base_dir` is empty or already ends in `/` |
| YamlConfig.Prestart | src/testing/elasticsearch.py:107-111 | `http.port` becomes the allocated port and no other key changes |
| YamlConfig.PrestartIdempotent | src/testing/elasticsearch.py:111 | pinning the same port twice is the same as once |
| YamlConfig.PortText | src/testing/elasticsearch.py:69 | `'%d' %` succeeds exactly for a present integer, float or boolean port; an integer formats as its decimal digits without a leading zero, after `-` when negative; a float formats as its integer part rounded toward zero, so a value in (-1, 0) gives `0`; `True` gives `1` and `False` gives `0` |
| Text.FormatNat | src/testing/elasticsearch.py:69 | `'%d'` of a non-negative number: non-empty decimal digits without a leading zero (except `0` itself) whose value is the number |
| Text.FormatInt | src/testing/elasticsearch.py:69 | `'%d'` of an integer: the digits of a non-negative number, or `-` followed by the digits of its magnitude, with no leading zero except for `0` itself |
| YamlConfig.Truncate | src/testing/elasticsearch.py:69 | a float is rounded toward zero: the result is within one of it, on the side of zero |
| YamlConfig.MakeDsn | src/testing/elasticsearch.py:68-69 | `dsn` succeeds exactly when the port formats, and returns one address beginning `127.0.0.1:` |
| YamlConfig.DsnNamesConfiguredPort | src/testing/elasticsearch.py:68-69 | the address `dsn` returns is `127.0.0.1:` followed by the port's shortest numeral, and it parses back to that port |
| YamlConfig.DsnAfterPrestart | src/testing/elasticsearch.py:68-69 | after `prestart` the address names the allocated port |
| YamlConfig.DsnForPort12345 | tests/test_elasticsearch.py:63-65 | with port 12345 `dsn` returns `{'hosts': ['127.0.0.1:12345']}` |
| YamlConfig.DsnWithoutPortFails | src/testing/elasticsearch.py:58 | before a port is allocated `http.port` is `None` and `dsn` raises |
| Health.IsServerAvailable | src/testing/elasticsearch.py:120-129 | available exactly when the port formats and the response at the health URL decodes to an object whose `status` is green or yellow |
| Health.ReportsHealthy | src/testing/elasticsearch.py:124-129 | a response is healthy when it decodes to an object whose `status` is green or yellow; stated by `HealthyIffGreenOrYellow` and `FailuresAreUnavailable` |
| Health.HealthyIffGreenOrYellow | src/testing/elasticsearch.py:124-127 | a document with a `status` field is healthy exactly for `green` and `yellow` |
| Health.FailuresAreUnavailable | src/testing/elasticsearch.py:128-129 | no answer, an undecodable body, a non-object or a missing `status` all read as unavailable |
| LauncherPatch.MarkerIndex | src/testing/elasticsearch.py:103 | no position is found exactly when `ES_HOME=` occurs nowhere; otherwise the position found holds it and no earlier position does |
| LauncherPatch.StripEsHome | src/testing/elasticsearch.py:103 | the substitution never lengthens the text; its meaning is stated by `StripRemovesMarker`, `StripWithoutMarker` and `StripIsLineWiseCut` |
| LauncherPatch.StripRemovesMarker | src/testing/elasticsearch.py:103 | the text `re.sub` returns contains no `ES_HOME=` |
| LauncherPatch.StripWithoutMarker | src/testing/elasticsearch.py:103 | a text without `ES_HOME=` is left unchanged |
| LauncherPatch.StripIdempotent | src/testing/elasticsearch.py:103 | patching twice is the same as patching once |
| LauncherPatch.StripKeepsLinePrefix | src/testing/elasticsearch.py:103 | anything the patched text starts with, up to the first newline, the original started with too |
| LauncherPatch.UnlinesLines | src/testing/elasticsearch.py:103 | splitting a text at newlines and joining the pieces gives the text back |
| LauncherPatch.StripLine | src/testing/elasticsearch.py:103 | on one line the substitution keeps exactly the part before the first `ES_HOME=` |
| LauncherPatch.StripIsLineWiseCut | src/testing/elasticsearch.py:103 | the substitution equals cutting each line at its first `ES_HOME=` and keeping every newline |
| LauncherPatch.RewriteInPlace | src/testing/elasticsearch.py:102-105 | writing from the start of a file without truncating it leaves the written text followed by whatever of the old contents lies beyond it |
| LauncherPatch.RewrittenLauncherKeepsTail | src/testing/elasticsearch.py:102-105 | the launcher on disk is as long as the original and is the substituted text followed by the original's last characters |
| LauncherPatch.StripTwoAssignments | src/testing/elasticsearch.py:103 | two `ES_HOME=` lines are reduced to their two newlines |
| LauncherPatch.LeftoverMarkerAsWritten | src/testing/elasticsearch.py:102-105 | for the two lines `ES_HOME=a` and `ES_HOME=b`, the launcher left on disk still contains `ES_HOME=` |
| Staging.EntryAction | src/testing/elasticsearch.py:82-94 | an entry is kept exactly when the checked path exists; otherwise `lib` and `plugins` are linked, `conf` and directories copied as trees, anything else copied as a file, always from the home entry to its destination |
| Staging.CorrectedNeverOverwrites | src/testing/elasticsearch.py:85-90 | with the corrected test an entry is kept exactly when its destination exists, and an action never targets an existing path |
| Staging.Apply | src/testing/elasticsearch.py:87-94 | `symlink` fails exactly when the destination exists, `copytree` exactly when the source is not a directory or the destination exists; after a successful action the destination exists and nothing disappears |
| Staging.StageEntries | src/testing/elasticsearch.py:82-94 | successful staging takes one action per entry and removes nothing |
| Staging.StagedEntriesPresent | src/testing/elasticsearch.py:82-94 | after successful staging, under either test, each entry was found in place or its destination was created |
| Staging.CorrectedStagingSucceeds | src/testing/elasticsearch.py:82-94 | with the corrected test, staging succeeds whenever a listed `conf` is a directory, and afterwards every entry's destination exists |
| Staging.ConfReuseFailsAsWritten | src/testing/elasticsearch.py:85-90 | as written, a reused workspace holding `config` and a home holding `conf` make staging fail; the corrected test keeps the entry |
| Staging.CopiedDataRename | src/testing/elasticsearch.py:75-79 | nothing is renamed unless both the source and the cluster name are truthy; with a truthy source, a non-empty string name and a non-empty listing, the source's first entry is renamed to the cluster name inside `<base_dir>/data`; a missing name, an empty listing or a truthy non-string name raise |
| Staging.StageWorkspace | src/testing/elasticsearch.py:81-99 | after staging, a missing configuration file raises; a file inside the home needs nothing more; for a file outside it, the copy of its directory to `<base_dir>/config` succeeds exactly when that directory is a directory and `config` does not exist yet, and then `config` exists; nothing disappears, and with the corrected test every entry's destination exists |
| Staging.PatchLauncher | src/testing/elasticsearch.py:101-105 | the launcher can be patched exactly when it can be opened, and it then begins with the substituted text; as written the file keeps its length and the original's tail; corrected, it is exactly the substituted text and contains no `ES_HOME=` |
| Staging.Rename | src/testing/elasticsearch.py:78-79 | `os.rename` fails exactly when the source is missing, or when a different destination exists with a directory on either side; otherwise the source is gone, the destination exists, and it is a directory exactly when the source was |
| Staging.RenameBack | src/testing/elasticsearch.py:78-79 | renaming to a fresh name and back restores the file system |
| Staging.RenameCopiedData | src/testing/elasticsearch.py:75-79 | performs the decided rename: succeeds exactly when the decision and the rename succeed; afterwards the old data directory is gone, the new one exists, and every other path is kept |
| Staging.InitializeDatabase | src/testing/elasticsearch.py:74-105 | renames the copied data first, then stages into the renamed file system, then patches the launcher. It succeeds exactly when all three succeed, and its file system is the staged renamed one. Every existing path except the rename's source is kept, and the new data directory exists. The launcher is `PatchLauncher`'s result, so as written it keeps the old tail. Corrected, every entry's destination exists and the launcher has no `ES_HOME=` |
| Instance.ResolveHome | src/testing/elasticsearch.py:49-51 | an explicit home is used as given; otherwise the search decides, failing only with `could not find ES_HOME` |
| Instance.Configure | src/testing/elasticsearch.py:55-66 | the mapping's keys are the loaded keys, the system keys and the user's keys; user values win; other loaded keys are kept; keys the user did not set hold loopback binding, the given port, `<base_dir>/data`, `<base_dir>/logs`, multicast off and the cluster name generated from the draws, a six-letter name |
| Instance.Initialize | src/testing/elasticsearch.py:48-66 | fails with `could not find ES_HOME` when no home resolves, with `could not find elasticsearch.yml` when no file is found, with the parser's error when `yaml.load` raises, and when the document is neither falsy nor a mapping; otherwise records the home and file found and builds the mapping from the loaded document |
| Instance.InitializeCanNameAnyCluster | src/testing/elasticsearch.py:61 | any six-letter cluster name can end up in the mapping |
| Instance.DsnNamesPinnedPort | src/testing/elasticsearch.py:68-69 | after `prestart`, `dsn` succeeds and names the pinned port |
| Instance.ProbeUsesPinnedPort | src/testing/elasticsearch.py:120-125 | after `prestart` the probe asks the pinned port's health URL and answers what its status says |
| Instance.UnallocatedPortIsUnusable | src/testing/elasticsearch.py:58 | with no port allocated and none overridden, `dsn` fails and the server never reads as available |
| Instance.DefaultSettingsHaveNoPort | src/testing/elasticsearch.py:39-45 | with the default settings (no port) `http.port` is `None` and `dsn` raises |

## Left out

- The lifecycle of the `Database` base class is not part of this model. That covers `setup`, `start`, `stop`, the cleanup of `base_dir`, the creation of the `subdirectories` (`data`, `logs`; line 46), the copy of `copy_data_from` into `data`, and port allocation. The code for these lives outside the modelled file.
- `DEFAULT_SETTINGS` (lines 39-45) is modelled only for the settings `initialize` reads, as `Instance.DefaultSettings`. `auto_start`, `base_dir`, `pid` and `boot_timeout` serve the lifecycle only.
- Starting the server process, signals, `boot_timeout` and waiting for readiness are left out: they are I/O and time.
- `get_server_commandline` is left out: it only joins a constant path.
- Writing `config/elasticsearch.yml` in `prestart` is left out. YAML serialisation is I/O, and the mapping written is the modelled one.
- YAML parsing is `Host.loadYaml`, which returns the document or the parser's error. YAML scalar types other than strings, integers, floats, booleans and null (dates, binary data) are not modelled.
- `os.path.realpath`, applied before reading the configuration file, is dropped: the file is read by the path found.
- YamlConfig.PortText: an infinite or NaN port, which `'%d'` rejects, is not representable, because `Float` holds a real number.
- LauncherPatch.RewriteInPlace: counts characters of the decoded text, while the file is overwritten byte by byte in the locale's encoding, with `\r\n` read as `\n` under Python 3. So the model is exact for ASCII launchers with `\n` line ends.
- HTTP and JSON decoding are left out. The fetch is a parameter returning no answer, an undecodable body, or a decoded document.
- `random.choice` is replaced by the six draws it makes, given as a parameter.
- `os.path.abspath` is a function of the host, without normalisation.
- The order of `glob` and `listdir` results is an input, as the operating system decides it.
- `copytree` and `copyfile` are tracked only at the destination path, not the files copied below it. Symlinks are recorded as existing paths, not followed. The file system does not force the parent of an existing file to be a directory.
- Version.StripVersion: `\d` is modelled as the ASCII digits, not every Unicode decimal digit.
- Version.KeyLe: a directory without a version sorts lowest, as under Python 2. Python 3 raises `TypeError` when comparing `None` with a tuple.
- Staging.Rename: the file system does not record whether a directory is empty, so renaming onto an existing directory always fails in the model. POSIX `rename` replaces an empty directory. Only the renamed path moves; paths tracked below it keep their names.
- Exceptions carry short messages naming the Python exception, not Python's exact text.
- The skip decorator `skipIfNotFound` is left out: it only calls the home search.

## Findings

| source | as written | input that shows it | evidently intended | confidence | as-written member | corrected member |
|---|---|---|---|---|---|---|
| src/testing/elasticsearch.py:84-90 | for the entry `conf` the loop tests whether `<base_dir>/conf` exists, but copies it to `<base_dir>/config` | a reused `base_dir` that already holds `config`, and a home holding `conf`: the test passes and `copytree` raises because `config` exists | test the path that will be created (`<base_dir>/config`), so an existing destination is never overwritten and reuse works | not executed | Staging.ConfReuseFailsAsWritten | Staging.CorrectedStagingSucceeds |
| src/testing/elasticsearch.py:102-105 | the launcher is opened `r+`, rewritten from its start with the substituted text, and never truncated | a launcher of the two lines `ES_HOME=a` and `ES_HOME=b`: the substituted text is two newlines, and the file keeps `_HOME=a`, a newline and `ES_HOME=b` behind them | truncate the file after writing, so it holds exactly the substituted text and no `ES_HOME=` | not executed | LauncherPatch.LeftoverMarkerAsWritten | Staging.PatchLauncher |
