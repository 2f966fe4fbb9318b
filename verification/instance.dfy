/** The `Elasticsearch` instance as far as its own code goes: `initialize`
    resolves the install home, locates the configuration file and builds the
    merged mapping; `prestart`, `dsn` and `is_server_available` then read or
    re-pin the port in it. */
module Instance {
  import opened Wrappers
  import opened Text
  import opened YamlConfig
  import opened Platform
  import opened Locator
  import opened ClusterName
  import opened Health

  /** The settings `initialize` consults: `elasticsearch_home`, `port`,
      `copy_data_from` and `elasticsearch_yaml` (an absent or empty override
      mapping is the empty map). */
  datatype Settings = Settings(
    home: Option<string>,
    port: Option<int>,
    copyDataFrom: Option<string>,
    userConfig: Config)

  /** `DEFAULT_SETTINGS` as far as `initialize` reads it: no home, no port,
      nothing to copy, no overrides. */
  const DefaultSettings: Settings := Settings(None, None, None, map[])

  /** The state `initialize` leaves: the resolved home, the configuration
      file it read, and `elasticsearch_yaml`. */
  datatype Instance = Instance(home: string, yamlPath: string, config: Config)

  /** `settings['elasticsearch_home']`, falling back to the search when it is
      `None` (an empty string is kept as given). */
  function ResolveHome(s: Settings, host: Host): (r: Result<string, string>)
    ensures s.home.Some? ==> r == Success(s.home.value)
    ensures s.home.None? ==> r == FindHome(host)
    ensures r.Failure? ==> r.error == HomeNotFound
  {
    match s.home
    case Some(h) => Success(h)
    case None => FindHome(host)
  }

  /** The mapping `initialize` builds from the loaded mapping: the file's
      contents under the six system values, under the user's overrides. */
  function Configure(s: Settings, loaded: Config, baseDir: string, picks: seq<nat>): (cfg: Config)
    requires ValidPicks(picks)
    ensures cfg.Keys == loaded.Keys + SystemKeys + s.userConfig.Keys
    ensures forall k :: k in s.userConfig ==> cfg[k] == s.userConfig[k]
    ensures forall k :: k in loaded && k !in SystemKeys && k !in s.userConfig ==> cfg[k] == loaded[k]
    ensures NetworkHost !in s.userConfig ==> cfg[NetworkHost] == Str(Loopback)
    ensures HttpPort !in s.userConfig ==> cfg[HttpPort] == PortValue(s.port)
    ensures PathData !in s.userConfig ==> cfg[PathData] == Str(DataDirectory(baseDir))
    ensures PathLogs !in s.userConfig ==> cfg[PathLogs] == Str(LogsDirectory(baseDir))
    ensures MulticastEnabled !in s.userConfig ==> cfg[MulticastEnabled] == Bool(false)
    ensures ClusterNameKey !in s.userConfig ==> cfg[ClusterNameKey] == Str(GenerateClusterName(picks))
    ensures ClusterNameKey !in s.userConfig ==> cfg[ClusterNameKey].Str? && IsClusterName(cfg[ClusterNameKey].s)
  {
    var name := GenerateClusterName(picks);
    var cfg := MergeConfig(loaded, s.port, baseDir, name, s.userConfig);
    SystemSettingsValues(s.port, baseDir, name);
    cfg
  }

  /** `initialize()`. `picks` are the six draws `random.choice` makes for the
      cluster name. It fails when no home is found, when no configuration
      file is found, when `yaml.load` raises, or when the document is truthy
      but not a mapping. */
  function Initialize(s: Settings, host: Host, baseDir: string, picks: seq<nat>): (r: Result<Instance, string>)
    requires ValidPicks(picks)
    ensures ResolveHome(s, host).Failure? ==> r == Failure(HomeNotFound)
    ensures ResolveHome(s, host).Success? && FindYamlPath(host.fs, ResolveHome(s, host).value).Failure? ==>
              r == Failure(YamlNotFound)
    ensures ResolveHome(s, host).Success? && FindYamlPath(host.fs, ResolveHome(s, host).value).Success? ==>
              var doc := host.loadYaml(FindYamlPath(host.fs, ResolveHome(s, host).value).value);
              && (doc.Failure? ==> r == Failure(doc.error))
              && (doc.Success? && BaseMapping(doc.value).Failure? ==> r == Failure(NotAMapping))
              && (r.Success? <==> doc.Success? && BaseMapping(doc.value).Success?)
    ensures r.Success? ==>
              && r.value.home == ResolveHome(s, host).value
              && r.value.yamlPath == FindYamlPath(host.fs, r.value.home).value
              && r.value.yamlPath in host.fs.existing
              && r.value.config == Configure(s, BaseMapping(host.loadYaml(r.value.yamlPath).value).value, baseDir, picks)
  {
    match ResolveHome(s, host)
    case Failure(e) => Failure(e)
    case Success(home) =>
      match FindYamlPath(host.fs, home)
      case Failure(e) => Failure(e)
      case Success(yamlPath) =>
        match host.loadYaml(yamlPath)
        case Failure(e) => Failure(e)
        case Success(doc) =>
          match BaseMapping(doc)
          case Failure(e) => Failure(e)
          case Success(loaded) => Success(Instance(home, yamlPath, Configure(s, loaded, baseDir, picks)))
  }

  /** Every six-letter cluster name is one `initialize` can produce: for any
      such name some draws put it into the mapping. */
  lemma {:induction false} InitializeCanNameAnyCluster(s: Settings, loaded: Config, baseDir: string, name: string)
    requires IsClusterName(name)
    requires ClusterNameKey !in s.userConfig
    ensures Configure(s, loaded, baseDir, PicksOf(name))[ClusterNameKey] == Str(name)
  {
    GenerateCoversEveryName(name);
  }

  /** Once `prestart` has pinned a port, `dsn` succeeds and names that port,
      whatever the mapping held before. */
  lemma {:induction false} DsnNamesPinnedPort(inst: Instance, port: nat)
    ensures MakeDsn(Prestart(inst.config, port)).Success?
    ensures ParseHostPort(MakeDsn(Prestart(inst.config, port)).value.hosts[0]) == Some(port)
  {
    DsnAfterPrestart(inst.config, port);
  }

  /** Once `prestart` has pinned a port, the availability probe asks that
      port's health URL and answers exactly what the status there says. */
  lemma {:induction false} ProbeUsesPinnedPort(inst: Instance, port: nat, fetch: string -> HealthResponse)
    ensures IsServerAvailable(Prestart(inst.config, port), fetch) <==>
              ReportsHealthy(fetch(HealthUrl(FormatNat(port))))
  {
    var cfg := Prestart(inst.config, port);
    assert PortText(cfg) == Success(FormatInt(port));
  }

  /** Before a port has been allocated, `dsn` fails and the server never
      reads as available, unless the user put `http.port` in the overrides. */
  lemma UnallocatedPortIsUnusable(s: Settings, loaded: Config, baseDir: string, picks: seq<nat>, fetch: string -> HealthResponse)
    requires ValidPicks(picks)
    requires s.port.None? && HttpPort !in s.userConfig
    ensures MakeDsn(Configure(s, loaded, baseDir, picks)).Failure?
    ensures !IsServerAvailable(Configure(s, loaded, baseDir, picks), fetch)
  {
  }

  /** With the default settings no port has been allocated yet: `http.port`
      is `None` and `dsn` raises. */
  lemma DefaultSettingsHaveNoPort(loaded: Config, baseDir: string, picks: seq<nat>)
    requires ValidPicks(picks)
    ensures Configure(DefaultSettings, loaded, baseDir, picks)[HttpPort] == Null
    ensures MakeDsn(Configure(DefaultSettings, loaded, baseDir, picks)).Failure?
  {
  }
}
