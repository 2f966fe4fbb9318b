/** The `elasticsearch_yaml` mapping: what `initialize` builds from the
    distribution's file, what `prestart` re-pins, and what `dsn` and the
    data-directory accessor read back. */
module YamlConfig {
  import opened Wrappers
  import opened Text
  import opened PosixPath

  /** A YAML value as `yaml.load` returns it. */
  datatype Value =
    | Str(s: string)
    | Int(i: int)
    | Float(f: real)
    | Bool(b: bool)
    | Null
    | List(items: seq<Value>)
    | Mapping(entries: map<string, Value>)

  type Config = map<string, Value>

  /** Python truthiness of a YAML value. */
  predicate Truthy(v: Value) {
    match v
    case Str(s) => s != ""
    case Int(i) => i != 0
    case Float(f) => f != 0.0
    case Bool(b) => b
    case Null => false
    case List(items) => |items| > 0
    case Mapping(entries) => |entries| > 0
  }

  /** The falsy values are exactly the empty and zero ones. */
  lemma FalsyValues(v: Value)
    ensures !Truthy(v) <==> v == Str("") || v == Int(0) || v == Float(0.0) || v == Bool(false) ||
                            v == Null || v == List([]) || v == Mapping(map[])
  {
    if v.Mapping? && |v.entries| == 0 {
      assert v.entries == map[];
    }
  }

  const NotAMapping: string := "TypeError: the document is not a mapping"

  /** `yaml.load(text) or {}`, about to have keys assigned: a falsy document
      (empty, `null`, `{}`, `0`, ...) becomes the empty mapping, a mapping is
      used as it is, and any other document makes the first item assignment
      raise. */
  function BaseMapping(doc: Value): (r: Result<Config, string>)
    ensures r.Success? <==> !Truthy(doc) || doc.Mapping?
    ensures r.Success? && doc.Mapping? ==> r.value == doc.entries
    ensures r.Success? && !doc.Mapping? ==> r.value == map[]
    ensures r.Failure? ==> r.error == NotAMapping
  {
    if !Truthy(doc) then Success(map[])
    else if doc.Mapping? then Success(doc.entries)
    else Failure(NotAMapping)
  }

  const NetworkHost: string := "network.host"
  const HttpPort: string := "http.port"
  const PathData: string := "path.data"
  const PathLogs: string := "path.logs"
  const ClusterNameKey: string := "cluster.name"
  const MulticastEnabled: string := "discovery.zen.ping.multicast.enabled"

  /** The keys `initialize` writes itself. */
  const SystemKeys: set<string> := {NetworkHost, HttpPort, PathData, PathLogs, ClusterNameKey, MulticastEnabled}

  const Loopback: string := "127.0.0.1"

  /** `settings['port']`, which is `None` until a port has been allocated. */
  function PortValue(port: Option<int>): Value {
    match port
    case Some(p) => Int(p)
    case None => Null
  }

  /** `os.path.join(base_dir, 'data')`. */
  function DataDirectory(baseDir: string): (r: string)
    ensures StartsWith(r, baseDir) && EndsWith(r, "data")
    ensures |baseDir| > 0 && baseDir[|baseDir| - 1] != '/' ==> r == baseDir + "/data"
    ensures (|baseDir| == 0 || baseDir[|baseDir| - 1] == '/') ==> r == baseDir + "data"
  {
    Join(baseDir, "data")
  }

  function LogsDirectory(baseDir: string): string {
    Join(baseDir, "logs")
  }

  /** The six values `initialize` assigns, keyed by the names it assigns
      them to. */
  function SystemSettings(port: Option<int>, baseDir: string, clusterName: string): (r: Config)
    ensures r.Keys == SystemKeys
  {
    map[NetworkHost := Str(Loopback),
        HttpPort := PortValue(port),
        PathData := Str(DataDirectory(baseDir)),
        PathLogs := Str(LogsDirectory(baseDir)),
        ClusterNameKey := Str(clusterName),
        MulticastEnabled := Bool(false)]
  }

  /** Each system key holds the value assigned to it. */
  lemma SystemSettingsValues(port: Option<int>, baseDir: string, clusterName: string)
    ensures var r := SystemSettings(port, baseDir, clusterName);
            && r[NetworkHost] == Str(Loopback)
            && r[HttpPort] == PortValue(port)
            && r[PathData] == Str(DataDirectory(baseDir))
            && r[PathLogs] == Str(LogsDirectory(baseDir))
            && r[ClusterNameKey] == Str(clusterName)
            && r[MulticastEnabled] == Bool(false)
  {
  }

  /** `for key, value in top.items(): base[key] = value`. */
  function Overlay(base: Config, top: Config): (r: Config)
    ensures r.Keys == base.Keys + top.Keys
    ensures forall k :: k in top ==> r[k] == top[k]
    ensures forall k :: k in base && k !in top ==> r[k] == base[k]
  {
    base + top
  }

  /** The mapping `initialize` leaves in `elasticsearch_yaml`: the loaded
      mapping, then the six system values, then the user's overrides. */
  function MergeConfig(loaded: Config, port: Option<int>, baseDir: string, clusterName: string, user: Config): (r: Config)
    ensures r.Keys == loaded.Keys + SystemKeys + user.Keys
    ensures forall k :: k in user ==> r[k] == user[k]
    ensures forall k :: k in SystemKeys && k !in user ==> r[k] == SystemSettings(port, baseDir, clusterName)[k]
    ensures forall k :: k in loaded && k !in SystemKeys && k !in user ==> r[k] == loaded[k]
  {
    Overlay(Overlay(loaded, SystemSettings(port, baseDir, clusterName)), user)
  }

  /** Without user overrides the six system keys hold exactly the forced
      values, whatever the distribution's file says. */
  lemma MergeWithoutOverrides(loaded: Config, port: Option<int>, baseDir: string, clusterName: string)
    ensures var r := MergeConfig(loaded, port, baseDir, clusterName, map[]);
            && r[NetworkHost] == Str("127.0.0.1")
            && r[HttpPort] == PortValue(port)
            && r[PathData] == Str(Join(baseDir, "data"))
            && r[PathLogs] == Str(Join(baseDir, "logs"))
            && r[ClusterNameKey] == Str(clusterName)
            && r[MulticastEnabled] == Bool(false)
  {
    SystemSettingsValues(port, baseDir, clusterName);
  }

  /** The user's overrides win for every key they name, `network.host`
      included. */
  lemma UserOverridesWin(loaded: Config, port: Option<int>, baseDir: string, clusterName: string, user: Config, k: string)
    requires k in user
    ensures MergeConfig(loaded, port, baseDir, clusterName, user)[k] == user[k]
  {
  }

  /** `path.data` in the merged mapping is the directory `get_data_directory`
      returns, unless the user overrode it. */
  lemma DataDirectoryInConfig(loaded: Config, port: Option<int>, baseDir: string, clusterName: string, user: Config)
    requires PathData !in user
    ensures MergeConfig(loaded, port, baseDir, clusterName, user)[PathData] == Str(DataDirectory(baseDir))
  {
  }

  /** `prestart`: `http.port` is set to the allocated port and no other key
      changes. */
  function Prestart(cfg: Config, port: int): (r: Config)
    ensures r.Keys == cfg.Keys + {HttpPort}
    ensures r[HttpPort] == Int(port)
    ensures forall k :: k in cfg && k != HttpPort ==> r[k] == cfg[k]
  {
    cfg[HttpPort := Int(port)]
  }

  /** Re-pinning the same port twice is the same as once. */
  lemma PrestartIdempotent(cfg: Config, port: int)
    ensures Prestart(Prestart(cfg, port), port) == Prestart(cfg, port)
  {
  }

  /** `int(f)`: a float rounded toward zero, which is what `'%d'` formats. */
  function Truncate(f: real): (n: int)
    ensures f >= 0.0 ==> 0 <= n && n as real <= f < n as real + 1.0
    ensures f < 0.0 ==> n <= 0 && n as real - 1.0 < f <= n as real
  {
    if f >= 0.0 then f.Floor else -((-f).Floor)
  }

  /** `'%d' % elasticsearch_yaml['http.port']`: a missing key raises
      `KeyError`; a value that is not a number raises `TypeError`; a float
      is truncated toward zero; a boolean formats as 1 or 0. */
  function PortText(cfg: Config): (r: Result<string, string>)
    ensures r.Success? <==> HttpPort in cfg && (cfg[HttpPort].Int? || cfg[HttpPort].Float? || cfg[HttpPort].Bool?)
    ensures HttpPort in cfg && cfg[HttpPort].Int? && cfg[HttpPort].i >= 0 ==>
              && r.Success? && |r.value| > 0 && IsDigits(r.value) && DigitsValue(r.value) == cfg[HttpPort].i
              && (r.value[0] == '0' ==> r.value == "0")
    ensures HttpPort in cfg && cfg[HttpPort].Int? && cfg[HttpPort].i < 0 ==>
              && r.Success? && |r.value| > 1 && r.value[0] == '-' && r.value[1] != '0'
              && IsDigits(r.value[1..]) && DigitsValue(r.value[1..]) == -cfg[HttpPort].i
    ensures HttpPort in cfg && cfg[HttpPort].Float? && cfg[HttpPort].f >= 0.0 ==>
              && r.Success? && |r.value| > 0 && IsDigits(r.value)
              && DigitsValue(r.value) as real <= cfg[HttpPort].f < DigitsValue(r.value) as real + 1.0
              && (r.value[0] == '0' ==> r.value == "0")
    ensures HttpPort in cfg && cfg[HttpPort].Float? && -1.0 < cfg[HttpPort].f < 0.0 ==> r == Success("0")
    ensures HttpPort in cfg && cfg[HttpPort].Float? && cfg[HttpPort].f <= -1.0 ==>
              && r.Success? && |r.value| > 1 && r.value[0] == '-' && r.value[1] != '0' && IsDigits(r.value[1..])
              && DigitsValue(r.value[1..]) as real <= -cfg[HttpPort].f < DigitsValue(r.value[1..]) as real + 1.0
    ensures HttpPort in cfg && cfg[HttpPort].Bool? ==> r == Success(if cfg[HttpPort].b then "1" else "0")
  {
    if HttpPort !in cfg then Failure("KeyError: 'http.port'")
    else match cfg[HttpPort]
      case Int(p) => Success(FormatInt(p))
      case Float(f) => Success(FormatInt(Truncate(f)))
      case Bool(b) => Success(if b then "1" else "0")
      case _ => Failure("TypeError: %d format: a number is required")
  }

  /** The keyword arguments `dsn` returns: `{'hosts': [...]}`. */
  datatype Dsn = Dsn(hosts: seq<string>)

  /** `dsn()`: one loopback `host:port` address, built from the port held in
      the mapping (valid before the server is started). */
  function MakeDsn(cfg: Config): (r: Result<Dsn, string>)
    ensures r.Success? <==> PortText(cfg).Success?
    ensures r.Success? ==> |r.value.hosts| == 1 && StartsWith(r.value.hosts[0], Loopback + ":")
  {
    var port :- PortText(cfg);
    Success(Dsn([Loopback + ":" + port]))
  }

  /** Reads the port back out of a `127.0.0.1:<port>` address. */
  function ParseHostPort(host: string): Option<nat> {
    var prefix := Loopback + ":";
    if StartsWith(host, prefix) && |host| > |prefix| && IsDigits(host[|prefix|..])
    then Some(DigitsValue(host[|prefix|..]))
    else None
  }

  /** The address `dsn` returns names the port in the mapping: parsing it back
      yields that port. */
  lemma DsnNamesConfiguredPort(cfg: Config, port: nat)
    requires HttpPort in cfg && cfg[HttpPort] == Int(port)
    ensures MakeDsn(cfg).Success?
    ensures ParseHostPort(MakeDsn(cfg).value.hosts[0]) == Some(port)
    ensures MakeDsn(cfg).value.hosts[0] == Loopback + ":" + FormatNat(port)
  {
    var host := MakeDsn(cfg).value.hosts[0];
    var prefix := Loopback + ":";
    assert host == prefix + FormatNat(port);
    assert host[|prefix|..] == FormatNat(port);
  }

  /** After `prestart` the address names the allocated port. */
  lemma DsnAfterPrestart(cfg: Config, port: nat)
    ensures ParseHostPort(MakeDsn(Prestart(cfg, port)).value.hosts[0]) == Some(port)
  {
    DsnNamesConfiguredPort(Prestart(cfg, port), port);
  }

  lemma FormatInt12345()
    ensures FormatInt(12345) == "12345"
  {
    assert FormatNat(1) == "1";
    assert FormatNat(12) == "12";
    assert FormatNat(123) == "123";
    assert FormatNat(1234) == "1234";
  }

  /** A mapping built with port 12345 gives `{'hosts': ['127.0.0.1:12345']}`. */
  lemma DsnForPort12345(loaded: Config, baseDir: string, clusterName: string)
    ensures MakeDsn(MergeConfig(loaded, Some(12345), baseDir, clusterName, map[])) == Success(Dsn(["127.0.0.1:12345"]))
  {
    MergeWithoutOverrides(loaded, Some(12345), baseDir, clusterName);
    DsnOfPort12345(MergeConfig(loaded, Some(12345), baseDir, clusterName, map[]));
  }

  lemma DsnOfPort12345(cfg: Config)
    requires HttpPort in cfg && cfg[HttpPort] == Int(12345)
    ensures MakeDsn(cfg) == Success(Dsn(["127.0.0.1:12345"]))
  {
    DsnOfIntPort(cfg, 12345);
    FormatInt12345();
    assert Loopback + ":" + "12345" == "127.0.0.1:12345";
  }

  /** An integer port is printed in decimal after the loopback address. */
  lemma DsnOfIntPort(cfg: Config, port: int)
    requires HttpPort in cfg && cfg[HttpPort] == Int(port)
    ensures MakeDsn(cfg) == Success(Dsn([Loopback + ":" + FormatInt(port)]))
  {
    assert PortText(cfg) == Success(FormatInt(port));
  }

  /** Before a port is allocated `http.port` is `None` and `dsn` fails. */
  lemma DsnWithoutPortFails(loaded: Config, baseDir: string, clusterName: string)
    ensures MakeDsn(MergeConfig(loaded, None, baseDir, clusterName, map[])).Failure?
  {
    MergeWithoutOverrides(loaded, None, baseDir, clusterName);
  }
}
