/** `is_server_available`: reading the cluster-health answer as a yes/no. */
module Health {
  import opened Wrappers
  import opened YamlConfig

  /** A decoded JSON document. */
  datatype Json =
    | JNull
    | JBool(b: bool)
    | JNumber(n: int)
    | JString(s: string)
    | JArray(items: seq<Json>)
    | JObject(fields: map<string, Json>)

  /** What fetching the health URL produced: no answer at all (connection or
      HTTP error), a body that is not UTF-8 JSON, or a decoded document. */
  datatype HealthResponse = Unreachable | Undecodable | Decoded(body: Json)

  function HealthUrl(portText: string): string {
    "http://127.0.0.1:" + portText + "/_cluster/health"
  }

  /** `ret['status'] in ('green', 'yellow')`, with every exception on the way
      (no answer, bad JSON, a body that is not an object or has no `status`)
      read as `False`. */
  predicate ReportsHealthy(response: HealthResponse) {
    && response.Decoded?
    && response.body.JObject?
    && "status" in response.body.fields
    && response.body.fields["status"] in {JString("green"), JString("yellow")}
  }

  /** `is_server_available()`: the health URL is built from `http.port`;
      formatting it can raise too, which also reads as `False`. */
  function IsServerAvailable(cfg: Config, fetch: string -> HealthResponse): (r: bool)
    ensures r <==> PortText(cfg).Success? && ReportsHealthy(fetch(HealthUrl(PortText(cfg).value)))
  {
    match PortText(cfg)
    case Failure(_) => false
    case Success(port) => ReportsHealthy(fetch(HealthUrl(port)))
  }

  /** A document carrying a `status` field is healthy exactly when that
      status is green or yellow; `red`, any other string and any non-string
      are not. */
  lemma HealthyIffGreenOrYellow(fields: map<string, Json>, status: Json)
    ensures ReportsHealthy(Decoded(JObject(fields["status" := status]))) <==>
              status == JString("green") || status == JString("yellow")
  {
  }

  /** Every failure to obtain a status reads as "not available". */
  lemma FailuresAreUnavailable(cfg: Config, fetch: string -> HealthResponse)
    requires PortText(cfg).Failure? || !fetch(HealthUrl(PortText(cfg).value)).Decoded? ||
             !fetch(HealthUrl(PortText(cfg).value)).body.JObject? ||
             "status" !in fetch(HealthUrl(PortText(cfg).value)).body.fields
    ensures !IsServerAvailable(cfg, fetch)
  {
  }
}
