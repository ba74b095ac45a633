/** The objects behind a configuration (internal/config/types.go). Contexts that name
    one stack or cloud entry hold the same reference. */
module ObjectGraph {
  import opened Credentials
  import opened Wrappers

  /** `rest` is everything no variable can set, "" when unset. */
  datatype TlsFields = TlsFields(certFile: string, keyFile: string, caFile: string, rest: string)

  const NO_TLS := TlsFields("", "", "", "")

  class TLS {
    var fields: TlsFields

    constructor (fields: TlsFields)
      ensures this.fields == fields
    {
      this.fields := fields;
    }
  }

  /** The fields of a Grafana connection other than its TLS settings. */
  datatype Connection = Connection(
    server: string,
    user: string,
    password: string,
    apiToken: string,
    oauthToken: string,
    oauthRefreshToken: string,
    proxyEndpoint: string,
    orgId: int,
    stackId: int,
    rest: string)

  const NO_CONNECTION := Connection("", "", "", "", "", "", "", 0, 0, "")

  class GrafanaConfig {
    var connection: Connection
    var tls: TLS?

    constructor (connection: Connection, tls: TLS?)
      ensures this.connection == connection && this.tls == tls
    {
      this.connection, this.tls := connection, tls;
    }
  }

  class ProviderRow {
    var values: map<string, string>

    constructor (values: map<string, string>)
      ensures this.values == values
    {
      this.values := values;
    }
  }

  class ProviderTable {
    var rows: map<string, ProviderRow?>

    constructor (rows: map<string, ProviderRow?>)
      ensures this.rows == rows
    {
      this.rows := rows;
    }
  }

  class Rejections {
    var fields: set<Field>

    constructor (fields: set<Field>)
      ensures this.fields == fields
    {
      this.fields := fields;
    }
  }

  class StackConfig {
    var identity: string
    var layer: string
    var grafana: GrafanaConfig?
    var providers: ProviderTable?
    var rejections: Rejections?

    constructor (identity: string, layer: string, grafana: GrafanaConfig?, providers: ProviderTable?, rejections: Rejections?)
      ensures this.identity == identity && this.layer == layer
      ensures this.grafana == grafana && this.providers == providers && this.rejections == rejections
    {
      this.identity, this.layer, this.grafana, this.providers, this.rejections := identity, layer, grafana, providers, rejections;
    }
  }

  /** The fields of a cloud entry. */
  datatype Auth = Auth(identity: string, layer: string, token: string, oauthToken: string, oauthUrl: string, apiUrl: string, rest: string)

  const NO_AUTH := Auth("", "", "", "", "", "", "")

  class CloudEntry {
    var auth: Auth
    var rejections: Rejections?

    constructor (auth: Auth, rejections: Rejections?)
      ensures this.auth == auth && this.rejections == rejections
    {
      this.auth, this.rejections := auth, rejections;
    }
  }

  class Context {
    var stack: string
    var cloud: string
    var stackEntry: StackConfig?
    var cloudEntry: CloudEntry?
    var grafana: GrafanaConfig?
    var providers: ProviderTable?
    var overrides: set<Field>
    var stackSlug: string

    /** A shallow copy: the resolved views still point where those of `source` do. */
    constructor Copy(source: Context)
      ensures stack == source.stack && cloud == source.cloud && stackEntry == source.stackEntry && cloudEntry == source.cloudEntry
      ensures grafana == source.grafana && providers == source.providers && overrides == source.overrides && stackSlug == source.stackSlug
    {
      stack, cloud, stackEntry, cloudEntry := source.stack, source.cloud, source.stackEntry, source.cloudEntry;
      grafana, providers, overrides, stackSlug := source.grafana, source.providers, source.overrides, source.stackSlug;
    }
  }

  function ConnectionOf(grafana: GrafanaConfig?): Connection
    reads grafana
  {
    if grafana == null then NO_CONNECTION else grafana.connection
  }

  function TlsOf(grafana: GrafanaConfig?): TlsFields
    reads grafana, if grafana == null then null else grafana.tls
  {
    if grafana == null || grafana.tls == null then NO_TLS else grafana.tls.fields
  }

  function Rejected(rejections: Rejections?): set<Field>
    reads rejections
  {
    if rejections == null then {} else rejections.fields
  }

  function RowObjects(providers: ProviderTable?): set<ProviderRow>
    reads providers
  {
    if providers == null then {} else set row: ProviderRow | row in providers.rows.Values
  }

  function Rows(providers: ProviderTable?): map<string, Option<map<string, string>>>
    reads providers, RowObjects(providers)
  {
    if providers == null then map[]
    else map p | p in providers.rows :: if providers.rows[p] == null then None else Some(providers.rows[p].values)
  }

  method CloneGrafana(source: GrafanaConfig?) returns (copy: GrafanaConfig?)
    ensures (copy == null <==> source == null) && (copy != null ==> fresh(copy) && (copy.tls != null ==> fresh(copy.tls)))
    ensures ConnectionOf(copy) == ConnectionOf(source) && TlsOf(copy) == TlsOf(source)
  {
    if source == null {
      return null;
    }
    var tls: TLS? := null;
    if source.tls != null {
      tls := new TLS(source.tls.fields);
    }
    copy := new GrafanaConfig(source.connection, tls);
  }

  /** The rows of a write's copy: a nil row becomes an empty one. */
  function Filled(rows: map<string, Option<map<string, string>>>): map<string, Option<map<string, string>>> {
    map p | p in rows :: if rows[p].None? then Some(map[]) else rows[p]
  }

  /** Copies every row; `fill` also replaces a nil table and nil rows by empty ones. */
  method CloneProviders(source: ProviderTable?, fill: bool) returns (copy: ProviderTable?)
    ensures Rows(copy) == if fill then Filled(Rows(source)) else Rows(source)
    ensures copy == null <==> source == null && !fill
    ensures copy != null ==> fresh(copy) && fresh(RowObjects(copy))
  {
    if source == null {
      copy := null;
      if fill {
        copy := new ProviderTable(map[]);
      }
      return;
    }
    var rows: map<string, ProviderRow?> := map[];
    var remaining := source.rows.Keys;
    while remaining != {}
      invariant remaining <= source.rows.Keys && rows.Keys == source.rows.Keys - remaining
      invariant forall p :: p in rows ==> (rows[p] == null <==> source.rows[p] == null && !fill)
      invariant forall p :: p in rows && rows[p] != null ==>
                  fresh(rows[p]) && rows[p].values == if source.rows[p] == null then map[] else source.rows[p].values
    {
      var p :| p in remaining;
      remaining := remaining - {p};
      if source.rows[p] != null {
        var row := new ProviderRow(source.rows[p].values);
        rows := rows[p := row];
      } else if fill {
        var row := new ProviderRow(map[]);
        rows := rows[p := row];
      } else {
        rows := rows[p := null];
      }
    }
    copy := new ProviderTable(rows);
  }
}
