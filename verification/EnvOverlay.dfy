/** Process-local overrides on the selected context (internal/config/envparse.go).
    The objects are shared the way configurations share them: contexts that name one
    stack or cloud entry hold the same reference. */
module EnvOverlay {
  import opened Credentials
  import opened ObjectGraph
  import opened Wrappers

  /** The process environment, with the two text tests applied to it. */
  datatype Environment = Environment(
    vars: map<string, string>,
    blank: string -> bool,
    parseInt: string -> Option<int>)

  const STACK_SECRETS: set<Field> := {GrafanaToken, GrafanaPassword, OAuthToken, OAuthRefreshToken, SMToken}
  const CLOUD_SECRETS: set<Field> := {CloudToken, OAuthToken}

  predicate IsCredentialVariable(name: string) {
    name in {"GRAFANA_TOKEN", "GRAFANA_PASSWORD", "GRAFANA_CLOUD_TOKEN", "GRAFANA_PROVIDER_SYNTH_SM_TOKEN"}
  }

  /** The variable is set, and not a blank credential. */
  predicate Supplies(env: Environment, name: string) {
    name in env.vars && !(IsCredentialVariable(name) && env.blank(env.vars[name]))
  }

  function Text(env: Environment, name: string, current: string): string {
    if Supplies(env, name) then env.vars[name] else current
  }

  /** An empty number leaves the field alone; a malformed one stops the overlay. */
  function Number(env: Environment, name: string, current: int): Option<int> {
    if !Supplies(env, name) || env.vars[name] == "" then Some(current) else env.parseInt(env.vars[name])
  }

  /** The credentials the process supplies itself. */
  function Overrides(env: Environment): set<Field> {
    (if Supplies(env, "GRAFANA_TOKEN") then {GrafanaToken} else {})
    + (if Supplies(env, "GRAFANA_PASSWORD") then {GrafanaPassword} else {})
    + (if Supplies(env, "GRAFANA_CLOUD_TOKEN") then {CloudToken} else {})
    + (if Supplies(env, "GRAFANA_PROVIDER_SYNTH_SM_TOKEN") then {SMToken} else {})
  }

  function Overlaid(env: Environment, c: Connection): Connection
    requires NumbersParse(env)
  {
    c.(server := Text(env, "GRAFANA_SERVER", c.server),
       user := Text(env, "GRAFANA_USER", c.user),
       password := Text(env, "GRAFANA_PASSWORD", c.password),
       apiToken := Text(env, "GRAFANA_TOKEN", c.apiToken),
       proxyEndpoint := Text(env, "GRAFANA_PROXY_ENDPOINT", c.proxyEndpoint),
       orgId := Number(env, "GRAFANA_ORG_ID", c.orgId).value,
       stackId := Number(env, "GRAFANA_STACK_ID", c.stackId).value)
  }

  predicate NumbersParse(env: Environment) {
    Number(env, "GRAFANA_ORG_ID", 0).Some? && Number(env, "GRAFANA_STACK_ID", 0).Some?
  }

  function OverlaidTls(env: Environment, t: TlsFields): TlsFields {
    t.(certFile := Text(env, "GRAFANA_TLS_CERT_FILE", t.certFile),
       keyFile := Text(env, "GRAFANA_TLS_KEY_FILE", t.keyFile),
       caFile := Text(env, "GRAFANA_TLS_CA_FILE", t.caFile))
  }

  predicate CloudSupplied(env: Environment) {
    Supplies(env, "GRAFANA_CLOUD_TOKEN") || Supplies(env, "GRAFANA_CLOUD_API_URL") || Supplies(env, "GRAFANA_CLOUD_OAUTH_URL")
  }

  method CloneRejections(source: Rejections?) returns (copy: Rejections?)
    ensures Rejected(copy) == Rejected(source) && (copy == null <==> source == null) && (copy != null ==> fresh(copy))
  {
    if source == null {
      return null;
    }
    copy := new Rejections(source.fields);
  }

  /** Gives the context its own copy of everything it shares through its stack. */
  method DetachStackRuntimeView(ctx: Context)
    modifies ctx`stackEntry, ctx`grafana, ctx`providers
    ensures ConnectionOf(ctx.grafana) == old(ConnectionOf(ctx.grafana)) && TlsOf(ctx.grafana) == old(TlsOf(ctx.grafana))
    ensures Rows(ctx.providers) == old(Rows(ctx.providers))
    ensures Detached(ctx) && IsOwn(ctx)
    ensures ctx.stackEntry == null <==> old(ctx.stackEntry) == null
    ensures ctx.stackEntry != null ==>
              && ctx.stackEntry.identity == old(ctx.stackEntry.identity) && ctx.stackEntry.layer == old(ctx.stackEntry.layer)
              && Rejected(ctx.stackEntry.rejections) == old(Rejected(ctx.stackEntry.rejections))
  {
    hide Rows, TlsOf, ConnectionOf, Rejected;
    ghost var rows := RowObjects(ctx.providers);
    assert forall row :: row in rows ==> allocated(row);
    var grafana := CloneGrafana(ctx.grafana);
    var stack := DetachStack(ctx.stackEntry, grafana);
    assert RowObjects(ctx.providers) == rows && Rows(ctx.providers) == old(Rows(ctx.providers));
    var providers := RuntimeProviders(ctx.providers, stack != null);
    ghost var own := RowObjects(providers);
    if stack != null {
      stack.providers := providers;
    }
    ctx.stackEntry, ctx.grafana, ctx.providers := stack, grafana, providers;
    assert RowObjects(providers) == own;
    assert Rows(providers) == old(Rows(ctx.providers));
  }

  method DetachStack(source: StackConfig?, grafana: GrafanaConfig?) returns (copy: StackConfig?)
    ensures copy == null <==> source == null
    ensures copy != null ==>
              && fresh(copy) && copy.grafana == grafana
              && copy.identity == source.identity && copy.layer == source.layer
              && (copy.rejections != null ==> fresh(copy.rejections)) && Rejected(copy.rejections) == Rejected(source.rejections)
  {
    if source == null {
      return null;
    }
    var rejections := CloneRejections(source.rejections);
    copy := new StackConfig(source.identity, source.layer, grafana, null, rejections);
  }

  /** A detached stack always has a table, for variables applied later. */
  method RuntimeProviders(source: ProviderTable?, needed: bool) returns (copy: ProviderTable?)
    ensures Rows(copy) == Rows(source) && (needed ==> copy != null)
    ensures copy != null ==> fresh(copy) && fresh(RowObjects(copy))
  {
    copy := CloneProviders(source, false);
    if copy == null && needed {
      copy := new ProviderTable(map[]);
    }
  }

  /** The stack copy looks at the context's own view. */
  predicate Detached(ctx: Context)
    reads ctx, ctx.stackEntry
  {
    ctx.stackEntry != null ==> ctx.stackEntry.grafana == ctx.grafana && ctx.stackEntry.providers == ctx.providers
  }

  /** The objects behind the context's stack view are all its own. */
  twostate predicate IsOwn(new ctx: Context)
    reads ctx, ctx.stackEntry, ctx.grafana, ctx.providers
  {
    && (ctx.stackEntry != null ==> fresh(ctx.stackEntry) && (ctx.stackEntry.rejections != null ==> fresh(ctx.stackEntry.rejections)))
    && (ctx.grafana != null ==> fresh(ctx.grafana) && (ctx.grafana.tls != null ==> fresh(ctx.grafana.tls)))
    && (ctx.providers != null ==> fresh(ctx.providers) && fresh(RowObjects(ctx.providers)))
  }

  /** A cloud variable moves the context to a private copy of its cloud entry. */
  method ApplyCloudEnvOverride(ctx: Context, env: Environment)
    modifies ctx`cloudEntry
    ensures !CloudSupplied(env) ==> ctx.cloudEntry == old(ctx.cloudEntry)
    ensures CloudSupplied(env) ==>
              && ctx.cloudEntry != null && fresh(ctx.cloudEntry) && (ctx.cloudEntry.rejections != null ==> fresh(ctx.cloudEntry.rejections))
              && CloudView(ctx.cloudEntry) == old(CloudView(ctx.cloudEntry))
  {
    if !Supplies(env, "GRAFANA_CLOUD_TOKEN") && "GRAFANA_CLOUD_API_URL" !in env.vars && "GRAFANA_CLOUD_OAUTH_URL" !in env.vars {
      return;
    }
    if ctx.cloudEntry == null {
      ctx.cloudEntry := new CloudEntry(NO_AUTH, null);
    } else {
      var c := ctx.cloudEntry;
      var rejections := CloneRejections(c.rejections);
      ctx.cloudEntry := new CloudEntry(c.auth, rejections);
    }
  }

  datatype Cloud = Cloud(auth: Auth, rejected: set<Field>)

  const NO_CLOUD := Cloud(NO_AUTH, {})

  function CloudView(entry: CloudEntry?): Cloud
    reads entry, if entry == null then null else entry.rejections
  {
    if entry == null then NO_CLOUD else Cloud(entry.auth, Rejected(entry.rejections))
  }

  function OverlaidAuth(env: Environment, auth: Auth): Auth {
    auth.(token := Text(env, "GRAFANA_CLOUD_TOKEN", auth.token),
          oauthUrl := Text(env, "GRAFANA_CLOUD_OAUTH_URL", auth.oauthUrl),
          apiUrl := Text(env, "GRAFANA_CLOUD_API_URL", auth.apiUrl))
  }

  function OverlaidCloud(env: Environment, c: Cloud): Cloud {
    Cloud(OverlaidAuth(env, c.auth), c.rejected - CLOUD_SECRETS * Overrides(env))
  }

  /** A shared entry is only written to when a cloud variable is set, that is, never. */
  method WalkCloud(entry: CloudEntry, env: Environment)
    modifies if CloudSupplied(env) then {entry} else {}
    ensures entry.rejections == old(entry.rejections) && entry.auth == OverlaidAuth(env, old(entry.auth))
  {
    if Supplies(env, "GRAFANA_CLOUD_TOKEN") {
      entry.auth := entry.auth.(token := env.vars["GRAFANA_CLOUD_TOKEN"]);
    }
    if Supplies(env, "GRAFANA_CLOUD_OAUTH_URL") {
      entry.auth := entry.auth.(oauthUrl := env.vars["GRAFANA_CLOUD_OAUTH_URL"]);
    }
    if Supplies(env, "GRAFANA_CLOUD_API_URL") {
      entry.auth := entry.auth.(apiUrl := env.vars["GRAFANA_CLOUD_API_URL"]);
    }
  }

  /** Fails at the first malformed number, leaving the fields before it written. */
  method WalkGrafana(grafana: GrafanaConfig, env: Environment) returns (ok: bool)
    modifies grafana`connection, grafana.tls
    ensures ok <==> NumbersParse(env)
    ensures ok ==> grafana.connection == Overlaid(env, old(grafana.connection))
    ensures ok && grafana.tls != null ==> grafana.tls.fields == OverlaidTls(env, old(TlsOf(grafana)))
  {
    var c := grafana.connection;
    grafana.connection := c.(
      server := Text(env, "GRAFANA_SERVER", c.server), user := Text(env, "GRAFANA_USER", c.user),
      password := Text(env, "GRAFANA_PASSWORD", c.password), apiToken := Text(env, "GRAFANA_TOKEN", c.apiToken),
      proxyEndpoint := Text(env, "GRAFANA_PROXY_ENDPOINT", c.proxyEndpoint));
    var orgId := Number(env, "GRAFANA_ORG_ID", c.orgId);
    if orgId.None? {
      return false;
    }
    grafana.connection := grafana.connection.(orgId := orgId.value);
    var stackId := Number(env, "GRAFANA_STACK_ID", c.stackId);
    if stackId.None? {
      return false;
    }
    grafana.connection := grafana.connection.(stackId := stackId.value);
    if grafana.tls != null {
      grafana.tls.fields := OverlaidTls(env, grafana.tls.fields);
    }
    ok := true;
  }

  /** An explicitly supplied credential is no longer withheld. */
  method ClearRejections(rejections: Rejections?, fields: set<Field>, overrides: set<Field>)
    modifies if fields * overrides != {} && rejections != null then {rejections} else {}
    ensures Rejected(rejections) == old(Rejected(rejections)) - (fields * overrides)
  {
    if rejections != null && fields * overrides != {} {
      rejections.fields := rejections.fields - (fields * overrides);
    }
  }

  /** What a context resolves to, as values. */
  datatype View = View(
    connection: Connection,
    tls: TlsFields,
    rows: map<string, Option<map<string, string>>>,
    cloud: Option<Cloud>,
    stack: Option<(string, string, set<Field>)>,
    slug: string)

  function ViewOf(ctx: Context): View
    reads ctx, ctx.grafana, ctx.providers, RowObjects(ctx.providers), ctx.stackEntry, ctx.cloudEntry
    reads if ctx.grafana == null then null else ctx.grafana.tls
    reads if ctx.stackEntry == null then null else ctx.stackEntry.rejections
    reads if ctx.cloudEntry == null then null else ctx.cloudEntry.rejections
  {
    View(ConnectionOf(ctx.grafana), TlsOf(ctx.grafana), Rows(ctx.providers),
         if ctx.cloudEntry == null then None else Some(CloudView(ctx.cloudEntry)),
         if ctx.stackEntry == null then None else Some((ctx.stackEntry.identity, ctx.stackEntry.layer, Rejected(ctx.stackEntry.rejections))),
         ctx.stackSlug)
  }

  /** The view after the environment has spoken. */
  function OverlaidView(env: Environment, v: View): View
    requires NumbersParse(env)
  {
    View(Overlaid(env, v.connection), OverlaidTls(env, v.tls), v.rows,
         if v.cloud.Some? then Some(OverlaidCloud(env, v.cloud.value))
         else if CloudSupplied(env) then Some(OverlaidCloud(env, NO_CLOUD))
         else None,
         if v.stack.Some? then Some((v.stack.value.0, v.stack.value.1, v.stack.value.2 - STACK_SECRETS * Overrides(env))) else None,
         Text(env, "GRAFANA_CLOUD_STACK", v.slug))
  }

  // ----- Which variable sets what -----

  datatype Entry =
    | Server | User | Password | ApiToken | Proxy | CertFile | KeyFile | CaFile
    | CloudAccessToken | CloudOAuthUrl | CloudApiUrl | CloudStack

  function VariableOf(entry: Entry): string {
    match entry
    case Server => "GRAFANA_SERVER"
    case User => "GRAFANA_USER"
    case Password => "GRAFANA_PASSWORD"
    case ApiToken => "GRAFANA_TOKEN"
    case Proxy => "GRAFANA_PROXY_ENDPOINT"
    case CertFile => "GRAFANA_TLS_CERT_FILE"
    case KeyFile => "GRAFANA_TLS_KEY_FILE"
    case CaFile => "GRAFANA_TLS_CA_FILE"
    case CloudAccessToken => "GRAFANA_CLOUD_TOKEN"
    case CloudOAuthUrl => "GRAFANA_CLOUD_OAUTH_URL"
    case CloudApiUrl => "GRAFANA_CLOUD_API_URL"
    case CloudStack => "GRAFANA_CLOUD_STACK"
  }

  function Reading(v: View, entry: Entry): string {
    var auth := if v.cloud.Some? then v.cloud.value.auth else NO_AUTH;
    match entry
    case Server => v.connection.server
    case User => v.connection.user
    case Password => v.connection.password
    case ApiToken => v.connection.apiToken
    case Proxy => v.connection.proxyEndpoint
    case CertFile => v.tls.certFile
    case KeyFile => v.tls.keyFile
    case CaFile => v.tls.caFile
    case CloudAccessToken => auth.token
    case CloudOAuthUrl => auth.oauthUrl
    case CloudApiUrl => auth.apiUrl
    case CloudStack => v.slug
  }

  /** A credential that is set to white space counts as not set; any other variable
      counts whatever it holds. */
  predicate IsSet(env: Environment, name: string) {
    name in env.vars
    && (name in {"GRAFANA_TOKEN", "GRAFANA_PASSWORD", "GRAFANA_CLOUD_TOKEN", "GRAFANA_PROVIDER_SYNTH_SM_TOKEN"} ==> !env.blank(env.vars[name]))
  }

  predicate Numeric(env: Environment, name: string, before: int, after: int) {
    if name in env.vars && env.vars[name] != "" then env.parseInt(env.vars[name]) == Some(after) else after == before
  }

  /** A credential the process supplies is no longer withheld; no other is let through. */
  predicate LetThrough(env: Environment, field: Field) {
    match field
    case GrafanaToken => IsSet(env, "GRAFANA_TOKEN")
    case GrafanaPassword => IsSet(env, "GRAFANA_PASSWORD")
    case SMToken => IsSet(env, "GRAFANA_PROVIDER_SYNTH_SM_TOKEN")
    case CloudToken => IsSet(env, "GRAFANA_CLOUD_TOKEN")
    case _ => false
  }

  /** Each variable sets its own entry of the view. */
  lemma VariablesDecide(env: Environment, v: View, entry: Entry)
    requires NumbersParse(env)
    ensures Reading(OverlaidView(env, v), entry) == (if IsSet(env, VariableOf(entry)) then env.vars[VariableOf(entry)] else Reading(v, entry))
  {
    TextExactly(env, VariableOf(entry), Reading(v, entry));
    hide Text, Overrides, Number, IsSet;
    UnsetLeavesNoEntry(env);
    hide CloudSupplied;
  }

  lemma TextExactly(env: Environment, name: string, current: string)
    ensures Text(env, name, current) == if IsSet(env, name) then env.vars[name] else current
  {
  }

  lemma UnsetLeavesNoEntry(env: Environment)
    ensures !CloudSupplied(env) ==> OverlaidAuth(env, NO_AUTH) == NO_AUTH
  {
  }

  /** Beside the entries with a variable of their own, only the two numbers and the
      withheld credentials change, and a cloud entry may appear. */
  lemma TheRestStays(env: Environment, v: View)
    requires NumbersParse(env)
    ensures var after := OverlaidView(env, v);
            && Numeric(env, "GRAFANA_ORG_ID", v.connection.orgId, after.connection.orgId)
            && Numeric(env, "GRAFANA_STACK_ID", v.connection.stackId, after.connection.stackId)
            && after.connection.oauthToken == v.connection.oauthToken && after.connection.oauthRefreshToken == v.connection.oauthRefreshToken
            && after.connection.rest == v.connection.rest && after.tls.rest == v.tls.rest && after.rows == v.rows
            && (after.cloud.Some? <==> v.cloud.Some? || IsSet(env, "GRAFANA_CLOUD_TOKEN")
                                       || "GRAFANA_CLOUD_API_URL" in env.vars || "GRAFANA_CLOUD_OAUTH_URL" in env.vars)
            && (v.cloud.Some? ==>
                  after.cloud.value.auth.(token := "", oauthUrl := "", apiUrl := "") == v.cloud.value.auth.(token := "", oauthUrl := "", apiUrl := ""))
            && (after.stack.Some? <==> v.stack.Some?)
            && (v.stack.Some? ==> after.stack.value.0 == v.stack.value.0 && after.stack.value.1 == v.stack.value.1)
  {
    hide Overrides, Text;
  }

  lemma SuppliedIsLetThrough(env: Environment, v: View)
    requires NumbersParse(env)
    ensures v.cloud.Some? ==> forall f :: f in OverlaidView(env, v).cloud.value.rejected <==>
              f in v.cloud.value.rejected && !(f == CloudToken && LetThrough(env, f))
    ensures v.stack.Some? ==> forall f :: f in OverlaidView(env, v).stack.value.2 <==>
              f in v.stack.value.2 && !(f != CloudToken && LetThrough(env, f))
  {
    OverridesExactly(env);
    hide Overrides, Text, Number, LetThrough, OverlaidAuth, Overlaid, OverlaidTls;
  }

  lemma OverridesExactly(env: Environment)
    ensures forall f :: f in Overrides(env) <==> LetThrough(env, f)
    ensures forall f :: LetThrough(env, f) ==> f in STACK_SECRETS || f == CloudToken
    ensures CloudToken !in STACK_SECRETS && CloudToken in CLOUD_SECRETS
    ensures forall f :: f in CLOUD_SECRETS && LetThrough(env, f) ==> f == CloudToken
  {
  }

  /** The numbers are readable when they are absent, empty or parse. */
  lemma NumbersParseExactly(env: Environment)
    ensures NumbersParse(env) <==>
              forall name :: name in {"GRAFANA_ORG_ID", "GRAFANA_STACK_ID"} && name in env.vars && env.vars[name] != "" ==> env.parseInt(env.vars[name]).Some?
  {
    hide IsCredentialVariable;
    assert !IsCredentialVariable("GRAFANA_ORG_ID") && !IsCredentialVariable("GRAFANA_STACK_ID") by { NumbersAreNoCredentials(); }
  }

  lemma NumbersAreNoCredentials()
    ensures !IsCredentialVariable("GRAFANA_ORG_ID") && !IsCredentialVariable("GRAFANA_STACK_ID")
  {
  }

  /** Nothing outside the selected context changes: besides fresh objects, the overlay
      writes to the context alone. */
  method ParseEnvIntoContext(ctx: Context, env: Environment) returns (ok: bool)
    modifies ctx
    ensures ok <==> NumbersParse(env)
    ensures IsOwn(ctx) && ctx.overrides == Overrides(env)
    ensures if CloudSupplied(env) then ctx.cloudEntry != null && fresh(ctx.cloudEntry) else ctx.cloudEntry == old(ctx.cloudEntry)
    ensures ok ==> Detached(ctx) && ViewOf(ctx) == OverlaidView(env, old(ViewOf(ctx)))
    ensures ok ==> ctx.grafana != null && (ctx.grafana.tls == null <==> TlsOf(ctx.grafana) == NO_TLS)
  {
    hide OverlaidView, NumbersParse;
    ViewWithEntry(env, ViewOf(ctx));
    Isolate(ctx, env);
    ok := Overlay(ctx, env);
  }

  /** No other context sees a difference, whatever it shares with the selected one. */
  method ParseEnvBeside(ctx: Context, sibling: Context, env: Environment) returns (ok: bool)
    requires ctx != sibling
    modifies ctx
    ensures ViewOf(sibling) == old(ViewOf(sibling))
  {
    hide OverlaidView, NumbersParse;
    ok := ParseEnvIntoContext(ctx, env);
  }

  function WithEntry(env: Environment, v: View): View {
    if v.cloud.None? && CloudSupplied(env) then v.(cloud := Some(NO_CLOUD)) else v
  }

  lemma ViewWithEntry(env: Environment, v: View)
    ensures NumbersParse(env) ==> OverlaidView(env, WithEntry(env, v)) == OverlaidView(env, v)
  {
  }

  /** Private copies of everything shared; the view stays the same. */
  method Detach(ctx: Context, env: Environment)
    modifies ctx
    ensures IsOwn(ctx) && Detached(ctx) && ctx.overrides == Overrides(env)
    ensures ctx.stackEntry != null && ctx.cloudEntry != null ==>
              ctx.stackEntry.rejections == null || ctx.stackEntry.rejections != ctx.cloudEntry.rejections
    ensures CloudSupplied(env) ==> ctx.cloudEntry != null && fresh(ctx.cloudEntry) && (ctx.cloudEntry.rejections != null ==> fresh(ctx.cloudEntry.rejections))
    ensures !CloudSupplied(env) ==> ctx.cloudEntry == old(ctx.cloudEntry)
    ensures ViewOf(ctx) == WithEntry(env, old(ViewOf(ctx)))
  {
    hide Overrides, CloudSupplied;
    DetachStackRuntimeView(ctx);
    ctx.overrides := Overrides(env);
    ApplyCloudEnvOverride(ctx, env);
  }

  /** Private copies, and empty blocks to write into. */
  method Isolate(ctx: Context, env: Environment)
    modifies ctx
    ensures IsOwn(ctx) && ctx.overrides == Overrides(env) && Ready(ctx)
    ensures CloudSupplied(env) ==> ctx.cloudEntry != null && fresh(ctx.cloudEntry) && (ctx.cloudEntry.rejections != null ==> fresh(ctx.cloudEntry.rejections))
    ensures !CloudSupplied(env) ==> ctx.cloudEntry == old(ctx.cloudEntry)
    ensures ViewOf(ctx) == WithEntry(env, old(ViewOf(ctx)))
  {
    hide Overrides, CloudSupplied, WithEntry;
    Detach(ctx, env);
    PrepareForEnvParse(ctx);
  }

  predicate Ready(ctx: Context)
    reads ctx, ctx.grafana, ctx.stackEntry, ctx.cloudEntry
  {
    && ctx.grafana != null && ctx.grafana.tls != null
    && (ctx.stackEntry != null ==> (ctx.stackEntry.grafana == null || ctx.stackEntry.grafana == ctx.grafana) && ctx.stackEntry.providers == ctx.providers)
    && (ctx.stackEntry != null && ctx.cloudEntry != null ==> ctx.stackEntry.rejections == null || ctx.stackEntry.rejections != ctx.cloudEntry.rejections)
  }

  method Overlay(ctx: Context, env: Environment) returns (ok: bool)
    requires Ready(ctx) && ctx.overrides == Overrides(env) && (CloudSupplied(env) ==> ctx.cloudEntry != null)
    modifies ctx`stackSlug, ctx.grafana, ctx.grafana.tls, ctx.stackEntry
    modifies if ctx.stackEntry != null then ctx.stackEntry.rejections else null
    modifies if CloudSupplied(env) then ctx.cloudEntry else null
    modifies if CloudSupplied(env) && ctx.cloudEntry != null then ctx.cloudEntry.rejections else null
    ensures ok <==> NumbersParse(env)
    ensures ctx.stackEntry != null ==> ctx.stackEntry.rejections == old(ctx.stackEntry.rejections)
    ensures ctx.grafana.tls == null || ctx.grafana.tls == old(ctx.grafana.tls)
    ensures ok ==> Detached(ctx) && ViewOf(ctx) == OverlaidView(env, old(ViewOf(ctx)))
    ensures ok ==> (ctx.grafana.tls == null <==> TlsOf(ctx.grafana) == NO_TLS)
  {
    assert CloudSupplied(env) ==> ViewOf(ctx).cloud.Some?;
    hide Overlaid, OverlaidTls, NumbersParse, Text, Overrides, CloudSupplied, ViewOf, Walked, Finished, OverlaidView;
    WalkedThenFinished(env, ViewOf(ctx));
    ok := WalkView(ctx, env);
    if ok {
      FinishView(ctx, env);
    }
  }

  method WalkView(ctx: Context, env: Environment) returns (ok: bool)
    requires Ready(ctx)
    modifies ctx.grafana`connection, ctx.grafana.tls, if CloudSupplied(env) && ctx.cloudEntry != null then {ctx.cloudEntry} else {}
    ensures ok <==> NumbersParse(env)
    ensures ctx.cloudEntry != null ==> ctx.cloudEntry.rejections == old(ctx.cloudEntry.rejections)
    ensures ok ==> ViewOf(ctx) == Walked(env, old(ViewOf(ctx)))
  {
    hide Overlaid, OverlaidTls, OverlaidAuth, NumbersParse, CloudSupplied;
    ok := ParseEnvTags(ctx, env);
  }

  method FinishView(ctx: Context, env: Environment)
    requires Ready(ctx) && ctx.overrides == Overrides(env)
    modifies ctx`stackSlug, ctx.stackEntry, ctx.grafana`tls
    modifies if ctx.stackEntry != null then ctx.stackEntry.rejections else null
    modifies if CloudSupplied(env) && ctx.cloudEntry != null then ctx.cloudEntry.rejections else null
    ensures Detached(ctx) && ViewOf(ctx) == Finished(env, old(ViewOf(ctx)))
    ensures ctx.grafana.tls == null || ctx.grafana.tls == old(ctx.grafana.tls)
    ensures ctx.grafana.tls == null <==> TlsOf(ctx.grafana) == NO_TLS
    ensures ctx.stackEntry != null ==> ctx.stackEntry.rejections == old(ctx.stackEntry.rejections)
  {
    hide Overrides, CloudSupplied, Text;
    Finish(ctx, env);
  }

  /** After the walk: every value of the environment, but nothing cleared yet. */
  function Walked(env: Environment, v: View): View
    requires NumbersParse(env)
  {
    v.(connection := Overlaid(env, v.connection), tls := OverlaidTls(env, v.tls),
       cloud := if v.cloud.Some? then Some(Cloud(OverlaidAuth(env, v.cloud.value.auth), v.cloud.value.rejected)) else None)
  }

  function Finished(env: Environment, v: View): View {
    v.(cloud := if v.cloud.Some? then Some(Cloud(v.cloud.value.auth, v.cloud.value.rejected - CLOUD_SECRETS * Overrides(env))) else None,
       stack := if v.stack.Some? then Some((v.stack.value.0, v.stack.value.1, v.stack.value.2 - STACK_SECRETS * Overrides(env))) else None,
       slug := Text(env, "GRAFANA_CLOUD_STACK", v.slug))
  }

  lemma WalkedThenFinished(env: Environment, v: View)
    ensures NumbersParse(env) && (CloudSupplied(env) ==> v.cloud.Some?) ==> Finished(env, Walked(env, v)) == OverlaidView(env, v)
  {
  }

  method PrepareForEnvParse(ctx: Context)
    requires Detached(ctx)
    modifies ctx`grafana, ctx.grafana
    ensures ctx.grafana != null && ctx.grafana.tls != null
    ensures ctx.grafana == old(ctx.grafana) || fresh(ctx.grafana)
    ensures old(ctx.grafana) != null ==> ctx.grafana == old(ctx.grafana)
    ensures ctx.grafana.tls == old(if ctx.grafana == null then null else ctx.grafana.tls) || fresh(ctx.grafana.tls)
    ensures ConnectionOf(ctx.grafana) == old(ConnectionOf(ctx.grafana)) && TlsOf(ctx.grafana) == old(TlsOf(ctx.grafana))
    ensures ctx.stackEntry != null ==> ctx.stackEntry.grafana == null || ctx.stackEntry.grafana == ctx.grafana
  {
    if ctx.grafana == null {
      ctx.grafana := new GrafanaConfig(NO_CONNECTION, null);
    }
    if ctx.grafana.tls == null {
      ctx.grafana.tls := new TLS(NO_TLS);
    }
  }

  /** The walk over the context: its stack, its cloud entry, its Grafana view. */
  method ParseEnvTags(ctx: Context, env: Environment) returns (ok: bool)
    requires ctx.grafana != null && ctx.grafana.tls != null
    requires ctx.stackEntry != null ==> ctx.stackEntry.grafana == null || ctx.stackEntry.grafana == ctx.grafana
    modifies ctx.grafana`connection, ctx.grafana.tls, if CloudSupplied(env) && ctx.cloudEntry != null then {ctx.cloudEntry} else {}
    ensures ok <==> NumbersParse(env)
    ensures ok ==> ctx.grafana.connection == Overlaid(env, old(ctx.grafana.connection))
    ensures ok ==> ctx.grafana.tls.fields == OverlaidTls(env, old(ctx.grafana.tls.fields))
    ensures ctx.cloudEntry != null ==> ctx.cloudEntry.rejections == old(ctx.cloudEntry.rejections)
    ensures ok && ctx.cloudEntry != null ==> ctx.cloudEntry.auth == OverlaidAuth(env, old(ctx.cloudEntry.auth))
  {
    hide Text, Number;
    ok := true;
    if ctx.stackEntry != null && ctx.stackEntry.grafana != null {
      ok := WalkGrafana(ctx.stackEntry.grafana, env);
      Again(env, old(ctx.grafana.connection), old(ctx.grafana.tls.fields));
    }
    if !ok {
      return;
    }
    if ctx.cloudEntry != null {
      WalkCloud(ctx.cloudEntry, env);
    }
    ok := WalkGrafana(ctx.grafana, env);
  }

  /** Walking the same view twice changes nothing more. */
  lemma Again(env: Environment, c: Connection, t: TlsFields)
    ensures NumbersParse(env) ==> Overlaid(env, Overlaid(env, c)) == Overlaid(env, c)
    ensures OverlaidTls(env, OverlaidTls(env, t)) == OverlaidTls(env, t)
  {
  }

  /** Without a cloud variable there is nothing to clear on the shared entry. */
  lemma SharedEntryIsNotCleared(env: Environment)
    ensures !CloudSupplied(env) ==> CLOUD_SECRETS * Overrides(env) == {}
  {
  }

  lemma SlugText(env: Environment, slug: string)
    ensures Text(env, "GRAFANA_CLOUD_STACK", slug)
            == if "GRAFANA_CLOUD_STACK" in env.vars then env.vars["GRAFANA_CLOUD_STACK"] else slug
  {
  }

  /** An explicitly supplied credential stops being withheld, on the context's own
      entries only. */
  method ClearRuntimeCredentialRejections(ctx: Context, env: Environment)
    requires ctx.overrides == Overrides(env)
    requires ctx.stackEntry != null && ctx.cloudEntry != null ==>
               ctx.stackEntry.rejections == null || ctx.stackEntry.rejections != ctx.cloudEntry.rejections
    modifies if ctx.stackEntry != null then ctx.stackEntry.rejections else null
    modifies if CloudSupplied(env) && ctx.cloudEntry != null then ctx.cloudEntry.rejections else null
    ensures ctx.stackEntry != null ==>
              Rejected(ctx.stackEntry.rejections) == old(Rejected(ctx.stackEntry.rejections)) - STACK_SECRETS * Overrides(env)
    ensures ctx.cloudEntry != null ==>
              Rejected(ctx.cloudEntry.rejections) == old(Rejected(ctx.cloudEntry.rejections)) - CLOUD_SECRETS * Overrides(env)
  {
    SharedEntryIsNotCleared(env);
    hide Overrides, CloudSupplied;
    if ctx.stackEntry != null {
      ClearRejections(ctx.stackEntry.rejections, STACK_SECRETS, ctx.overrides);
    }
    if ctx.cloudEntry != null {
      ClearRejections(ctx.cloudEntry.rejections, CLOUD_SECRETS, ctx.overrides);
    }
  }

  method CleanupAfterEnvParse(grafana: GrafanaConfig)
    modifies grafana`tls
    ensures TlsOf(grafana) == old(TlsOf(grafana)) && (grafana.tls == null <==> TlsOf(grafana) == NO_TLS)
    ensures grafana.tls == null || grafana.tls == old(grafana.tls)
  {
    if grafana.tls != null && grafana.tls.fields == NO_TLS {
      grafana.tls := null;
    }
  }

  method Finish(ctx: Context, env: Environment)
    requires ctx.grafana != null && ctx.grafana.tls != null && ctx.overrides == Overrides(env)
    requires ctx.stackEntry != null ==> ctx.stackEntry.providers == ctx.providers
    requires ctx.stackEntry != null && ctx.cloudEntry != null ==>
               ctx.stackEntry.rejections == null || ctx.stackEntry.rejections != ctx.cloudEntry.rejections
    modifies ctx`stackSlug, ctx.stackEntry, ctx.grafana`tls
    modifies if ctx.stackEntry != null then ctx.stackEntry.rejections else null
    modifies if CloudSupplied(env) && ctx.cloudEntry != null then ctx.cloudEntry.rejections else null
    ensures ctx.stackEntry != null ==> ctx.stackEntry.identity == old(ctx.stackEntry.identity) && ctx.stackEntry.layer == old(ctx.stackEntry.layer)
    ensures Detached(ctx) && ctx.grafana.connection == old(ctx.grafana.connection)
    ensures TlsOf(ctx.grafana) == old(TlsOf(ctx.grafana)) && (ctx.grafana.tls == null <==> TlsOf(ctx.grafana) == NO_TLS)
    ensures ctx.grafana.tls == null || ctx.grafana.tls == old(ctx.grafana.tls)
    ensures ctx.stackEntry != null ==>
              && ctx.stackEntry.rejections == old(ctx.stackEntry.rejections)
              && Rejected(ctx.stackEntry.rejections) == old(Rejected(ctx.stackEntry.rejections)) - STACK_SECRETS * Overrides(env)
    ensures ctx.cloudEntry != null ==>
              Rejected(ctx.cloudEntry.rejections) == old(Rejected(ctx.cloudEntry.rejections)) - CLOUD_SECRETS * Overrides(env)
    ensures ctx.stackSlug == Text(env, "GRAFANA_CLOUD_STACK", old(ctx.stackSlug))
  {
    SlugText(env, ctx.stackSlug);
    hide Overrides, CloudSupplied, Text;
    CleanupAfterEnvParse(ctx.grafana);
    ClearRuntimeCredentialRejections(ctx, env);
    if ctx.stackEntry != null {
      ctx.stackEntry.grafana := ctx.grafana;
      ctx.stackEntry.providers := ctx.providers;
    }
    if "GRAFANA_CLOUD_STACK" in env.vars {
      ctx.stackSlug := env.vars["GRAFANA_CLOUD_STACK"];
    }
  }
}
