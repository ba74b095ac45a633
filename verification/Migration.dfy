/** The legacy format and its conversion to stacks and named cloud entries
    (internal/config/migrate.go). */
module Migration {
  import opened ConfigTypes
  import opened Credentials
  import opened Scopes
  import opened Wrappers

  datatype LegacyCloud = LegacyCloud(token: string, stack: string, oauthUrl: string, apiUrl: string)

  datatype LegacyContext = LegacyContext(
    grafana: Option<Grafana>,
    cloud: Option<LegacyCloud>,
    prometheus: string,
    loki: string,
    pyroscope: string,
    tempo: string,
    datasources: map<string, string>,
    providers: Option<Providers>,
    resources: Option<Resources>)

  datatype Legacy = Legacy(
    contexts: map<string, Option<LegacyContext>>,
    currentContext: string,
    diagnostics: Option<Diagnostics>)

  /** Secrets already resolved, by context and field; the others stay verbatim. */
  type LegacySecrets = map<(string, Field), string>

  /** URL handling this model takes as given. */
  datatype Urls = Urls(
    entryName: string -> string,
    gcomRoot: string -> string,
    normalize: (string, string) -> string,
    slugFromServer: string -> string)

  const CONFIG_VERSION := 1
  const DEFAULT_CLOUD := "https://grafana.com"

  function SecretValue(secrets: LegacySecrets, name: string, field: Field, raw: string): string {
    if (name, field) in secrets then secrets[(name, field)] else raw
  }

  // ----- What a legacy context means -----

  function LegacyGrafana(secrets: LegacySecrets, name: string, lctx: LegacyContext): Option<Grafana> {
    match lctx.grafana
    case None => None
    case Some(g) => Some(g.(
      apiToken := SecretValue(secrets, name, GrafanaToken, g.apiToken),
      password := SecretValue(secrets, name, GrafanaPassword, g.password),
      oauthToken := SecretValue(secrets, name, OAuthToken, g.oauthToken),
      oauthRefreshToken := SecretValue(secrets, name, OAuthRefreshToken, g.oauthRefreshToken)))
  }

  function LegacyProviders(secrets: LegacySecrets, name: string, lctx: LegacyContext): Option<Providers> {
    match lctx.providers
    case None => None
    case Some(ps) =>
      if "synth" in ps && ps["synth"].Some? && "sm-token" in ps["synth"].value
      then Some(ps["synth" := Some(ps["synth"].value["sm-token" := SecretValue(secrets, name, SMToken, ps["synth"].value["sm-token"])])])
      else Some(ps)
  }

  /** What a context authenticates to Grafana Cloud with, and where. */
  datatype Target = Target(token: string, apiUrl: string, oauthUrl: string)

  function LegacyTarget(urls: Urls, secrets: LegacySecrets, name: string, lctx: LegacyContext): Option<Target> {
    match lctx.cloud
    case None => None
    case Some(c) =>
      if c.token == "" && c.apiUrl == "" && c.oauthUrl == "" then None
      else
        var root := if lctx.grafana.Some? then urls.gcomRoot(lctx.grafana.value.server) else "";
        var api := if c.apiUrl != "" then c.apiUrl
                   else if c.oauthUrl != "" then c.oauthUrl
                   else if root != "" then root
                   else DEFAULT_CLOUD;
        Some(Target(SecretValue(secrets, name, CloudToken, c.token), api, if c.oauthUrl != "" then c.oauthUrl else api))
  }

  function LegacySlug(urls: Urls, lctx: LegacyContext): string {
    if lctx.cloud.Some? && lctx.cloud.value.stack != "" then lctx.cloud.value.stack
    else if lctx.grafana.None? || lctx.grafana.value.server == "" then ""
    else urls.slugFromServer(lctx.grafana.value.server)
  }

  function DefaultDatasource(lctx: LegacyContext, kind: string): string {
    if kind == "prometheus" then lctx.prometheus
    else if kind == "loki" then lctx.loki
    else if kind == "pyroscope" then lctx.pyroscope
    else if kind == "tempo" then lctx.tempo
    else ""
  }

  /** The per-kind map wins over the flat default fields. */
  function LegacyDatasource(lctx: LegacyContext, kind: string): string {
    var uid := DatasourceOf(lctx.datasources, kind);
    if uid != "" then uid else DefaultDatasource(lctx, kind)
  }

  function IsEmpty(providers: Option<Providers>): bool {
    providers.None? || providers.value == map[]
  }

  // ----- Conversion -----

  predicate HasStack(lctx: LegacyContext) {
    lctx.grafana.Some? || !IsEmpty(lctx.providers) || lctx.resources.Some?
    || (lctx.cloud.Some? && lctx.cloud.value.stack != "")
  }

  function ConvertStack(secrets: LegacySecrets, name: string, lctx: LegacyContext): Option<Stack> {
    if !HasStack(lctx) then None
    else Some(Stack("", if lctx.cloud.Some? then lctx.cloud.value.stack else "",
                    LegacyGrafana(secrets, name, lctx), LegacyProviders(secrets, name, lctx), lctx.resources))
  }

  const KINDS: set<string> := {"prometheus", "loki", "pyroscope", "tempo"}

  predicate Fills(lctx: LegacyContext, kind: string) {
    DefaultDatasource(lctx, kind) != "" && DatasourceOf(lctx.datasources, kind) == ""
  }

  /** The per-kind map after folding in the default fields of some kinds. */
  function Folded(lctx: LegacyContext, kinds: set<string>): map<string, string> {
    map kind | kind in lctx.datasources.Keys + kinds && (kind in lctx.datasources || Fills(lctx, kind)) ::
      if kind in kinds && Fills(lctx, kind) then DefaultDatasource(lctx, kind) else lctx.datasources[kind]
  }

  /** Folding keeps the answer for every kind, listed or not. */
  lemma FoldingKeepsAnswers(lctx: LegacyContext, kind: string)
    ensures DatasourceOf(Folded(lctx, KINDS), kind) == LegacyDatasource(lctx, kind)
  {
  }

  lemma FoldOne(lctx: LegacyContext, kinds: set<string>, kind: string)
    requires kind !in kinds
    ensures DatasourceOf(Folded(lctx, kinds), kind) == DatasourceOf(lctx.datasources, kind)
    ensures Folded(lctx, kinds + {kind})
            == if Fills(lctx, kind) then Folded(lctx, kinds)[kind := DefaultDatasource(lctx, kind)] else Folded(lctx, kinds)
  {
    hide DefaultDatasource;
  }

  method MergeLegacyDatasources(lctx: LegacyContext) returns (merged: map<string, string>)
    ensures merged == Folded(lctx, KINDS)
  {
    hide DefaultDatasource, Folded;
    merged := lctx.datasources;
    NothingFolded(lctx);
    var remaining := KINDS;
    while remaining != {}
      invariant remaining <= KINDS
      invariant merged == Folded(lctx, KINDS - remaining)
    {
      var kind :| kind in remaining;
      FoldOne(lctx, KINDS - remaining, kind);
      assert KINDS - (remaining - {kind}) == KINDS - remaining + {kind};
      remaining := remaining - {kind};
      if DefaultDatasource(lctx, kind) != "" && DatasourceOf(merged, kind) == "" {
        merged := merged[kind := DefaultDatasource(lctx, kind)];
      }
    }
    assert KINDS - remaining == KINDS;
  }

  lemma NothingFolded(lctx: LegacyContext)
    ensures Folded(lctx, KINDS - KINDS) == lctx.datasources
  {
  }
}
