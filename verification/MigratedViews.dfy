/** What a legacy context and its converted form hold, field by field
    (internal/config/migrate.go). */
module MigratedViews {
  import opened ConfigTypes
  import opened Conversion
  import opened Credentials
  import opened Migration
  import opened Minting
  import opened SelfCheck
  import opened Wrappers

  /** A secret of the legacy file: resolved when its own context and field were, else as
      it stands. */
  ghost predicate IsSecret(secrets: LegacySecrets, name: string, field: Field, raw: string, value: string) {
    && ((name, field) in secrets ==> value == secrets[(name, field)])
    && ((name, field) !in secrets ==> value == raw)
  }

  /** The same connection, each secret in its own field. */
  ghost predicate SameConnection(secrets: LegacySecrets, name: string, before: Option<Grafana>, after: Option<Grafana>) {
    && (after.Some? <==> before.Some?)
    && (before.Some? ==>
          var g, h := before.value, after.value;
          && h.server == g.server && h.user == g.user && h.proxyEndpoint == g.proxyEndpoint && h.tls == g.tls
          && h.orgId == g.orgId && h.stackId == g.stackId
          && h.oauthTokenExpiresAt == g.oauthTokenExpiresAt && h.oauthRefreshExpiresAt == g.oauthRefreshExpiresAt
          && IsSecret(secrets, name, GrafanaToken, g.apiToken, h.apiToken)
          && IsSecret(secrets, name, GrafanaPassword, g.password, h.password)
          && IsSecret(secrets, name, OAuthToken, g.oauthToken, h.oauthToken)
          && IsSecret(secrets, name, OAuthRefreshToken, g.oauthRefreshToken, h.oauthRefreshToken))
  }

  /** The same provider rows; the token of synthetic monitoring is a secret. */
  ghost predicate SameProviders(secrets: LegacySecrets, name: string, before: Option<Providers>, after: Option<Providers>) {
    && (after.Some? <==> before.Some?)
    && (before.Some? ==> after.value.Keys == before.value.Keys && forall p :: p in before.value ==> SameRow(secrets, name, p, before.value[p], after.value[p]))
  }

  ghost predicate SameRow(secrets: LegacySecrets, name: string, provider: string, before: Option<map<string, string>>, after: Option<map<string, string>>) {
    && (after.Some? <==> before.Some?)
    && (before.Some? ==>
          && after.value.Keys == before.value.Keys
          && forall k :: k in before.value ==>
               if provider == "synth" && k == "sm-token" then IsSecret(secrets, name, SMToken, before.value[k], after.value[k])
               else after.value[k] == before.value[k])
  }

  /** The token goes where the context's own endpoints say, and else to its stack's cloud
      or the public one; without any of the three there is nothing to authenticate. */
  ghost predicate SameCloud(urls: Urls, secrets: LegacySecrets, name: string, lctx: LegacyContext, found: Option<(string, string, string)>) {
    && (found.Some? <==> lctx.cloud.Some? && (lctx.cloud.value.token != "" || lctx.cloud.value.apiUrl != "" || lctx.cloud.value.oauthUrl != ""))
    && (found.Some? ==>
          var (token, api, oauth) := found.value;
          var c := lctx.cloud.value;
          && IsSecret(secrets, name, CloudToken, c.token, token)
          && (c.apiUrl != "" ==> api == c.apiUrl)
          && (c.apiUrl == "" && c.oauthUrl != "" ==> api == c.oauthUrl)
          && (c.apiUrl == "" && c.oauthUrl == "" ==>
                api == (if lctx.grafana.Some? && urls.gcomRoot(lctx.grafana.value.server) != ""
                        then urls.gcomRoot(lctx.grafana.value.server) else "https://grafana.com"))
          && oauth == (if c.oauthUrl != "" then c.oauthUrl else api))
  }

  ghost function FlatDefault(lctx: LegacyContext, kind: string): string {
    match kind
    case "prometheus" => lctx.prometheus
    case "loki" => lctx.loki
    case "pyroscope" => lctx.pyroscope
    case "tempo" => lctx.tempo
    case _ => ""
  }

  /** The default of a kind: its entry in the per-kind map, else its own flat field. */
  ghost predicate SameDatasources(lctx: LegacyContext, datasources: map<string, string>) {
    forall kind :: SameDatasource(lctx.datasources, datasources, kind, FlatDefault(lctx, kind))
  }

  ghost predicate SameDatasource(before: map<string, string>, after: map<string, string>, kind: string, flat: string) {
    (if kind in after then after[kind] else "") == (if kind in before && before[kind] != "" then before[kind] else flat)
  }

  lemma LegacyGrafanaExactly(secrets: LegacySecrets, name: string, lctx: LegacyContext, g: Option<Grafana>)
    ensures g == LegacyGrafana(secrets, name, lctx) <==> SameConnection(secrets, name, lctx.grafana, g)
  {
  }

  lemma LegacyProvidersExactly(secrets: LegacySecrets, name: string, lctx: LegacyContext, ps: Option<Providers>)
    ensures ps == LegacyProviders(secrets, name, lctx) <==> SameProviders(secrets, name, lctx.providers, ps)
  {
    if SameProviders(secrets, name, lctx.providers, ps) && ps.Some? {
      assert ps.value == LegacyProviders(secrets, name, lctx).value by {
        forall p | p in ps.value ensures ps.value[p] == LegacyProviders(secrets, name, lctx).value[p] {
          RowExactly(secrets, name, lctx, p, ps.value[p]);
        }
      }
    }
    if ps == LegacyProviders(secrets, name, lctx) && ps.Some? {
      forall p | p in ps.value ensures SameRow(secrets, name, p, lctx.providers.value[p], ps.value[p]) {
        RowExactly(secrets, name, lctx, p, ps.value[p]);
      }
    }
  }

  lemma RowExactly(secrets: LegacySecrets, name: string, lctx: LegacyContext, provider: string, row: Option<map<string, string>>)
    requires lctx.providers.Some? && provider in lctx.providers.value
    ensures var legacy := LegacyProviders(secrets, name, lctx);
            && legacy.Some? && legacy.value.Keys == lctx.providers.value.Keys
            && (row == legacy.value[provider] <==> SameRow(secrets, name, provider, lctx.providers.value[provider], row))
  {
    var legacy := LegacyProviders(secrets, name, lctx).value[provider];
    if row.Some? && legacy.Some? {
      assert row.value == legacy.value <==> row.value.Keys == legacy.value.Keys && forall k :: k in legacy.value ==> row.value[k] == legacy.value[k];
    }
  }

  lemma LegacyTargetExactly(urls: Urls, secrets: LegacySecrets, name: string, lctx: LegacyContext, t: Option<Target>)
    ensures t == LegacyTarget(urls, secrets, name, lctx)
            <==> SameCloud(urls, secrets, name, lctx, if t.None? then None else Some((t.value.token, t.value.apiUrl, t.value.oauthUrl)))
  {
  }

  lemma LegacyDatasourcesExactly(lctx: LegacyContext, datasources: map<string, string>)
    ensures (forall kind :: DatasourceOf(datasources, kind) == LegacyDatasource(lctx, kind)) <==> SameDatasources(lctx, datasources)
  {
    forall kind ensures DatasourceOf(datasources, kind) == LegacyDatasource(lctx, kind)
      <==> SameDatasource(lctx.datasources, datasources, kind, FlatDefault(lctx, kind))
    {
    }
    hide DatasourceOf, LegacyDatasource, SameDatasource;
  }

  /** The stack a context of the document is bound to, if there is one. */
  ghost predicate BoundTo(doc: ConfigDocument, ctx: Context, stack: Stack) {
    ctx.stack != "" && ctx.stack in doc.stacks && doc.stacks[ctx.stack] == Some(stack)
  }

  /** The slug that was written down, or else the one the server's name carries. */
  ghost predicate SameSlug(urls: Urls, lctx: LegacyContext, slug: string) {
    && (lctx.cloud.Some? && lctx.cloud.value.stack != "" ==> slug == lctx.cloud.value.stack)
    && (!(lctx.cloud.Some? && lctx.cloud.value.stack != "") ==>
          slug == (if lctx.grafana.Some? && lctx.grafana.value.server != "" then urls.slugFromServer(lctx.grafana.value.server) else ""))
  }

  ghost predicate Listed(resources: Option<Resources>, item: string) {
    resources.Some? && resources.value.assumeServerDryRun.Some? && item in resources.value.assumeServerDryRun.value
  }

  /** What a context of a document reaches through its references. */
  lemma LookUps(doc: ConfigDocument, ctx: Context, slugFromServer: string -> string)
    ensures forall stack :: BoundTo(doc, ctx, stack) ==>
              && GrafanaOf(doc, ctx) == stack.grafana && ProvidersOf(doc, ctx) == stack.providers
              && SlugOf(doc, ctx, slugFromServer)
                 == (if stack.slug != "" then stack.slug
                     else if stack.grafana.Some? && stack.grafana.value.server != "" then slugFromServer(stack.grafana.value.server) else "")
              && forall item :: item in DryRunOf(doc, ctx) <==> Listed(doc.resources, item) || Listed(stack.resources, item)
    ensures (forall stack :: !BoundTo(doc, ctx, stack)) ==>
              && GrafanaOf(doc, ctx).None? && ProvidersOf(doc, ctx).None? && SlugOf(doc, ctx, slugFromServer) == ""
              && forall item :: item in DryRunOf(doc, ctx) <==> Listed(doc.resources, item)
    ensures CloudOf(doc, ctx) == if ctx.cloud != "" && ctx.cloud in doc.cloud then doc.cloud[ctx.cloud] else None
  {
    DedupKeepsItems(DryRunList(doc.resources)
                    + match StackOf(doc, ctx) case None => [] case Some(stack) => DryRunList(stack.resources));
    hide Dedup;
    if StackOf(doc, ctx).Some? {
      assert BoundTo(doc, ctx, doc.stacks[ctx.stack].value);
    }
  }

  ghost function CloudTuple(entry: Option<CloudAuth>): Option<(string, string, string)> {
    match entry case None => None case Some(e) => Some((e.token, e.apiUrl, e.oauthUrl))
  }

  /** A document that preserves a legacy file: each context reaches what the file wrote
      for it, field by field. */
  lemma PreservedMeans(urls: Urls, secrets: LegacySecrets, lc: Legacy, doc: ConfigDocument, name: string)
    requires Preserves(urls, secrets, lc, doc) && name in lc.contexts && lc.contexts[name].Some?
    ensures doc.currentContext == lc.currentContext && name in doc.contexts && doc.contexts[name].Some?
    ensures var lctx, ctx := lc.contexts[name].value, doc.contexts[name].value;
            && SameConnection(secrets, name, lctx.grafana, GrafanaOf(doc, ctx))
            && SameDatasources(lctx, ctx.datasources)
            && SameCloud(urls, secrets, name, lctx, CloudTuple(CloudOf(doc, ctx)))
            && SameSlug(urls, lctx, SlugOf(doc, ctx, urls.slugFromServer))
            && (SameProviders(secrets, name, lctx.providers, ProvidersOf(doc, ctx))
                || (lctx.providers in {None, Some(map[])} && ProvidersOf(doc, ctx) in {None, Some(map[])}))
            && forall item :: item in DryRunOf(doc, ctx) <==> Listed(lctx.resources, item)
  {
    assert KeptAt(urls, secrets, lc, doc, name);
    var lctx, ctx := lc.contexts[name].value, doc.contexts[name].value;
    LegacyGrafanaExactly(secrets, name, lctx, GrafanaOf(doc, ctx));
    LegacyProvidersExactly(secrets, name, lctx, ProvidersOf(doc, ctx));
    LegacyTargetExactly(urls, secrets, name, lctx, LegacyTarget(urls, secrets, name, lctx));
    LegacyDatasourcesExactly(lctx, ctx.datasources);
    LegacyShapes(secrets, name, lctx);
    hide LegacyGrafana, LegacyProviders, LegacyTarget, LegacyDatasource, DatasourceOf, SameConnection, SameProviders, SameCloud, SameDatasources,
      GrafanaOf, ProvidersOf, CloudOf, DryRunOf, SlugOf, Preserves;
  }

  ghost predicate KeptIn(secrets: LegacySecrets, name: string, lctx: LegacyContext, stack: Stack) {
    && SameConnection(secrets, name, lctx.grafana, stack.grafana) && SameProviders(secrets, name, lctx.providers, stack.providers)
    && stack.resources == lctx.resources && stack.slug == (if lctx.cloud.Some? then lctx.cloud.value.stack else "")
  }

  /** A named context of a conversion keeps its connection, providers, datasources, slug and
      resources field by field, whatever becomes of its cloud entry. */
  lemma ConvertedMeans(urls: Urls, secrets: LegacySecrets, suffix: string, lc: Legacy, order: seq<string>, name: string)
    requires name in lc.contexts && lc.contexts[name].Some? && name != ""
    ensures var doc, lctx := Convert(urls, secrets, suffix, lc, order), lc.contexts[name].value;
            && doc.version == 1 && doc.diagnostics == lc.diagnostics && doc.currentContext == lc.currentContext && doc.resources.None?
            && name in doc.contexts && doc.contexts[name].Some?
            && var ctx := doc.contexts[name].value;
            && SameDatasources(lctx, ctx.datasources)
            && (if lctx.grafana.None? && lctx.providers in {None, Some(map[])} && lctx.resources.None?
                   && (lctx.cloud.None? || lctx.cloud.value.stack == "")
                then ctx.stack == ""
                else exists stack :: BoundTo(doc, ctx, stack) && KeptIn(secrets, name, lctx, stack))
  {
    var doc, lctx := Convert(urls, secrets, suffix, lc, order), lc.contexts[name].value;
    var ctx := doc.contexts[name].value;
    ConvertedDatasources(urls, secrets, suffix, lc, order, name);
    LegacyDatasourcesExactly(lctx, ctx.datasources);
    LegacyGrafanaExactly(secrets, name, lctx, LegacyGrafana(secrets, name, lctx));
    LegacyProvidersExactly(secrets, name, lctx, LegacyProviders(secrets, name, lctx));
    hide LegacyGrafana, LegacyProviders, MintAll, Folded, DatasourceOf, LegacyDatasource, SameConnection, SameProviders, SameDatasources, LegacyTarget;
    if HasStack(lctx) {
      var stack := ConvertStack(secrets, name, lctx).value;
      assert BoundTo(doc, ctx, stack) && KeptIn(secrets, name, lctx, stack);
    }
  }

  /** What acceptance by the check means for each context, field by field: cloud endpoints
      up to URL normalisation, providers and slug where the legacy file has some. */
  lemma AcceptedMeans(urls: Urls, secrets: LegacySecrets, lc: Legacy, doc: ConfigDocument, name: string)
    requires Accepts(urls, secrets, lc, doc) && name in lc.contexts && lc.contexts[name].Some?
    ensures doc.currentContext == lc.currentContext && doc.contexts.Keys == lc.contexts.Keys && doc.contexts[name].Some?
    ensures var lctx, ctx := lc.contexts[name].value, doc.contexts[name].value;
            && SameConnection(secrets, name, lctx.grafana, GrafanaOf(doc, ctx))
            && (lctx.providers.Some? && lctx.providers.value != map[] ==> SameProviders(secrets, name, lctx.providers, ProvidersOf(doc, ctx)))
            && (forall kind :: kind in lctx.datasources || kind in {"prometheus", "loki", "pyroscope", "tempo"} ==>
                  SameDatasource(lctx.datasources, ctx.datasources, kind, FlatDefault(lctx, kind)))
            && (lctx.cloud.Some? && lctx.cloud.value.stack != "" ==> SlugOf(doc, ctx, urls.slugFromServer) == lctx.cloud.value.stack)
            && (forall token, api, oauth :: SameCloud(urls, secrets, name, lctx, Some((token, api, oauth))) ==>
                  && CloudOf(doc, ctx).Some? && CloudOf(doc, ctx).value.token == token
                  && urls.normalize(CloudOf(doc, ctx).value.apiUrl, "https://grafana.com") == urls.normalize(api, "https://grafana.com")
                  && urls.normalize(CloudOf(doc, ctx).value.oauthUrl, api) == urls.normalize(oauth, api))
            && forall item :: item in DryRunOf(doc, ctx) <==> Listed(lctx.resources, item)
  {
    assert ChecksAt(urls, secrets, lc, doc, name);
    var lctx, ctx := lc.contexts[name].value, doc.contexts[name].value;
    LegacyGrafanaExactly(secrets, name, lctx, GrafanaOf(doc, ctx));
    LegacyProvidersExactly(secrets, name, lctx, ProvidersOf(doc, ctx));
    forall token, api, oauth | SameCloud(urls, secrets, name, lctx, Some((token, api, oauth)))
      ensures LegacyTarget(urls, secrets, name, lctx) == Some(Target(token, api, oauth))
    {
      LegacyTargetExactly(urls, secrets, name, lctx, Some(Target(token, api, oauth)));
    }
    forall kind | kind in lctx.datasources || kind in {"prometheus", "loki", "pyroscope", "tempo"}
      ensures SameDatasource(lctx.datasources, ctx.datasources, kind, FlatDefault(lctx, kind))
    {
      assert kind in KindsToVerify(lctx);
    }
    hide SameDatasource, DatasourceOf, LegacyDatasource;
    forall item ensures item in DryRunOf(doc, ctx) <==> Listed(lctx.resources, item) {
      assert item in Items(DryRunOf(doc, ctx)) <==> item in Items(DryRunList(lctx.resources));
    }
    hide LegacyGrafana, LegacyProviders, LegacyTarget, SameConnection, SameProviders, SameCloud, GrafanaOf, ProvidersOf, CloudOf, DryRunOf, SlugOf, Accepts;
  }
}
