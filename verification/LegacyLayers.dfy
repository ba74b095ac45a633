/** Layers of legacy files: merging under the old field rules and converting, against
    converting each file and merging whole entries
    (internal/config/migrate_preflight.go). */
module LegacyLayers {
  import opened ConfigTypes
  import opened Conversion
  import opened LayerMerge
  import opened Migration
  import opened Minting
  import opened NulText
  import opened Numerals
  import opened Wrappers

  // ----- The old field-level layering -----

  function Over(base: string, over: string): string {
    if over != "" then over else base
  }

  function MergeGrafana(base: Grafana, over: Grafana): Grafana {
    Grafana(
      Over(base.server, over.server), Over(base.user, over.user), Over(base.password, over.password),
      Over(base.apiToken, over.apiToken), Over(base.oauthToken, over.oauthToken),
      Over(base.oauthRefreshToken, over.oauthRefreshToken), Over(base.oauthTokenExpiresAt, over.oauthTokenExpiresAt),
      Over(base.oauthRefreshExpiresAt, over.oauthRefreshExpiresAt), Over(base.proxyEndpoint, over.proxyEndpoint),
      if over.orgId != 0 then over.orgId else base.orgId,
      if over.stackId != 0 then over.stackId else base.stackId,
      if over.tls.Some? then over.tls else base.tls)
  }

  function MergeCloudFields(base: LegacyCloud, over: LegacyCloud): LegacyCloud {
    LegacyCloud(Over(base.token, over.token), Over(base.stack, over.stack),
                Over(base.oauthUrl, over.oauthUrl), Over(base.apiUrl, over.apiUrl))
  }

  function Values(providers: Providers, provider: string): map<string, string> {
    if provider in providers && providers[provider].Some? then providers[provider].value else map[]
  }

  function MergeProviders(base: Option<Providers>, over: Option<Providers>): Option<Providers> {
    if over.None? then base
    else
      var low := if base.Some? then base.value else map[];
      Some(low + map p | p in over.value :: Some(Values(low, p) + Values(over.value, p)))
  }

  /** The Tempo default is deliberately not layered, as before. */
  function MergeLegacyContext(base: Option<LegacyContext>, over: Option<LegacyContext>): Option<LegacyContext> {
    if base.None? then over else if over.None? then base
    else
      var b, o := base.value, over.value;
      Some(LegacyContext(
        if o.grafana.None? then b.grafana else if b.grafana.None? then o.grafana else Some(MergeGrafana(b.grafana.value, o.grafana.value)),
        if o.cloud.None? then b.cloud else if b.cloud.None? then o.cloud else Some(MergeCloudFields(b.cloud.value, o.cloud.value)),
        Over(b.prometheus, o.prometheus), Over(b.loki, o.loki), Over(b.pyroscope, o.pyroscope), b.tempo,
        b.datasources + o.datasources,
        MergeProviders(b.providers, o.providers),
        MergeResources(b.resources, o.resources)))
  }

  function MergeLegacy(base: Legacy, over: Legacy): Legacy {
    Migration.Legacy.Legacy(
      map n | n in base.contexts.Keys + over.contexts.Keys ::
        if n !in over.contexts then base.contexts[n]
        else if n !in base.contexts then over.contexts[n]
        else MergeLegacyContext(base.contexts[n], over.contexts[n]),
      Over(base.currentContext, over.currentContext),
      MergeDiagnostics(base.diagnostics, over.diagnostics))
  }

  /** A legacy file in its layer, with the order its contexts are converted in. */
  datatype LegacyLayer = LegacyLayer(lc: Legacy, layerType: string, order: seq<string>)

  function MergeAllLegacy(layers: seq<LegacyLayer>): Legacy
    requires layers != []
  {
    if |layers| == 1 then layers[0].lc else MergeLegacy(MergeAllLegacy(layers[..|layers| - 1]), layers[|layers| - 1].lc)
  }

  // ----- Which legacy layer a field comes from -----

  /** The fields that a higher legacy layer replaces one by one. */
  datatype LegacyField =
    | Server | User | Password | ApiToken | OAuthAccess | OAuthRefresh | OAuthExpiry | OAuthRefreshExpiry | Proxy
    | OrgId | StackId | Tls
    | CloudAccessToken | CloudStack | CloudOAuthUrl | CloudApiUrl
    | Prometheus | Loki | Pyroscope
    | Datasource(kind: string)
    | ProviderValue(provider: string, key: string)
    | DryRunOfContext

  datatype Saying = Text(text: string) | Number(n: int) | List(items: seq<string>)

  function Worded(text: string): Option<Saying> {
    if text == "" then None else Some(Text(text))
  }

  function Counted(n: int): Option<Saying> {
    if n == 0 then None else Some(Number(n))
  }

  /** What a Grafana block says about its fields. */
  function ConnectionSays(g: Grafana, field: LegacyField): Option<Saying> {
    match field
    case Server => Worded(g.server)
    case User => Worded(g.user)
    case Password => Worded(g.password)
    case ApiToken => Worded(g.apiToken)
    case OAuthAccess => Worded(g.oauthToken)
    case OAuthRefresh => Worded(g.oauthRefreshToken)
    case OAuthExpiry => Worded(g.oauthTokenExpiresAt)
    case OAuthRefreshExpiry => Worded(g.oauthRefreshExpiresAt)
    case Proxy => Worded(g.proxyEndpoint)
    case OrgId => Counted(g.orgId)
    case StackId => Counted(g.stackId)
    case Tls => if g.tls.Some? then Some(Text(g.tls.value)) else None
    case _ => None
  }

  function CloudSays(c: LegacyCloud, field: LegacyField): Option<Saying> {
    match field
    case CloudAccessToken => Worded(c.token)
    case CloudStack => Worded(c.stack)
    case CloudOAuthUrl => Worded(c.oauthUrl)
    case CloudApiUrl => Worded(c.apiUrl)
    case _ => None
  }

  /** What a legacy context says about a field; None when it says nothing. */
  function ContextSays(ctx: LegacyContext, field: LegacyField): Option<Saying> {
    match field
    case Prometheus => Worded(ctx.prometheus)
    case Loki => Worded(ctx.loki)
    case Pyroscope => Worded(ctx.pyroscope)
    case Datasource(kind) => if kind in ctx.datasources then Some(Text(ctx.datasources[kind])) else None
    case ProviderValue(p, k) => RowSays(ctx.providers, p, k)
    case DryRunOfContext =>
      if ctx.resources.Some? && ctx.resources.value.assumeServerDryRun.Some? then Some(List(ctx.resources.value.assumeServerDryRun.value)) else None
    case CloudAccessToken | CloudStack | CloudOAuthUrl | CloudApiUrl => if ctx.cloud.Some? then CloudSays(ctx.cloud.value, field) else None
    case _ => if ctx.grafana.Some? then ConnectionSays(ctx.grafana.value, field) else None
  }

  function LegacySays(lc: Legacy, context: string, field: LegacyField): Option<Saying> {
    if context in lc.contexts && lc.contexts[context].Some? then ContextSays(lc.contexts[context].value, field) else None
  }

  lemma HigherLegacySaysFirst(base: Legacy, over: Legacy, context: string, field: LegacyField)
    ensures LegacySays(MergeLegacy(base, over), context, field)
            == if LegacySays(over, context, field).Some? then LegacySays(over, context, field) else LegacySays(base, context, field)
  {
    if context in base.contexts && context in over.contexts && base.contexts[context].Some? && over.contexts[context].Some? {
      HigherContextSaysFirst(base.contexts[context].value, over.contexts[context].value, field);
    }
    hide ContextSays, MergeLegacyContext;
  }

  lemma HigherContextSaysFirst(base: LegacyContext, over: LegacyContext, field: LegacyField)
    ensures var merged := MergeLegacyContext(Some(base), Some(over));
            merged.Some?
            && ContextSays(merged.value, field) == if ContextSays(over, field).Some? then ContextSays(over, field) else ContextSays(base, field)
  {
    hide ContextSays, MergeLegacyContext;
    if OfConnection(field) {
      ConnectionCase(base, over, field);
    } else if OfCloud(field) {
      CloudCase(base, over, field);
    } else {
      OtherCase(base, over, field);
    }
  }

  lemma ConnectionCase(base: LegacyContext, over: LegacyContext, field: LegacyField)
    requires OfConnection(field)
    ensures var merged := MergeLegacyContext(Some(base), Some(over));
            merged.Some?
            && ContextSays(merged.value, field) == if ContextSays(over, field).Some? then ContextSays(over, field) else ContextSays(base, field)
  {
    MergedParts(base, over);
    if base.grafana.Some? && over.grafana.Some? {
      HigherConnectionSaysFirst(base.grafana.value, over.grafana.value, field);
    }
    SaysItsConnection(base, field);
    SaysItsConnection(over, field);
    SaysItsConnection(MergeLegacyContext(Some(base), Some(over)).value, field);
    hide MergeLegacyContext, MergeGrafana, ConnectionSays, ContextSays, OfConnection;
  }

  lemma SaysItsConnection(ctx: LegacyContext, field: LegacyField)
    requires OfConnection(field)
    ensures ContextSays(ctx, field) == if ctx.grafana.Some? then ConnectionSays(ctx.grafana.value, field) else None
  {
    hide ConnectionSays;
  }

  lemma CloudCase(base: LegacyContext, over: LegacyContext, field: LegacyField)
    requires OfCloud(field)
    ensures var merged := MergeLegacyContext(Some(base), Some(over));
            merged.Some?
            && ContextSays(merged.value, field) == if ContextSays(over, field).Some? then ContextSays(over, field) else ContextSays(base, field)
  {
    MergedParts(base, over);
    if base.cloud.Some? && over.cloud.Some? {
      HigherCloudSaysFirst(base.cloud.value, over.cloud.value, field);
    }
    SaysItsCloud(base, field);
    SaysItsCloud(over, field);
    SaysItsCloud(MergeLegacyContext(Some(base), Some(over)).value, field);
    hide MergeLegacyContext, MergeCloudFields, CloudSays, ContextSays, OfCloud;
  }

  lemma SaysItsCloud(ctx: LegacyContext, field: LegacyField)
    requires OfCloud(field)
    ensures ContextSays(ctx, field) == if ctx.cloud.Some? then CloudSays(ctx.cloud.value, field) else None
  {
    hide CloudSays;
  }

  lemma OtherCase(base: LegacyContext, over: LegacyContext, field: LegacyField)
    requires !OfConnection(field) && !OfCloud(field)
    ensures var merged := MergeLegacyContext(Some(base), Some(over));
            merged.Some?
            && ContextSays(merged.value, field) == if ContextSays(over, field).Some? then ContextSays(over, field) else ContextSays(base, field)
  {
    MergedParts(base, over);
    if field.ProviderValue? {
      HigherRowSaysFirst(base.providers, over.providers, field.provider, field.key);
    }
    hide MergeLegacyContext, MergeResources, MergeProviders, RowSays, ConnectionSays, CloudSays;
    if field.DryRunOfContext? {
      DryRunCase(base, over);
    }
  }

  lemma DryRunCase(base: LegacyContext, over: LegacyContext)
    ensures var merged := MergeLegacyContext(Some(base), Some(over));
            merged.Some?
            && ContextSays(merged.value, DryRunOfContext)
               == if ContextSays(over, DryRunOfContext).Some? then ContextSays(over, DryRunOfContext) else ContextSays(base, DryRunOfContext)
  {
    MergedParts(base, over);
    hide MergeLegacyContext;
  }

  predicate OfConnection(field: LegacyField) {
    && !OfCloud(field) && !field.Prometheus? && !field.Loki? && !field.Pyroscope?
    && !field.Datasource? && !field.ProviderValue? && !field.DryRunOfContext?
  }

  predicate OfCloud(field: LegacyField) {
    field.CloudAccessToken? || field.CloudStack? || field.CloudOAuthUrl? || field.CloudApiUrl?
  }

  /** The parts of a merged context. */
  lemma MergedParts(base: LegacyContext, over: LegacyContext)
    ensures MergeLegacyContext(Some(base), Some(over)).Some?
    ensures var merged := MergeLegacyContext(Some(base), Some(over)).value;
            && merged.grafana == (if over.grafana.None? then base.grafana else if base.grafana.None? then over.grafana
                                  else Some(MergeGrafana(base.grafana.value, over.grafana.value)))
            && merged.cloud == (if over.cloud.None? then base.cloud else if base.cloud.None? then over.cloud
                                else Some(MergeCloudFields(base.cloud.value, over.cloud.value)))
            && merged.prometheus == Over(base.prometheus, over.prometheus) && merged.loki == Over(base.loki, over.loki)
            && merged.pyroscope == Over(base.pyroscope, over.pyroscope)
            && merged.datasources == base.datasources + over.datasources && merged.providers == MergeProviders(base.providers, over.providers)
            && merged.resources == MergeResources(base.resources, over.resources)
  {
    hide MergeGrafana, MergeCloudFields, MergeProviders;
  }

  lemma HigherConnectionSaysFirst(base: Grafana, over: Grafana, field: LegacyField)
    ensures ConnectionSays(MergeGrafana(base, over), field)
            == if ConnectionSays(over, field).Some? then ConnectionSays(over, field) else ConnectionSays(base, field)
  {
  }

  lemma HigherCloudSaysFirst(base: LegacyCloud, over: LegacyCloud, field: LegacyField)
    ensures CloudSays(MergeCloudFields(base, over), field)
            == if CloudSays(over, field).Some? then CloudSays(over, field) else CloudSays(base, field)
  {
  }

  function RowSays(providers: Option<Providers>, provider: string, key: string): Option<Saying> {
    if providers.Some? && provider in providers.value && providers.value[provider].Some? && key in providers.value[provider].value
    then Some(Text(providers.value[provider].value[key])) else None
  }

  lemma HigherRowSaysFirst(base: Option<Providers>, over: Option<Providers>, provider: string, key: string)
    ensures RowSays(MergeProviders(base, over), provider, key)
            == if RowSays(over, provider, key).Some? then RowSays(over, provider, key) else RowSays(base, provider, key)
  {
  }

  /** Legacy layer `i` is the highest that says something about the field. */
  ghost predicate LegacySaysLast(layers: seq<LegacyLayer>, i: int, context: string, field: LegacyField) {
    && 0 <= i < |layers| && LegacySays(layers[i].lc, context, field).Some?
    && forall j :: i < j < |layers| ==> LegacySays(layers[j].lc, context, field).None?
  }

  lemma LegacySaysLastBelow(layers: seq<LegacyLayer>, context: string, field: LegacyField)
    requires |layers| > 1
    ensures var last := |layers| - 1;
            forall i :: LegacySaysLast(layers, i, context, field) ==>
              if i == last then LegacySays(layers[last].lc, context, field).Some?
              else LegacySaysLast(layers[..last], i, context, field) && layers[..last][i] == layers[i] && LegacySays(layers[last].lc, context, field).None?
  {
    hide LegacySays;
  }

  /** Layers that share a context: each field of the merged context is that of the
      highest layer that sets it. */
  lemma {:induction false} HighestLegacyLayerDecides(layers: seq<LegacyLayer>, context: string, field: LegacyField)
    requires layers != []
    ensures forall i :: LegacySaysLast(layers, i, context, field) ==>
              LegacySays(MergeAllLegacy(layers), context, field) == LegacySays(layers[i].lc, context, field)
    ensures (forall i :: 0 <= i < |layers| ==> LegacySays(layers[i].lc, context, field).None?) ==>
              LegacySays(MergeAllLegacy(layers), context, field).None?
  {
    hide MergeLegacy, LegacySays;
    var last := |layers| - 1;
    if last > 0 {
      HighestLegacyLayerDecides(layers[..last], context, field);
      LegacySaysLastBelow(layers, context, field);
      HigherLegacySaysFirst(MergeAllLegacy(layers[..last]), layers[last].lc, context, field);
      hide LegacySaysLast;
    }
  }

  /** The Tempo default alone stays that of the lowest layer that has the context. */
  lemma {:induction false} LowestLayerKeepsTempo(layers: seq<LegacyLayer>, i: nat, context: string)
    requires i < |layers| && HasContext(layers[i].lc, context)
    requires forall j :: 0 <= j < i ==> !HasContext(layers[j].lc, context)
    ensures HasContext(MergeAllLegacy(layers), context)
    ensures MergeAllLegacy(layers).contexts[context].value.tempo == layers[i].lc.contexts[context].value.tempo
  {
    hide MergeDiagnostics, MergeProviders, MergeGrafana, MergeCloudFields, MergeResources;
    var last := |layers| - 1;
    if i < last {
      LowestLayerKeepsTempo(layers[..last], i, context);
    } else if last > 0 {
      NoLayerHasIt(layers[..last], context);
    }
  }

  predicate HasContext(lc: Legacy, context: string) {
    context in lc.contexts && lc.contexts[context].Some?
  }

  lemma {:induction false} NoLayerHasIt(layers: seq<LegacyLayer>, context: string)
    requires layers != [] && forall j :: 0 <= j < |layers| ==> !HasContext(layers[j].lc, context)
    ensures !HasContext(MergeAllLegacy(layers), context)
  {
    hide MergeDiagnostics, MergeProviders, MergeGrafana, MergeCloudFields, MergeResources;
    var last := |layers| - 1;
    if last > 0 {
      NoLayerHasIt(layers[..last], context);
    }
  }

  const NO_RUNTIME := Runtime("", None, false, map[], {}, map[])

  function MintsOf(urls: Urls, layer: LegacyLayer): Mints {
    MintAll(urls, LayerEntrySuffix(layer.layerType), TargetsOf(urls, map[], layer.lc), layer.order)
  }

  function ConvertLayer(urls: Urls, layer: LegacyLayer): Layer {
    Layer(Convert(urls, map[], LayerEntrySuffix(layer.layerType), layer.lc, layer.order), false, NO_RUNTIME)
  }

  function ConvertLayers(urls: Urls, layers: seq<LegacyLayer>): (converted: seq<Layer>)
    ensures |converted| == |layers|
    ensures forall i :: 0 <= i < |layers| ==> converted[i] == ConvertLayer(urls, layers[i])
  {
    seq(|layers|, i requires 0 <= i < |layers| => ConvertLayer(urls, layers[i]))
  }

  /** The document the converted layers merge to. */
  function ConvertedThenMerged(urls: Urls, layers: seq<LegacyLayer>): ConfigDocument
    requires layers != []
  {
    MergeAll(ConvertLayers(urls, layers)).doc
  }

  // ----- The comparison of the preflight -----

  function PublicCloud(entry: Option<CloudAuth>): Option<CloudAuth> {
    match entry case None => None case Some(e) => Some(e.(source := ""))
  }

  predicate ViewsEqual(urls: Urls, a: ConfigDocument, x: Context, b: ConfigDocument, y: Context) {
    && GrafanaOf(a, x) == GrafanaOf(b, y)
    && ProvidersOf(a, x) == ProvidersOf(b, y)
    && x.datasources == y.datasources
    && DryRunOf(a, x) == DryRunOf(b, y)
    && SlugOf(a, x, urls.slugFromServer) == SlugOf(b, y, urls.slugFromServer)
    && PublicCloud(CloudOf(a, x)) == PublicCloud(CloudOf(b, y))
  }

  predicate SameViewAt(urls: Urls, expected: ConfigDocument, actual: ConfigDocument, name: string)
    requires name in expected.contexts && expected.contexts[name].Some?
  {
    && name in actual.contexts && actual.contexts[name].Some?
    && ViewsEqual(urls, expected, expected.contexts[name].value, actual, actual.contexts[name].value)
  }

  predicate NoNilContext(doc: ConfigDocument) {
    forall n :: n in doc.contexts ==> doc.contexts[n].Some?
  }

  predicate EffectivelyEqual(urls: Urls, expected: ConfigDocument, actual: ConfigDocument)
    requires NoNilContext(expected)
  {
    && expected.currentContext == actual.currentContext && expected.contexts.Keys == actual.contexts.Keys
    && forall n :: n in expected.contexts ==> SameViewAt(urls, expected, actual, n)
  }

  method CompareMigratedEffectiveViews(urls: Urls, expected: ConfigDocument, actual: ConfigDocument) returns (same: bool)
    requires NoNilContext(expected)
    ensures same <==> EffectivelyEqual(urls, expected, actual)
  {
    hide ViewsEqual;
    assert |expected.contexts.Keys| == |expected.contexts| && |actual.contexts.Keys| == |actual.contexts|;
    if expected.currentContext != actual.currentContext || |expected.contexts| != |actual.contexts| {
      return false;
    }
    var remaining := expected.contexts.Keys;
    while remaining != {}
      invariant remaining <= expected.contexts.Keys
      invariant forall n :: n in expected.contexts && n !in remaining ==> SameViewAt(urls, expected, actual, n)
    {
      var name :| name in remaining;
      remaining := remaining - {name};
      if !SameViewAt(urls, expected, actual, name) {
        return false;
      }
    }
    EqualCounts(expected.contexts.Keys, actual.contexts.Keys);
    same := true;
  }

  /** The comparison of the layered preflight: two documents are effectively equal exactly
      when each context reaches equal connections, providers, datasources, dry-run items
      and slugs, and cloud entries that differ at most in the file they came from. */
  lemma EffectivelyEqualMeans(urls: Urls, expected: ConfigDocument, actual: ConfigDocument)
    requires forall n :: n in expected.contexts ==> expected.contexts[n].Some?
    ensures EffectivelyEqual(urls, expected, actual) <==>
              && expected.currentContext == actual.currentContext && expected.contexts.Keys == actual.contexts.Keys
              && forall n :: n in expected.contexts ==>
                   && actual.contexts[n].Some?
                   && SameReach(urls, expected, expected.contexts[n].value, actual, actual.contexts[n].value)
  {
    hide GrafanaOf, ProvidersOf, DryRunOf, SlugOf, CloudOf;
    forall n | n in expected.contexts && n in actual.contexts && actual.contexts[n].Some?
      ensures SameViewAt(urls, expected, actual, n) <==> SameReach(urls, expected, expected.contexts[n].value, actual, actual.contexts[n].value)
    {
    }
  }

  ghost predicate SameReach(urls: Urls, a: ConfigDocument, x: Context, b: ConfigDocument, y: Context) {
    && GrafanaOf(a, x) == GrafanaOf(b, y) && ProvidersOf(a, x) == ProvidersOf(b, y) && x.datasources == y.datasources
    && DryRunOf(a, x) == DryRunOf(b, y) && SlugOf(a, x, urls.slugFromServer) == SlugOf(b, y, urls.slugFromServer)
    && (CloudOf(a, x).Some? <==> CloudOf(b, y).Some?)
    && (CloudOf(a, x).Some? ==>
          var c, d := CloudOf(a, x).value, CloudOf(b, y).value;
          && c.token == d.token && c.oauthToken == d.oauthToken && c.oauthTokenExpiresAt == d.oauthTokenExpiresAt
          && c.oauthScopes == d.oauthScopes && c.oauthUrl == d.oauthUrl && c.apiUrl == d.apiUrl)
  }

  // ----- Both ways agree -----

  predicate Holds(layers: seq<LegacyLayer>, i: int, name: string) {
    0 <= i < |layers| && name in layers[i].lc.contexts
  }

  ghost predicate Apart(layers: seq<LegacyLayer>) {
    forall i, j, n :: Holds(layers, i, n) && Holds(layers, j, n) ==> i == j
  }

  ghost predicate WellOrdered(layers: seq<LegacyLayer>) {
    forall i :: 0 <= i < |layers| ==> Enumerates(layers[i].order, layers[i].lc)
  }

  lemma MergedStep(urls: Urls, layers: seq<LegacyLayer>)
    requires |layers| > 1
    ensures var last := |layers| - 1;
            && ConvertedThenMerged(urls, layers) == MergeDocuments(ConvertedThenMerged(urls, layers[..last]), ConvertLayer(urls, layers[last]).doc)
            && MergeAllLegacy(layers) == MergeLegacy(MergeAllLegacy(layers[..last]), layers[last].lc)
            && forall i, n :: Holds(layers, i, n) <==> Holds(layers[..last], i, n) || (i == last && n in layers[last].lc.contexts)
  {
    LastLayerMerges(urls, layers);
    HoldsBelow(layers);
    hide MergeDocuments, MergeRuntime, MergeLegacy, ConvertLayer, ConvertedThenMerged, MergeAllLegacy, Holds;
  }

  lemma HoldsBelow(layers: seq<LegacyLayer>)
    requires |layers| > 1
    ensures var last := |layers| - 1;
            forall i, n :: Holds(layers, i, n) <==> Holds(layers[..last], i, n) || (i == last && n in layers[last].lc.contexts)
  {
  }

  lemma LastLayerMerges(urls: Urls, layers: seq<LegacyLayer>)
    requires |layers| > 1
    ensures var last := |layers| - 1;
            && ConvertedThenMerged(urls, layers) == MergeDocuments(ConvertedThenMerged(urls, layers[..last]), ConvertLayer(urls, layers[last]).doc)
            && MergeAllLegacy(layers) == MergeLegacy(MergeAllLegacy(layers[..last]), layers[last].lc)
  {
    var last := |layers| - 1;
    var converted := ConvertLayers(urls, layers);
    TopLayerMerges(converted);
    TopLegacyMerges(layers);
    hide MergeDocuments, MergeRuntime, MergeLegacy, ConvertLayer, MergeAll, MergeAllLegacy;
    assert converted[..last] == ConvertLayers(urls, layers[..last]);
    assert converted[last] == ConvertLayer(urls, layers[last]);
  }

  lemma TopLayerMerges(layers: seq<Layer>)
    requires |layers| > 1
    ensures MergeAll(layers).doc == MergeDocuments(MergeAll(layers[..|layers| - 1]).doc, layers[|layers| - 1].doc)
  {
    hide MergeDocuments, MergeRuntime;
  }

  lemma TopLegacyMerges(layers: seq<LegacyLayer>)
    requires |layers| > 1
    ensures MergeAllLegacy(layers) == MergeLegacy(MergeAllLegacy(layers[..|layers| - 1]), layers[|layers| - 1].lc)
  {
    hide MergeLegacy;
  }

  lemma ConvertedHeader(urls: Urls, layer: LegacyLayer)
    ensures var doc := ConvertLayer(urls, layer).doc;
            doc.contexts.Keys == layer.lc.contexts.Keys && doc.currentContext == layer.lc.currentContext && doc.resources == None
  {
  }

  ghost predicate PassedThrough(layers: seq<LegacyLayer>, urls: Urls, legacy: Legacy, doc: ConfigDocument) {
    && (forall n :: n in legacy.contexts <==> exists i :: Holds(layers, i, n))
    && doc.contexts.Keys == legacy.contexts.Keys
    && (forall i, n | Holds(layers, i, n) :: legacy.contexts[n] == layers[i].lc.contexts[n])
    && (forall i, n | Holds(layers, i, n) :: n in ConvertLayer(urls, layers[i]).doc.contexts && doc.contexts[n] == ConvertLayer(urls, layers[i]).doc.contexts[n])
    && legacy.currentContext == doc.currentContext && doc.resources == None
  }

  /** With no context in two layers, each merge hands every context through whole. */
  lemma {:induction false} ContextsPassThrough(urls: Urls, layers: seq<LegacyLayer>)
    requires layers != [] && Apart(layers)
    ensures PassedThrough(layers, urls, MergeAllLegacy(layers), ConvertedThenMerged(urls, layers))
  {
    hide ConvertLayer, MergeLegacyContext, MergeContext;
    var last := |layers| - 1;
    ConvertedHeader(urls, layers[last]);
    if last == 0 {
      assert forall n :: n in layers[0].lc.contexts <==> Holds(layers, 0, n);
    } else {
      var front := layers[..last];
      MergedStep(urls, layers);
      assert Apart(front) by {
        assert forall i, n :: Holds(front, i, n) ==> Holds(layers, i, n);
      }
      ContextsPassThrough(urls, front);
      OneMoreLayer(urls, layers, MergeAllLegacy(front), ConvertedThenMerged(urls, front));
    }
  }

  lemma OneMoreLayer(urls: Urls, layers: seq<LegacyLayer>, legacy: Legacy, doc: ConfigDocument)
    requires |layers| > 1 && Apart(layers)
    requires PassedThrough(layers[..|layers| - 1], urls, legacy, doc)
    ensures var last := layers[|layers| - 1];
            PassedThrough(layers, urls, MergeLegacy(legacy, last.lc), MergeDocuments(doc, ConvertLayer(urls, last).doc))
  {
    hide ConvertLayer, MergeLegacyContext, MergeContext;
    var k := |layers| - 1;
    ConvertedHeader(urls, layers[k]);
    var front, over := layers[..k], ConvertLayer(urls, layers[k]).doc;
    assert forall i, n :: Holds(layers, i, n) <==> Holds(front, i, n) || (i == k && n in layers[k].lc.contexts);
    var l, d := MergeLegacy(legacy, layers[k].lc), MergeDocuments(doc, over);
    forall n ensures n in l.contexts <==> exists i :: Holds(layers, i, n) {
      if n in layers[k].lc.contexts {
        assert Holds(layers, k, n);
      }
    }
    assert d.contexts.Keys == l.contexts.Keys;
    forall i, n | Holds(layers, i, n)
      ensures l.contexts[n] == layers[i].lc.contexts[n]
      ensures n in ConvertLayer(urls, layers[i]).doc.contexts && d.contexts[n] == ConvertLayer(urls, layers[i]).doc.contexts[n]
    {
      if i == k {
        assert forall j :: Holds(front, j, n) ==> Holds(layers, j, n);
        assert n !in legacy.contexts;
      } else {
        assert Holds(front, i, n) && !Holds(layers, k, n);
      }
    }
  }

  lemma OwnerNames(doc: ConfigDocument, name: string)
    ensures Defines(doc, "stack:" + name) <==> name in doc.stacks
    ensures Defines(doc, "cloud:" + name) <==> name in doc.cloud
    ensures IsStack("stack:" + name) && ("stack:" + name)[6..] == name
    ensures IsCloud("cloud:" + name) && ("cloud:" + name)[6..] == name
  {
    assert ("stack:" + name)[..6] == "stack:" && ("cloud:" + name)[..6] == "cloud:";
  }

  lemma StacksAreOwn(urls: Urls, layer: LegacyLayer)
    ensures ConvertLayer(urls, layer).doc.stacks.Keys <= layer.lc.contexts.Keys
  {
  }

  function LookUp<V>(entries: map<string, V>, name: string): Option<V> {
    if name in entries then Some(entries[name]) else None
  }

  lemma StacksPassThrough(urls: Urls, layers: seq<LegacyLayer>, i: int, name: string)
    requires layers != [] && Apart(layers) && Holds(layers, i, name)
    ensures LookUp(ConvertedThenMerged(urls, layers).stacks, name) == LookUp(ConvertLayer(urls, layers[i]).doc.stacks, name)
  {
    hide Convert, MergeAll, Defines, IsStack, IsCloud;
    var converted := ConvertLayers(urls, layers);
    WinnersAreWhole(converted, "stack:" + name);
    OwnerNames(MergeAll(converted).doc, name);
    forall j | 0 <= j < |layers| ensures Defines(converted[j].doc, "stack:" + name) ==> j == i {
      OwnerNames(converted[j].doc, name);
      StacksAreOwn(urls, layers[j]);
      assert name in layers[j].lc.contexts ==> Holds(layers, j, name);
    }
    OwnerNames(converted[i].doc, name);
    assert Defines(converted[i].doc, "stack:" + name) ==> Wins(converted, i, "stack:" + name);
  }

  lemma TopWins(layers: seq<Layer>, i: int, owner: string) returns (k: int)
    requires 0 <= i < |layers| && Defines(layers[i].doc, owner)
    ensures i <= k && Wins(layers, k, owner)
    decreases |layers| - i
  {
    if j :| i < j < |layers| && Defines(layers[j].doc, owner) {
      k := TopWins(layers, j, owner);
    } else {
      k := i;
    }
  }

  /** The merged cloud entry under a name is that of the highest layer minting it. */
  lemma TopEntry(urls: Urls, layers: seq<LegacyLayer>, i: int, e: string) returns (k: int)
    requires 0 <= i < |layers| && e in MintsOf(urls, layers[i]).cloud
    ensures i <= k < |layers| && e in MintsOf(urls, layers[k]).cloud
    ensures e in ConvertedThenMerged(urls, layers).cloud
    ensures ConvertedThenMerged(urls, layers).cloud[e] == Some(AuthOf(MintsOf(urls, layers[k]).cloud[e]))
  {
    hide MergeAll, Defines, IsStack, IsCloud, MintAll;
    var converted := ConvertLayers(urls, layers);
    OwnerNames(converted[i].doc, e);
    k := TopWins(converted, i, "cloud:" + e);
    WinnersAreWhole(converted, "cloud:" + e);
    OwnerNames(converted[k].doc, e);
    OwnerNames(MergeAll(converted).doc, e);
  }

  /** The context at `p` of a layer brings an entry under the name `e`. */
  ghost predicate LayerBrings(urls: Urls, layer: LegacyLayer, p: int, e: string) {
    Brings(urls, LayerEntrySuffix(layer.layerType), TargetsOf(urls, map[], layer.lc), layer.order, p, e)
  }

  /** A name that contexts of two layers bring, going by the names alone, stands for one
      tuple. */
  ghost predicate NoShadowing(urls: Urls, layers: seq<LegacyLayer>) {
    forall i, j, p, q, e | 0 <= i < j < |layers| && LayerBrings(urls, layers[i], p, e) && LayerBrings(urls, layers[j], q, e) ::
      0 <= p < |layers[i].order| && 0 <= q < |layers[j].order|
      && LayerTarget(urls, layers[i], layers[i].order[p]) == LayerTarget(urls, layers[j], layers[j].order[q])
  }

  ghost predicate NoTwoTuples(urls: Urls, layers: seq<LegacyLayer>) {
    forall i, j, e | 0 <= i < j < |layers| && e in MintsOf(urls, layers[i]).cloud && e in MintsOf(urls, layers[j]).cloud ::
      MintsOf(urls, layers[i]).cloud[e] == MintsOf(urls, layers[j]).cloud[e]
  }

  /** No context's second candidate is taken and no two tuples are confused. */
  ghost predicate Clean(urls: Urls, layer: LegacyLayer) {
    && NothingReplaced(urls, LayerEntrySuffix(layer.layerType), TargetsOf(urls, map[], layer.lc), layer.order)
    && Distinguished(TargetsOf(urls, map[], layer.lc), layer.order)
  }

  /** The minted entries are exactly the ones the names announce. */
  ghost predicate Announced(urls: Urls, layer: LegacyLayer) {
    var cloud := MintsOf(urls, layer).cloud;
    && (forall e :: e in cloud ==> exists p :: LayerBrings(urls, layer, p, e))
    && (forall p, e :: LayerBrings(urls, layer, p, e) ==>
          0 <= p < |layer.order| && e in cloud && Some(cloud[e]) == LayerTarget(urls, layer, layer.order[p]))
  }

  lemma CleanIsAnnounced(urls: Urls, layer: LegacyLayer)
    requires Enumerates(layer.order, layer.lc) && Clean(urls, layer)
    ensures Announced(urls, layer)
  {
    hide MintAll, NothingReplaced, Distinguished, LegacyTarget, First, NameOf;
    var suffix, targets := LayerEntrySuffix(layer.layerType), TargetsOf(urls, map[], layer.lc);
    BroughtExactly(urls, suffix, targets, layer.order);
    var m := MintAll(urls, suffix, targets, layer.order);
    assert MintsOf(urls, layer) == m;
    forall e | e in m.cloud ensures exists p :: LayerBrings(urls, layer, p, e) {
      assert Brought(urls, suffix, targets, layer.order, e);
      var p :| Brings(urls, suffix, targets, layer.order, p, e);
      assert LayerBrings(urls, layer, p, e);
    }
  }

  lemma ShadowingByNames(urls: Urls, layers: seq<LegacyLayer>)
    requires WellOrdered(layers) && AllClean(urls, layers)
    ensures NoShadowing(urls, layers) <==> NoTwoTuples(urls, layers)
  {
    hide MintsOf, LayerBrings, LayerTarget, Clean, Enumerates;
    forall i | 0 <= i < |layers| ensures Announced(urls, layers[i]) {
      CleanIsAnnounced(urls, layers[i]);
    }
    if NoShadowing(urls, layers) {
      forall i, j, e | 0 <= i < j < |layers| && e in MintsOf(urls, layers[i]).cloud && e in MintsOf(urls, layers[j]).cloud
        ensures MintsOf(urls, layers[i]).cloud[e] == MintsOf(urls, layers[j]).cloud[e]
      {
        var p :| LayerBrings(urls, layers[i], p, e);
        var q :| LayerBrings(urls, layers[j], q, e);
      }
    }
  }

  ghost predicate AllClean(urls: Urls, layers: seq<LegacyLayer>) {
    forall i :: 0 <= i < |layers| ==> Clean(urls, layers[i])
  }

  function LayerTarget(urls: Urls, layer: LegacyLayer, name: string): Option<Target> {
    if name in layer.lc.contexts then TargetOf(urls, map[], name, layer.lc.contexts[name]) else None
  }

  function AuthOption(t: Option<Target>): Option<CloudAuth> {
    match t case None => None case Some(target) => Some(AuthOf(target))
  }

  /** In a clean layer, a context's reference leads to its own tuple. */
  lemma CleanReference(urls: Urls, layer: LegacyLayer, name: string)
    requires Enumerates(layer.order, layer.lc) && ProperNames(urls) && Clean(urls, layer) && name in layer.lc.contexts
    ensures var t, m, doc := LayerTarget(urls, layer, name), MintsOf(urls, layer), ConvertLayer(urls, layer).doc;
            && doc.contexts[name].Some? && CloudOf(doc, doc.contexts[name].value) == AuthOption(t)
            && (t.None? ==> doc.contexts[name].value.cloud == "")
            && (t.Some? ==> var e := doc.contexts[name].value.cloud;
                            e != "" && e in m.cloud && m.cloud[e] == t.value)
  {
    hide MintAll, Folded, LegacyTarget;
    var targets := TargetsOf(urls, map[], layer.lc);
    MintingCovers(urls, LayerEntrySuffix(layer.layerType), targets, layer.order);
    GivenNamesAreProper(urls, LayerEntrySuffix(layer.layerType), targets, layer.order);
    FaithfulExactly(urls, LayerEntrySuffix(layer.layerType), targets, layer.order);
    assert Found(MintsOf(urls, layer), targets, name);
  }

  lemma CleanEntryIsUsed(urls: Urls, layer: LegacyLayer, e: string) returns (name: string)
    requires Enumerates(layer.order, layer.lc) && e in MintsOf(urls, layer).cloud
    ensures name in layer.lc.contexts && LayerTarget(urls, layer, name) == Some(MintsOf(urls, layer).cloud[e])
    ensures ConvertLayer(urls, layer).doc.contexts[name].Some? && ConvertLayer(urls, layer).doc.contexts[name].value.cloud == e
  {
    hide MintAll, Folded, LegacyTarget;
    var targets := TargetsOf(urls, map[], layer.lc);
    MintingIsGrounded(urls, LayerEntrySuffix(layer.layerType), targets, layer.order);
    name :| Grounds(MintsOf(urls, layer), targets, layer.order, e, name);
  }

  /** The merged legacy file, as one more layer. */
  function MergedLayer(layers: seq<LegacyLayer>, order: seq<string>): LegacyLayer
    requires layers != []
  {
    LegacyLayer(MergeAllLegacy(layers), "", order)
  }

  /** A converted context without its cloud reference depends on the legacy context
      and its name alone. */
  lemma SameWithoutCloud(urls: Urls, a: LegacyLayer, b: LegacyLayer, name: string)
    requires name in a.lc.contexts && name in b.lc.contexts && a.lc.contexts[name] == b.lc.contexts[name]
    ensures var x, y := ConvertLayer(urls, a).doc, ConvertLayer(urls, b).doc;
            && LookUp(x.stacks, name) == LookUp(y.stacks, name) && x.resources == None
            && x.contexts[name].Some? && y.contexts[name].Some?
            && x.contexts[name].value.stack == y.contexts[name].value.stack
            && (x.contexts[name].value.stack == "" || x.contexts[name].value.stack == name)
            && x.contexts[name].value.datasources == y.contexts[name].value.datasources
    ensures LayerTarget(urls, a, name) == LayerTarget(urls, b, name)
  {
    hide MintAll, Folded, ConvertStack, HasStack, LegacyTarget;
  }

  ghost predicate Comparable(urls: Urls, layers: seq<LegacyLayer>, order: seq<string>) {
    && layers != [] && Apart(layers) && WellOrdered(layers) && ProperNames(urls) && AllClean(urls, layers)
    && Enumerates(order, MergeAllLegacy(layers)) && Clean(urls, MergedLayer(layers, order))
  }

  /** The merged document resolves the context's reference to its own tuple. */
  predicate ReachesOwn(urls: Urls, layers: seq<LegacyLayer>, i: int, name: string)
    requires Holds(layers, i, name)
  {
    var own := ConvertLayer(urls, layers[i]).doc;
    name in own.contexts && own.contexts[name].Some?
    && PublicCloud(CloudOf(ConvertedThenMerged(urls, layers), own.contexts[name].value)) == AuthOption(LayerTarget(urls, layers[i], name))
  }

  /** Everything but the cloud view agrees; the cloud view agrees when the reference
      still leads to the context's own tuple. */
  lemma ViewsAgree(urls: Urls, layers: seq<LegacyLayer>, order: seq<string>, i: int, name: string)
    requires Comparable(urls, layers, order) && Holds(layers, i, name)
    ensures name in MergeAllLegacy(layers).contexts
    ensures var expected := ConvertLayer(urls, MergedLayer(layers, order)).doc;
            && name in expected.contexts && expected.contexts[name].Some?
            && (SameViewAt(urls, expected, ConvertedThenMerged(urls, layers), name) <==> ReachesOwn(urls, layers, i, name))
  {
    hide ConvertLayer, ConvertedThenMerged, MergeAllLegacy, Clean, LayerTarget, GrafanaOf, ProvidersOf, DryRunOf, SlugOf;
    var merged := MergedLayer(layers, order);
    var expected, actual, own := ConvertLayer(urls, merged).doc, ConvertedThenMerged(urls, layers), ConvertLayer(urls, layers[i]).doc;
    ContextsPassThrough(urls, layers);
    StacksPassThrough(urls, layers, i, name);
    ConvertedHeader(urls, merged);
    SameWithoutCloud(urls, merged, layers[i], name);
    CleanReference(urls, merged, name);
    SameStackViews(urls, expected, expected.contexts[name].value, actual, actual.contexts[name].value);
  }

  lemma SameStackViews(urls: Urls, a: ConfigDocument, x: Context, b: ConfigDocument, y: Context)
    requires a.resources == b.resources == None && StackOf(a, x) == StackOf(b, y)
    ensures GrafanaOf(a, x) == GrafanaOf(b, y) && ProvidersOf(a, x) == ProvidersOf(b, y) && DryRunOf(a, x) == DryRunOf(b, y)
    ensures SlugOf(a, x, urls.slugFromServer) == SlugOf(b, y, urls.slugFromServer)
  {
  }

  lemma UnshadowedReachesOwn(urls: Urls, layers: seq<LegacyLayer>, i: int, name: string)
    requires Apart(layers) && WellOrdered(layers) && ProperNames(urls) && AllClean(urls, layers) && Holds(layers, i, name)
    requires NoTwoTuples(urls, layers)
    ensures ReachesOwn(urls, layers, i, name)
  {
    hide ConvertLayer, ConvertedThenMerged, MintsOf, LayerTarget, Distinguished;
    ConvertedHeader(urls, layers[i]);
    CleanReference(urls, layers[i], name);
    var own := ConvertLayer(urls, layers[i]).doc.contexts[name].value;
    if LayerTarget(urls, layers[i], name).Some? {
      var k := TopEntry(urls, layers, i, own.cloud);
    }
  }

  /** A tuple hidden behind another is missed by the context that minted it. */
  lemma ShadowedMissesOwn(urls: Urls, layers: seq<LegacyLayer>, i: int, k: int, e: string) returns (name: string)
    requires WellOrdered(layers) && ProperNames(urls) && 0 <= i < |layers| && 0 <= k < |layers|
    requires e in MintsOf(urls, layers[i]).cloud && e in MintsOf(urls, layers[k]).cloud && AllClean(urls, layers)
    requires MintsOf(urls, layers[i]).cloud[e] != MintsOf(urls, layers[k]).cloud[e]
    requires e in ConvertedThenMerged(urls, layers).cloud
    requires ConvertedThenMerged(urls, layers).cloud[e] == Some(AuthOf(MintsOf(urls, layers[k]).cloud[e]))
    ensures Holds(layers, i, name) && !ReachesOwn(urls, layers, i, name)
  {
    hide ConvertLayer, ConvertedThenMerged, MintsOf, LayerTarget, Distinguished;
    name := CleanEntryIsUsed(urls, layers[i], e);
    CleanReference(urls, layers[i], name);
  }

  /** For clean layers without a common context, converting and merging commute exactly
      when no minted name stands for different tuples in two layers. */
  lemma LayeringCommutes(urls: Urls, layers: seq<LegacyLayer>, order: seq<string>)
    requires Comparable(urls, layers, order)
    ensures NoNilContext(ConvertLayer(urls, MergedLayer(layers, order)).doc)
    ensures EffectivelyEqual(urls, ConvertLayer(urls, MergedLayer(layers, order)).doc, ConvertedThenMerged(urls, layers))
            <==> NoShadowing(urls, layers)
  {
    ShadowingByNames(urls, layers);
    hide MintsOf, Clean, ReachesOwn, ConvertLayer, ConvertedThenMerged, MergeAllLegacy, SameViewAt, Enumerates, NoShadowing;
    var expected, actual := ConvertLayer(urls, MergedLayer(layers, order)).doc, ConvertedThenMerged(urls, layers);
    ContextsPassThrough(urls, layers);
    ConvertedHeader(urls, MergedLayer(layers, order));
    forall n | n in expected.contexts ensures expected.contexts[n].Some? && exists i :: Holds(layers, i, n) {
      var i :| Holds(layers, i, n);
      ViewsAgree(urls, layers, order, i, n);
    }
    if NoTwoTuples(urls, layers) {
      forall n | n in expected.contexts ensures SameViewAt(urls, expected, actual, n) {
        var i :| Holds(layers, i, n);
        ViewsAgree(urls, layers, order, i, n);
        UnshadowedReachesOwn(urls, layers, i, n);
      }
    } else {
      var i, j, e :| 0 <= i < j < |layers| && e in MintsOf(urls, layers[i]).cloud && e in MintsOf(urls, layers[j]).cloud
        && MintsOf(urls, layers[i]).cloud[e] != MintsOf(urls, layers[j]).cloud[e];
      var k := TopEntry(urls, layers, i, e);
      var p := if MintsOf(urls, layers[i]).cloud[e] != MintsOf(urls, layers[k]).cloud[e] then i else j;
      var name := ShadowedMissesOwn(urls, layers, p, k, e);
      ViewsAgree(urls, layers, order, p, name);
    }
  }

  /** Two clean layers without a common context. */
  function UserLayer(): LegacyLayer {
    LegacyLayer(Migration.Legacy.Legacy(
      map["a" := OnlyCloud("first", "https://grafana.com"), "local" := OnlyCloud("second", "https://grafana.com")], "a", None),
      "user", ["a", "local"])
  }

  function RepositoryLayer(): LegacyLayer {
    LegacyLayer(Migration.Legacy.Legacy(map["x" := OnlyCloud("third", "https://grafana.com")], "", None), "local", ["x"])
  }

  lemma LayerTargets(urls: Urls)
    ensures var a := Target("first", "https://grafana.com", "https://grafana.com");
            var b := Target("second", "https://grafana.com", "https://grafana.com");
            var c := Target("third", "https://grafana.com", "https://grafana.com");
            && TargetsOf(urls, map[], UserLayer().lc) == map["a" := Some(a), "local" := Some(b)]
            && TargetsOf(urls, map[], RepositoryLayer().lc) == map["x" := Some(c)]
            && TargetsOf(urls, map[], MergeLegacy(UserLayer().lc, RepositoryLayer().lc)) == map["a" := Some(a), "local" := Some(b), "x" := Some(c)]
            && LayerEntrySuffix("user") == "" == LayerEntrySuffix("") && LayerEntrySuffix("local") == "-local"
  {
    OnlyCloudTarget(urls, "a", "first", "https://grafana.com");
    OnlyCloudTarget(urls, "local", "second", "https://grafana.com");
    OnlyCloudTarget(urls, "x", "third", "https://grafana.com");
    hide LegacyTarget, OnlyCloud;
  }

  lemma TwoLayersMerge()
    ensures var layers := [UserLayer(), RepositoryLayer()];
            && MergeAllLegacy(layers) == MergeLegacy(UserLayer().lc, RepositoryLayer().lc)
            && Apart(layers) && WellOrdered(layers) && Enumerates(["a", "local", "x"], MergeAllLegacy(layers))
  {
    var layers := [UserLayer(), RepositoryLayer()];
    assert layers[..1] == [UserLayer()];
    hide OnlyCloud;
  }

  lemma LiteralsAreNulFree()
    ensures NulFree("first") && NulFree("second") && NulFree("third") && NulFree("https://grafana.com")
  {
  }

  lemma LayersAreOrdered()
    ensures Enumerates(UserLayer().order, UserLayer().lc) && Enumerates(RepositoryLayer().order, RepositoryLayer().lc)
  {
    hide OnlyCloud;
  }

  lemma UserLayerMints(urls: Urls)
    requires urls.entryName("https://grafana.com") == "grafana-com"
    ensures Clean(urls, UserLayer()) && "grafana-com-local" in MintsOf(urls, UserLayer()).cloud
    ensures MintsOf(urls, UserLayer()).cloud["grafana-com-local"].token == "second"
  {
    LayerTargets(urls);
    SuffixesCollide(urls);
    LiteralsAreNulFree();
    LayersAreOrdered();
    hide TargetsOf, OnlyCloud, MintAll, Clean, LayerEntrySuffix, NulFree, Enumerates;
    var layer := UserLayer();
    assert layer.layerType == "user" && layer.order == ["a", "local"];
    hide UserLayer;
    UnclobberedIsClean(urls, layer);
  }

  lemma RepositoryLayerMints(urls: Urls)
    requires urls.entryName("https://grafana.com") == "grafana-com"
    ensures Clean(urls, RepositoryLayer()) && "grafana-com-local" in MintsOf(urls, RepositoryLayer()).cloud
    ensures MintsOf(urls, RepositoryLayer()).cloud["grafana-com-local"].token == "third"
  {
    LayerTargets(urls);
    SuffixesCollide(urls);
    LiteralsAreNulFree();
    LayersAreOrdered();
    hide TargetsOf, OnlyCloud, MintAll, Clean, LayerEntrySuffix, NulFree, Enumerates;
    var layer := RepositoryLayer();
    assert layer.layerType == "local" && layer.order == ["x"];
    hide RepositoryLayer;
    UnclobberedIsClean(urls, layer);
  }

  lemma MergedLayerIsClean(urls: Urls)
    requires urls.entryName("https://grafana.com") == "grafana-com"
    ensures Clean(urls, MergedLayer([UserLayer(), RepositoryLayer()], ["a", "local", "x"]))
  {
    TwoLayersMerge();
    LayerTargets(urls);
    MergedTargetsAreClean(urls);
    LiteralsAreNulFree();
    hide TargetsOf, OnlyCloud, MintAll, Clean, MergeAllLegacy, MergeLegacy, Enumerates, UserLayer, RepositoryLayer, LayerEntrySuffix, NulFree;
    UnclobberedIsClean(urls, MergedLayer([UserLayer(), RepositoryLayer()], ["a", "local", "x"]));
  }

  lemma TwoLayers(urls: Urls, a: LegacyLayer, b: LegacyLayer, e: string)
    requires Clean(urls, a) && Clean(urls, b)
    requires e in MintsOf(urls, a).cloud && e in MintsOf(urls, b).cloud && MintsOf(urls, a).cloud[e] != MintsOf(urls, b).cloud[e]
    ensures AllClean(urls, [a, b]) && !NoTwoTuples(urls, [a, b])
  {
    hide MintsOf, Clean;
    assert [a, b][0] == a && [a, b][1] == b;
  }

  /** Converting them and merging differs from merging and converting: the user's
      context "local" gets the repository's credential. */
  lemma SuffixesDoNotHelp(urls: Urls)
    requires ProperNames(urls) && urls.entryName("https://grafana.com") == "grafana-com"
    ensures var layers := [UserLayer(), RepositoryLayer()];
            && Comparable(urls, layers, ["a", "local", "x"])
            && NoNilContext(ConvertLayer(urls, MergedLayer(layers, ["a", "local", "x"])).doc)
            && !EffectivelyEqual(urls, ConvertLayer(urls, MergedLayer(layers, ["a", "local", "x"])).doc, ConvertedThenMerged(urls, layers))
  {
    TwoLayersMerge();
    UserLayerMints(urls);
    RepositoryLayerMints(urls);
    MergedLayerIsClean(urls);
    TwoLayers(urls, UserLayer(), RepositoryLayer(), "grafana-com-local");
    hide UserLayer, RepositoryLayer, MintsOf, Clean, ConvertLayer, ConvertedThenMerged, EffectivelyEqual, NoShadowing, NoTwoTuples,
      MergeAllLegacy, Enumerates, AllClean, WellOrdered, Apart, MergedLayer, NoNilContext;
    LayeringCommutes(urls, [UserLayer(), RepositoryLayer()], ["a", "local", "x"]);
    ShadowingByNames(urls, [UserLayer(), RepositoryLayer()]);
  }

  lemma UnclobberedIsClean(urls: Urls, layer: LegacyLayer)
    requires Enumerates(layer.order, layer.lc) && !MintsOf(urls, layer).clobbered
    requires forall n :: Bears(TargetsOf(urls, map[], layer.lc), n) ==>
               NulFree(TargetsOf(urls, map[], layer.lc)[n].value.token) && NulFree(TargetsOf(urls, map[], layer.lc)[n].value.apiUrl)
    ensures Clean(urls, layer)
  {
    ClobberedExactly(urls, LayerEntrySuffix(layer.layerType), TargetsOf(urls, map[], layer.lc), layer.order);
    NulFreeIsDistinguished(TargetsOf(urls, map[], layer.lc), layer.order);
  }
}
