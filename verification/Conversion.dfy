/** Converting a legacy config and checking the result before it replaces the legacy
    file (internal/config/migrate.go). */
module Conversion {
  import opened ConfigTypes
  import opened Credentials
  import opened Migration
  import opened Minting
  import opened Scopes
  import opened Wrappers

  function LayerEntrySuffix(layerType: string): string {
    if layerType == "local" || layerType == "system" then "-" + layerType else ""
  }

  function TargetOf(urls: Urls, secrets: LegacySecrets, name: string, lctx: Option<LegacyContext>): Option<Target> {
    if lctx.None? then None else LegacyTarget(urls, secrets, name, lctx.value)
  }

  function TargetsOf(urls: Urls, secrets: LegacySecrets, lc: Legacy): Targets {
    map n | n in lc.contexts :: TargetOf(urls, secrets, n, lc.contexts[n])
  }

  function AuthOf(t: Target): CloudAuth {
    CloudAuth("", t.token, "", "", [], t.oauthUrl, t.apiUrl)
  }

  function Given(m: Mints, name: string): string {
    if name in m.given then m.given[name] else ""
  }

  /** The entry a context finds under the name it was given. */
  function CloudAt(m: Mints, name: string): Option<CloudAuth> {
    if name in m.given && m.given[name] in m.cloud then Some(AuthOf(m.cloud[m.given[name]])) else None
  }

  function ConvertedContext(m: Mints, name: string, lctx: Option<LegacyContext>): Context {
    if lctx.None? then Context("", "", map[])
    else Context(if HasStack(lctx.value) then name else "", Given(m, name), Folded(lctx.value, KINDS))
  }

  function ConvertedStacks(secrets: LegacySecrets, contexts: map<string, Option<LegacyContext>>): map<string, Option<Stack>> {
    map n | n in contexts && contexts[n].Some? && HasStack(contexts[n].value) :: ConvertStack(secrets, n, contexts[n].value)
  }

  function Entries(cloud: map<string, Target>): map<string, Option<CloudAuth>> {
    map e | e in cloud :: Some(AuthOf(cloud[e]))
  }

  /** The converted document, for a given order of the contexts. */
  function Convert(urls: Urls, secrets: LegacySecrets, suffix: string, lc: Legacy, order: seq<string>): ConfigDocument {
    var m := MintAll(urls, suffix, TargetsOf(urls, secrets, lc), order);
    ConfigDocument(CONFIG_VERSION, lc.currentContext, lc.diagnostics, ConvertedStacks(secrets, lc.contexts), Entries(m.cloud), None,
             map n | n in lc.contexts :: Some(ConvertedContext(m, n, lc.contexts[n])))
  }

  predicate Enumerates(order: seq<string>, lc: Legacy) {
    Unique(order) && (forall n :: n in order ==> n in lc.contexts) && forall n :: n in lc.contexts ==> n in order
  }

  ghost predicate ProperNames(urls: Urls) {
    forall url :: urls.entryName(url) != ""
  }

  // ----- The views -----

  ghost predicate StackViewKept(urls: Urls, secrets: LegacySecrets, name: string, lctx: LegacyContext, doc: ConfigDocument, ctx: Context) {
    && GrafanaOf(doc, ctx) == LegacyGrafana(secrets, name, lctx)
    && (ProvidersOf(doc, ctx) == LegacyProviders(secrets, name, lctx)
        || (IsEmpty(ProvidersOf(doc, ctx)) && IsEmpty(LegacyProviders(secrets, name, lctx))))
    && (forall item :: item in DryRunOf(doc, ctx) <==> item in DryRunList(lctx.resources))
    && SlugOf(doc, ctx, urls.slugFromServer) == LegacySlug(urls, lctx)
  }

  predicate CloudViewKept(urls: Urls, secrets: LegacySecrets, name: string, lctx: LegacyContext, doc: ConfigDocument, ctx: Context) {
    CloudOf(doc, ctx) == match LegacyTarget(urls, secrets, name, lctx) case None => None case Some(t) => Some(AuthOf(t))
  }

  ghost predicate ContextKept(urls: Urls, secrets: LegacySecrets, name: string, lctx: LegacyContext, doc: ConfigDocument, ctx: Context) {
    && StackViewKept(urls, secrets, name, lctx, doc, ctx)
    && CloudViewKept(urls, secrets, name, lctx, doc, ctx)
    && forall kind :: DatasourceOf(ctx.datasources, kind) == LegacyDatasource(lctx, kind)
  }

  ghost predicate KeptAt(urls: Urls, secrets: LegacySecrets, lc: Legacy, doc: ConfigDocument, name: string) {
    && name in lc.contexts && name in doc.contexts && doc.contexts[name].Some?
    && (lc.contexts[name].Some? ==> ContextKept(urls, secrets, name, lc.contexts[name].value, doc, doc.contexts[name].value))
  }

  /** Every context means what it meant. */
  ghost predicate Preserves(urls: Urls, secrets: LegacySecrets, lc: Legacy, doc: ConfigDocument) {
    && doc.currentContext == lc.currentContext && doc.contexts.Keys == lc.contexts.Keys
    && forall n :: n in lc.contexts ==> KeptAt(urls, secrets, lc, doc, n)
  }

  /** A context without a name cannot bind a stack, so it must not need one. */
  predicate BareUnnamed(lc: Legacy) {
    "" in lc.contexts && lc.contexts[""].Some? ==>
      var lctx := lc.contexts[""].value;
      && lctx.grafana.None? && IsEmpty(lctx.providers) && DryRunList(lctx.resources) == []
      && (lctx.cloud.Some? ==> lctx.cloud.value.stack == "")
  }

  lemma {:induction false} GivenNamesAreProper(urls: Urls, suffix: string, targets: Targets, order: seq<string>)
    requires ProperNames(urls)
    ensures var m := MintAll(urls, suffix, targets, order);
            (forall k :: k in m.names ==> m.names[k] != "") && forall x :: x in m.given ==> m.given[x] != ""
  {
    hide DedupKey, BaseName, MintAll;
    if order == [] {
      NothingMinted(urls, suffix, targets);
    } else {
      var last := order[|order| - 1];
      GivenNamesAreProper(urls, suffix, targets, order[..|order| - 1]);
      Step(urls, suffix, targets, order);
      if Bears(targets, last) {
        BaseNameIsProper(urls, suffix, targets[last].value);
      }
    }
  }

  lemma BaseNameIsProper(urls: Urls, suffix: string, t: Target)
    requires ProperNames(urls)
    ensures BaseName(urls, suffix, t) != ""
  {
    assert urls.entryName(t.apiUrl) != "";
  }

  lemma ConvertedStackView(urls: Urls, secrets: LegacySecrets, suffix: string, lc: Legacy, order: seq<string>, name: string)
    requires name in lc.contexts && lc.contexts[name].Some?
    ensures var doc := Convert(urls, secrets, suffix, lc, order);
            StackViewKept(urls, secrets, name, lc.contexts[name].value, doc, doc.contexts[name].value)
            <==> name != "" || BareUnnamed(lc)
  {
    hide MintAll, Folded, ConvertStack, HasStack, StackViewKept, BareUnnamed;
    var lctx, doc := lc.contexts[name].value, Convert(urls, secrets, suffix, lc, order);
    var ctx := doc.contexts[name].value;
    assert !HasStack(lctx) ==> ConvertStack(secrets, name, lctx) == None by { NoStackToConvert(secrets, name, lctx); }
    assert StackOf(doc, ctx) == if name == "" then None else ConvertStack(secrets, name, lctx);
    if name == "" {
      UnnamedStackView(urls, secrets, lc, doc, ctx);
    } else {
      NamedStackView(urls, secrets, name, lctx, doc, ctx);
    }
  }

  lemma NoStackToConvert(secrets: LegacySecrets, name: string, lctx: LegacyContext)
    ensures !HasStack(lctx) ==> ConvertStack(secrets, name, lctx) == None
  {
  }

  lemma NamedStackView(urls: Urls, secrets: LegacySecrets, name: string, lctx: LegacyContext, doc: ConfigDocument, ctx: Context)
    requires doc.resources == None && StackOf(doc, ctx) == ConvertStack(secrets, name, lctx)
    ensures StackViewKept(urls, secrets, name, lctx, doc, ctx)
  {
    hide LegacyGrafana, LegacyProviders;
    LegacyShapes(secrets, name, lctx);
    DryRunIsKept(lctx.resources);
  }

  lemma LegacyShapes(secrets: LegacySecrets, name: string, lctx: LegacyContext)
    ensures var g := LegacyGrafana(secrets, name, lctx);
            g.Some? == lctx.grafana.Some? && (g.Some? ==> g.value.server == lctx.grafana.value.server)
    ensures IsEmpty(LegacyProviders(secrets, name, lctx)) == IsEmpty(lctx.providers)
  {
  }

  lemma DryRunIsKept(resources: Option<Resources>)
    ensures forall item :: item in Dedup([] + DryRunList(resources)) <==> item in DryRunList(resources)
    ensures DryRunList(resources) == [] <==> forall item :: item !in DryRunList(resources)
    ensures Dedup([] + []) == []
  {
    var list := DryRunList(resources);
    assert [] + list == list;
    DedupKeepsItems(list);
    assert list != [] ==> list[0] in list;
  }

  lemma UnnamedStackView(urls: Urls, secrets: LegacySecrets, lc: Legacy, doc: ConfigDocument, ctx: Context)
    requires "" in lc.contexts && lc.contexts[""].Some? && doc.resources == None && StackOf(doc, ctx) == None
    ensures StackViewKept(urls, secrets, "", lc.contexts[""].value, doc, ctx) <==> BareUnnamed(lc)
  {
    hide LegacyGrafana, LegacyProviders;
    var lctx := lc.contexts[""].value;
    LegacyShapes(secrets, "", lctx);
    DryRunIsKept(lctx.resources);
  }

  lemma ConvertedCloudView(urls: Urls, secrets: LegacySecrets, suffix: string, lc: Legacy, order: seq<string>, name: string)
    requires Enumerates(order, lc) && ProperNames(urls) && name in lc.contexts && lc.contexts[name].Some?
    ensures var doc := Convert(urls, secrets, suffix, lc, order);
            var m, targets := MintAll(urls, suffix, TargetsOf(urls, secrets, lc), order), TargetsOf(urls, secrets, lc);
            && (CloudViewKept(urls, secrets, name, lc.contexts[name].value, doc, doc.contexts[name].value) <==> Found(m, targets, name))
            && CloudOf(doc, doc.contexts[name].value) == CloudAt(m, name)
            && (Bears(targets, name) <==> CloudAt(m, name).Some?)
  {
    hide MintAll, Folded, LegacyTarget;
    MintingCovers(urls, suffix, TargetsOf(urls, secrets, lc), order);
    GivenNamesAreProper(urls, suffix, TargetsOf(urls, secrets, lc), order);
  }

  lemma ConvertedDatasources(urls: Urls, secrets: LegacySecrets, suffix: string, lc: Legacy, order: seq<string>, name: string)
    requires name in lc.contexts && lc.contexts[name].Some?
    ensures var ctx := Convert(urls, secrets, suffix, lc, order).contexts[name].value;
            forall kind :: DatasourceOf(ctx.datasources, kind) == LegacyDatasource(lc.contexts[name].value, kind)
  {
    hide MintAll;
    var lctx := lc.contexts[name].value;
    forall kind ensures DatasourceOf(Folded(lctx, KINDS), kind) == LegacyDatasource(lctx, kind) {
      FoldingKeepsAnswers(lctx, kind);
    }
  }

  /** Conversion preserves every view of every context exactly when no minted entry
      was replaced, no two tuples were confused, and nothing needs an unnamed stack. */
  lemma ConversionPreserves(urls: Urls, secrets: LegacySecrets, suffix: string, lc: Legacy, order: seq<string>)
    requires Enumerates(order, lc) && ProperNames(urls)
    ensures Preserves(urls, secrets, lc, Convert(urls, secrets, suffix, lc, order))
            <==> BareUnnamed(lc) && Distinguished(TargetsOf(urls, secrets, lc), order)
                 && NothingReplaced(urls, suffix, TargetsOf(urls, secrets, lc), order)
  {
    hide MintAll, NothingReplaced, StackViewKept, CloudViewKept, ConvertedContext, BareUnnamed, Distinguished, Found, DatasourceOf, LegacyDatasource;
    var targets := TargetsOf(urls, secrets, lc);
    var m, doc := MintAll(urls, suffix, targets, order), Convert(urls, secrets, suffix, lc, order);
    FaithfulExactly(urls, suffix, targets, order);
    forall n | n in lc.contexts
      ensures KeptAt(urls, secrets, lc, doc, n) <==> (lc.contexts[n].None? || ((n != "" || BareUnnamed(lc)) && Found(m, targets, n)))
    {
      if lc.contexts[n].Some? {
        ConvertedStackView(urls, secrets, suffix, lc, order, n);
        ConvertedCloudView(urls, secrets, suffix, lc, order, n);
        ConvertedDatasources(urls, secrets, suffix, lc, order, n);
      }
    }
    UnnamedMatters(lc);
    forall n | n in lc.contexts && lc.contexts[n].None? ensures Found(m, targets, n) {
      NothingToFind(m, targets, n);
    }
  }

  lemma NothingToFind(m: Mints, targets: Targets, name: string)
    requires name in targets && targets[name].None?
    ensures Found(m, targets, name)
  {
  }

  lemma UnnamedMatters(lc: Legacy)
    ensures !BareUnnamed(lc) ==> "" in lc.contexts && lc.contexts[""].Some?
  {
  }

  function OnlyCloud(token: string, apiUrl: string): Option<LegacyContext> {
    Some(LegacyContext(None, Some(LegacyCloud(token, "", "", apiUrl)), "", "", "", "", map[], None, None))
  }

  lemma OnlyCloudTarget(urls: Urls, name: string, token: string, apiUrl: string)
    requires token != "" && apiUrl != ""
    ensures TargetOf(urls, map[], name, OnlyCloud(token, apiUrl)) == Some(Target(token, apiUrl, apiUrl))
  {
  }

  /** A legacy file whose conversion loses the credential of context "a". */
  function Colliding(): Legacy {
    Migration.Legacy.Legacy(
      map["a" := OnlyCloud("first", "https://grafana.com.c"),
          "b" := OnlyCloud("second", "https://grafana.com"),
          "c" := OnlyCloud("third", "https://grafana.com")],
      "a", None)
  }

  lemma CollisionLosesAContext(urls: Urls)
    requires ProperNames(urls) && urls.entryName("https://grafana.com") == "grafana-com"
    requires urls.entryName("https://grafana.com.c") == "grafana-com-c"
    ensures Enumerates(["a", "b", "c"], Colliding())
    ensures !Preserves(urls, map[], Colliding(), Convert(urls, map[], "", Colliding(), ["a", "b", "c"]))
  {
    var a := Target("first", "https://grafana.com.c", "https://grafana.com.c");
    var b := Target("second", "https://grafana.com", "https://grafana.com");
    var c := Target("third", "https://grafana.com", "https://grafana.com");
    var targets := map["a" := Some(a), "b" := Some(b), "c" := Some(c)];
    OnlyCloudTarget(urls, "a", "first", "https://grafana.com.c");
    OnlyCloudTarget(urls, "b", "second", "https://grafana.com");
    OnlyCloudTarget(urls, "c", "third", "https://grafana.com");
    assert TargetsOf(urls, map[], Colliding()) == targets;
    hide Convert, MintAll, NothingReplaced, Preserves, BareUnnamed;
    CollisionExists(urls);
    ClobberedExactly(urls, "", targets, ["a", "b", "c"]);
    ConversionPreserves(urls, map[], "", Colliding(), ["a", "b", "c"]);
  }

  /** A legacy file whose only context has no name loses its connection. */
  function Unnamed(grafana: Grafana): Legacy {
    Migration.Legacy.Legacy(map["" := Some(LegacyContext(Some(grafana), None, "", "", "", "", map[], None, None))], "", None)
  }

  lemma UnnamedIsLost(urls: Urls, grafana: Grafana)
    requires ProperNames(urls)
    ensures Enumerates([""], Unnamed(grafana))
    ensures !Preserves(urls, map[], Unnamed(grafana), Convert(urls, map[], "", Unnamed(grafana), [""]))
  {
    assert !BareUnnamed(Unnamed(grafana));
    hide Convert, MintAll, NothingReplaced, Preserves, BareUnnamed;
    ConversionPreserves(urls, map[], "", Unnamed(grafana), [""]);
  }
}
