/** The equivalence check a converted config must pass before it replaces the legacy
    file (internal/config/migrate.go). */
module SelfCheck {
  import opened ConfigTypes
  import opened Conversion
  import opened Credentials
  import opened Migration
  import opened Minting
  import opened Numerals
  import opened Wrappers

  datatype Complaint =
    | CurrentContextDiffers
    | CountDiffers
    | ContextMissing(name: string)
    | StackDangles(name: string)
    | CloudDangles(name: string)
    | GrafanaDiffers(name: string)
    | ProvidersDiffer(name: string)
    | SlugDiffers(name: string)
    | CloudDiffers(name: string)
    | DatasourceDiffers(name: string, kind: string)
    | DryRunDiffers(name: string)

  /** Endpoints are compared after normalisation. */
  predicate SameTarget(urls: Urls, entry: CloudAuth, t: Target) {
    && entry.token == t.token
    && urls.normalize(entry.apiUrl, DEFAULT_CLOUD) == urls.normalize(t.apiUrl, DEFAULT_CLOUD)
    && urls.normalize(entry.oauthUrl, t.apiUrl) == urls.normalize(t.oauthUrl, t.apiUrl)
  }

  predicate CloudChecks(urls: Urls, secrets: LegacySecrets, name: string, lctx: LegacyContext, doc: ConfigDocument, ctx: Context) {
    var target, entry := LegacyTarget(urls, secrets, name, lctx), CloudOf(doc, ctx);
    target.Some? ==> entry.Some? && SameTarget(urls, entry.value, target.value)
  }

  predicate SlugChecks(urls: Urls, lctx: LegacyContext, doc: ConfigDocument, ctx: Context) {
    lctx.cloud.Some? && lctx.cloud.value.stack != "" ==> SlugOf(doc, ctx, urls.slugFromServer) == LegacySlug(urls, lctx)
  }

  function KindsToVerify(lctx: LegacyContext): set<string> {
    KINDS + lctx.datasources.Keys
  }

  predicate DryRunChecks(lctx: LegacyContext, doc: ConfigDocument, ctx: Context) {
    Items(DryRunOf(doc, ctx)) == Items(DryRunList(lctx.resources))
  }

  function Items(list: seq<string>): set<string> {
    set x | x in list
  }

  predicate ProvidersCheck(secrets: LegacySecrets, name: string, lctx: LegacyContext, doc: ConfigDocument, ctx: Context) {
    !IsEmpty(lctx.providers) ==> ProvidersOf(doc, ctx) == LegacyProviders(secrets, name, lctx)
  }

  /** The checked views of one context agree. */
  predicate ContextChecks(urls: Urls, secrets: LegacySecrets, name: string, lctx: LegacyContext, doc: ConfigDocument, ctx: Context) {
    && (ctx.stack != "" ==> StackOf(doc, ctx).Some?)
    && (ctx.cloud != "" ==> CloudOf(doc, ctx).Some?)
    && GrafanaOf(doc, ctx) == LegacyGrafana(secrets, name, lctx)
    && ProvidersCheck(secrets, name, lctx, doc, ctx)
    && SlugChecks(urls, lctx, doc, ctx)
    && CloudChecks(urls, secrets, name, lctx, doc, ctx)
    && (forall kind :: kind in KindsToVerify(lctx) ==> DatasourceOf(ctx.datasources, kind) == LegacyDatasource(lctx, kind))
    && DryRunChecks(lctx, doc, ctx)
  }

  predicate ChecksAt(urls: Urls, secrets: LegacySecrets, lc: Legacy, doc: ConfigDocument, name: string)
    requires name in lc.contexts
  {
    && name in doc.contexts && doc.contexts[name].Some?
    && (lc.contexts[name].Some? ==> ContextChecks(urls, secrets, name, lc.contexts[name].value, doc, doc.contexts[name].value))
  }

  predicate Accepts(urls: Urls, secrets: LegacySecrets, lc: Legacy, doc: ConfigDocument) {
    && doc.currentContext == lc.currentContext && doc.contexts.Keys == lc.contexts.Keys
    && forall n :: n in lc.contexts ==> ChecksAt(urls, secrets, lc, doc, n)
  }

  /** A complaint names a view that really differs. */
  predicate Justified(urls: Urls, secrets: LegacySecrets, lc: Legacy, doc: ConfigDocument, complaint: Complaint) {
    match complaint
    case CurrentContextDiffers => doc.currentContext != lc.currentContext
    case CountDiffers => |doc.contexts| != |lc.contexts|
    case ContextMissing(n) => n in lc.contexts && (n !in doc.contexts || doc.contexts[n].None?)
    case StackDangles(n) => Both(lc, doc, n) && doc.contexts[n].value.stack != "" && StackOf(doc, doc.contexts[n].value).None?
    case CloudDangles(n) => Both(lc, doc, n) && doc.contexts[n].value.cloud != "" && CloudOf(doc, doc.contexts[n].value).None?
    case GrafanaDiffers(n) => Both(lc, doc, n) && GrafanaOf(doc, doc.contexts[n].value) != LegacyGrafana(secrets, n, lc.contexts[n].value)
    case ProvidersDiffer(n) => Both(lc, doc, n) && !ProvidersCheck(secrets, n, lc.contexts[n].value, doc, doc.contexts[n].value)
    case SlugDiffers(n) => Both(lc, doc, n) && !SlugChecks(urls, lc.contexts[n].value, doc, doc.contexts[n].value)
    case CloudDiffers(n) => Both(lc, doc, n) && !CloudChecks(urls, secrets, n, lc.contexts[n].value, doc, doc.contexts[n].value)
    case DatasourceDiffers(n, kind) => Both(lc, doc, n) && kind in KindsToVerify(lc.contexts[n].value)
      && DatasourceOf(doc.contexts[n].value.datasources, kind) != LegacyDatasource(lc.contexts[n].value, kind)
    case DryRunDiffers(n) => Both(lc, doc, n) && !DryRunChecks(lc.contexts[n].value, doc, doc.contexts[n].value)
  }

  predicate Both(lc: Legacy, doc: ConfigDocument, n: string) {
    n in lc.contexts && lc.contexts[n].Some? && n in doc.contexts && doc.contexts[n].Some?
  }

  method VerifyDatasources(lctx: LegacyContext, ctx: Context) returns (kind: Option<string>)
    ensures kind.None? <==> forall k :: k in KindsToVerify(lctx) ==> DatasourceOf(ctx.datasources, k) == LegacyDatasource(lctx, k)
    ensures kind.Some? ==> kind.value in KindsToVerify(lctx) && DatasourceOf(ctx.datasources, kind.value) != LegacyDatasource(lctx, kind.value)
  {
    hide LegacyDatasource, DatasourceOf;
    var remaining := KindsToVerify(lctx);
    while remaining != {}
      invariant remaining <= KindsToVerify(lctx)
      invariant forall k :: k in KindsToVerify(lctx) && k !in remaining ==> DatasourceOf(ctx.datasources, k) == LegacyDatasource(lctx, k)
    {
      var k :| k in remaining;
      remaining := remaining - {k};
      if DatasourceOf(ctx.datasources, k) != LegacyDatasource(lctx, k) {
        return Some(k);
      }
    }
    kind := None;
  }

  method VerifyContext(urls: Urls, secrets: LegacySecrets, lc: Legacy, doc: ConfigDocument, name: string) returns (complaint: Option<Complaint>)
    requires Both(lc, doc, name)
    ensures complaint.None? <==> ChecksAt(urls, secrets, lc, doc, name)
    ensures complaint.Some? ==> Justified(urls, secrets, lc, doc, complaint.value)
  {
    hide GrafanaOf, LegacyGrafana, ProvidersCheck, SlugChecks, CloudChecks, DryRunChecks, LegacyDatasource, DatasourceOf;
    var lctx, ctx := lc.contexts[name].value, doc.contexts[name].value;
    if ctx.stack != "" && StackOf(doc, ctx).None? {
      return Some(StackDangles(name));
    }
    if ctx.cloud != "" && CloudOf(doc, ctx).None? {
      return Some(CloudDangles(name));
    }
    if GrafanaOf(doc, ctx) != LegacyGrafana(secrets, name, lctx) {
      return Some(GrafanaDiffers(name));
    }
    if !ProvidersCheck(secrets, name, lctx, doc, ctx) {
      return Some(ProvidersDiffer(name));
    }
    if !SlugChecks(urls, lctx, doc, ctx) {
      return Some(SlugDiffers(name));
    }
    if !CloudChecks(urls, secrets, name, lctx, doc, ctx) {
      return Some(CloudDiffers(name));
    }
    var kind := VerifyDatasources(lctx, ctx);
    if kind.Some? {
      return Some(DatasourceDiffers(name, kind.value));
    }
    complaint := if DryRunChecks(lctx, doc, ctx) then None else Some(DryRunDiffers(name));
  }

  /** Nothing is reported exactly when every checked view agrees, for any config. */
  method VerifyLegacyMigration(urls: Urls, secrets: LegacySecrets, lc: Legacy, doc: ConfigDocument) returns (complaint: Option<Complaint>)
    ensures complaint.None? <==> Accepts(urls, secrets, lc, doc)
    ensures complaint.Some? ==> Justified(urls, secrets, lc, doc, complaint.value)
  {
    hide ContextChecks;
    if lc.currentContext != doc.currentContext {
      return Some(CurrentContextDiffers);
    }
    if |lc.contexts| != |doc.contexts| {
      assert |lc.contexts.Keys| == |lc.contexts| && |doc.contexts.Keys| == |doc.contexts|;
      return Some(CountDiffers);
    }
    var remaining := lc.contexts.Keys;
    while remaining != {}
      invariant remaining <= lc.contexts.Keys
      invariant forall n :: n in lc.contexts && n !in remaining ==> ChecksAt(urls, secrets, lc, doc, n)
    {
      var name :| name in remaining;
      remaining := remaining - {name};
      if name !in doc.contexts || doc.contexts[name].None? {
        return Some(ContextMissing(name));
      }
      if lc.contexts[name].Some? {
        complaint := VerifyContext(urls, secrets, lc, doc, name);
        if complaint.Some? {
          return;
        }
      }
    }
    assert |lc.contexts.Keys| == |lc.contexts| && |doc.contexts.Keys| == |doc.contexts|;
    EqualCounts(lc.contexts.Keys, doc.contexts.Keys);
    complaint := None;
  }

  /** The part of the check that concerns the stack entry. */
  predicate StackChecks(urls: Urls, secrets: LegacySecrets, name: string, lctx: LegacyContext, doc: ConfigDocument, ctx: Context) {
    && GrafanaOf(doc, ctx) == LegacyGrafana(secrets, name, lctx)
    && ProvidersCheck(secrets, name, lctx, doc, ctx) && SlugChecks(urls, lctx, doc, ctx) && DryRunChecks(lctx, doc, ctx)
  }

  lemma KeptStackChecks(urls: Urls, secrets: LegacySecrets, name: string, lctx: LegacyContext, doc: ConfigDocument, ctx: Context)
    requires StackViewKept(urls, secrets, name, lctx, doc, ctx)
    ensures StackChecks(urls, secrets, name, lctx, doc, ctx)
  {
    hide LegacyGrafana, LegacyProviders, LegacySlug, SlugOf, GrafanaOf, ProvidersOf, DryRunOf;
    LegacyShapes(secrets, name, lctx);
  }

  lemma HeadIsItem(list: seq<string>)
    ensures list != [] ==> list[0] in Items(list)
  {
  }

  lemma UnnamedStackFails(urls: Urls, secrets: LegacySecrets, lc: Legacy, doc: ConfigDocument, ctx: Context)
    requires "" in lc.contexts && lc.contexts[""].Some? && doc.resources == None && StackOf(doc, ctx) == None
    requires StackChecks(urls, secrets, "", lc.contexts[""].value, doc, ctx)
    ensures BareUnnamed(lc)
  {
    var lctx := lc.contexts[""].value;
    LegacyShapes(secrets, "", lctx);
    hide LegacyGrafana, LegacyProviders;
    DryRunIsKept(lctx.resources);
    assert DryRunOf(doc, ctx) == [];
    assert Items(DryRunOf(doc, ctx)) == {};
    HeadIsItem(DryRunList(lctx.resources));
  }

  lemma ReferencesResolve(urls: Urls, secrets: LegacySecrets, suffix: string, lc: Legacy, order: seq<string>, name: string)
    requires Enumerates(order, lc) && name in lc.contexts && lc.contexts[name].Some?
    ensures var doc := Convert(urls, secrets, suffix, lc, order);
            var ctx := doc.contexts[name].value;
            && (ctx.stack != "" ==> StackOf(doc, ctx).Some?) && (ctx.cloud != "" ==> CloudOf(doc, ctx).Some?)
            && doc.resources == None && (name == "" ==> StackOf(doc, ctx) == None)
  {
    hide MintAll, Folded, LegacyTarget;
    MintingCovers(urls, suffix, TargetsOf(urls, secrets, lc), order);
  }

  predicate TargetChecks(urls: Urls, m: Mints, target: Option<Target>, name: string) {
    target.Some? ==> CloudAt(m, name).Some? && SameTarget(urls, CloudAt(m, name).value, target.value)
  }

  lemma ConvertedChecks(urls: Urls, secrets: LegacySecrets, suffix: string, lc: Legacy, order: seq<string>, name: string)
    requires Enumerates(order, lc) && ProperNames(urls) && name in lc.contexts && lc.contexts[name].Some?
    ensures var doc, targets := Convert(urls, secrets, suffix, lc, order), TargetsOf(urls, secrets, lc);
            ContextChecks(urls, secrets, name, lc.contexts[name].value, doc, doc.contexts[name].value)
            <==> (name != "" || BareUnnamed(lc)) && TargetChecks(urls, MintAll(urls, suffix, targets, order), targets[name], name)
  {
    hide MintAll, StackViewKept, BareUnnamed, CloudAt, LegacyDatasource, DatasourceOf, StackOf, CloudOf,
      GrafanaOf, LegacyGrafana, ProvidersCheck, SlugChecks, DryRunChecks, SameTarget, ConvertedContext, ConvertStack, Entries, LegacyTarget;
    var lctx, doc := lc.contexts[name].value, Convert(urls, secrets, suffix, lc, order);
    var ctx := doc.contexts[name].value;
    ReferencesResolve(urls, secrets, suffix, lc, order, name);
    ConvertedStackView(urls, secrets, suffix, lc, order, name);
    ConvertedCloudView(urls, secrets, suffix, lc, order, name);
    ConvertedDatasources(urls, secrets, suffix, lc, order, name);
    assert LegacyTarget(urls, secrets, name, lctx) == TargetsOf(urls, secrets, lc)[name];
    if name != "" || BareUnnamed(lc) {
      KeptStackChecks(urls, secrets, name, lctx, doc, ctx);
    } else if StackChecks(urls, secrets, name, lctx, doc, ctx) {
      UnnamedStackFails(urls, secrets, lc, doc, ctx);
    }
  }

  /** The cloud views of a conversion that survive normalisation. */
  predicate TargetsCheck(urls: Urls, m: Mints, targets: Targets) {
    forall n :: n in targets ==> TargetChecks(urls, m, targets[n], n)
  }

  /** The check accepts a conversion exactly when nothing needs an unnamed stack and
      each context finds an entry that is its own up to URL normalisation. */
  lemma AcceptedByEntries(urls: Urls, secrets: LegacySecrets, suffix: string, lc: Legacy, order: seq<string>)
    requires Enumerates(order, lc) && ProperNames(urls)
    ensures Accepts(urls, secrets, lc, Convert(urls, secrets, suffix, lc, order))
            <==> BareUnnamed(lc) && TargetsCheck(urls, MintAll(urls, suffix, TargetsOf(urls, secrets, lc), order), TargetsOf(urls, secrets, lc))
  {
    hide MintAll, BareUnnamed, ContextChecks, ConvertedContext, TargetChecks;
    var targets, doc := TargetsOf(urls, secrets, lc), Convert(urls, secrets, suffix, lc, order);
    var m := MintAll(urls, suffix, targets, order);
    UnnamedMatters(lc);
    forall n | n in lc.contexts
      ensures ChecksAt(urls, secrets, lc, doc, n)
              <==> lc.contexts[n].None? || ((n != "" || BareUnnamed(lc)) && TargetChecks(urls, m, targets[n], n))
    {
      if lc.contexts[n].Some? {
        ConvertedChecks(urls, secrets, suffix, lc, order, n);
      }
    }
    forall n | n in lc.contexts && lc.contexts[n].None? ensures TargetChecks(urls, m, targets[n], n) {
      NothingToCheck(urls, m, n);
    }
  }

  /** On the input names alone: whoever brings an entry last under the name that a
      context's tuple goes by has that context's tuple, up to URL normalisation. */
  ghost predicate OwnUpToUrls(urls: Urls, suffix: string, targets: Targets, order: seq<string>) {
    forall i, p, q :: SharesFirst(targets, order, i, p)
                      && BringsLast(urls, suffix, targets, order, |order|, q, NameOf(urls, suffix, targets, order, p)) ==>
      SameTarget(urls, AuthOf(targets[order[q]].value), targets[order[i]].value)
  }

  lemma ChecksByNames(urls: Urls, suffix: string, targets: Targets, order: seq<string>)
    requires Unique(order) && forall n :: n in targets <==> n in order
    ensures TargetsCheck(urls, MintAll(urls, suffix, targets, order), targets) <==> OwnUpToUrls(urls, suffix, targets, order)
  {
    hide MintAll, NameOf, BringsLast, First, DedupKey, SameTarget;
    var m := MintAll(urls, suffix, targets, order);
    if OwnUpToUrls(urls, suffix, targets, order) {
      forall n | n in targets ensures TargetChecks(urls, m, targets[n], n) {
        if targets[n].Some? {
          var i :| 0 <= i < |order| && order[i] == n;
          var p := FirstSharer(targets, order, i);
          FoundExactly(urls, suffix, targets, order, i, p);
          var q :| BringsLast(urls, suffix, targets, order, |order|, q, NameOf(urls, suffix, targets, order, p));
          LastIsBefore(urls, suffix, targets, order, |order|, q, NameOf(urls, suffix, targets, order, p));
        }
      }
    }
    if TargetsCheck(urls, m, targets) {
      forall i, p, q | SharesFirst(targets, order, i, p)
                       && BringsLast(urls, suffix, targets, order, |order|, q, NameOf(urls, suffix, targets, order, p))
        ensures 0 <= i < |order| && Bears(targets, order[i]) && 0 <= q < |order| && Bears(targets, order[q])
        ensures SameTarget(urls, AuthOf(targets[order[q]].value), targets[order[i]].value)
      {
        Sharers(targets, order, i, p);
        LastIsBefore(urls, suffix, targets, order, |order|, q, NameOf(urls, suffix, targets, order, p));
        FoundExactly(urls, suffix, targets, order, i, p);
        assert TargetChecks(urls, m, targets[order[i]], order[i]);
      }
    }
  }

  lemma Sharers(targets: Targets, order: seq<string>, i: int, p: int)
    requires SharesFirst(targets, order, i, p)
    ensures 0 <= p <= i < |order| && Bears(targets, order[i])
  {
  }

  lemma FirstSharer(targets: Targets, order: seq<string>, i: nat) returns (p: nat)
    requires i < |order| && Bears(targets, order[i])
    ensures SharesFirst(targets, order, i, p)
  {
    p := FirstBearer(targets, order, i);
  }

  /** The check accepts a conversion exactly when nothing needs an unnamed stack and no
      name of the input goes to a tuple that differs in more than the spelling of its URLs. */
  lemma SelfCheckOnConversion(urls: Urls, secrets: LegacySecrets, suffix: string, lc: Legacy, order: seq<string>)
    requires Enumerates(order, lc) && ProperNames(urls)
    ensures Accepts(urls, secrets, lc, Convert(urls, secrets, suffix, lc, order))
            <==> BareUnnamed(lc) && OwnUpToUrls(urls, suffix, TargetsOf(urls, secrets, lc), order)
  {
    AcceptedByEntries(urls, secrets, suffix, lc, order);
    ChecksByNames(urls, suffix, TargetsOf(urls, secrets, lc), order);
  }

  lemma NothingToCheck(urls: Urls, m: Mints, name: string)
    ensures TargetChecks(urls, m, None, name)
  {
  }

  /** A conversion that preserves every view is accepted. */
  lemma PreservedIsAccepted(urls: Urls, secrets: LegacySecrets, suffix: string, lc: Legacy, order: seq<string>)
    requires Enumerates(order, lc) && ProperNames(urls)
    requires Preserves(urls, secrets, lc, Convert(urls, secrets, suffix, lc, order))
    ensures Accepts(urls, secrets, lc, Convert(urls, secrets, suffix, lc, order))
  {
    hide MintAll, NothingReplaced, BareUnnamed, Accepts, Preserves, Distinguished, Convert, LegacyTarget;
    var targets := TargetsOf(urls, secrets, lc);
    ConversionPreserves(urls, secrets, suffix, lc, order);
    AcceptedByEntries(urls, secrets, suffix, lc, order);
    FaithfulExactly(urls, suffix, targets, order);
    forall n | n in targets ensures TargetChecks(urls, MintAll(urls, suffix, targets, order), targets[n], n) {
      assert Found(MintAll(urls, suffix, targets, order), targets, n);
    }
  }

  lemma CollidingTargets(urls: Urls)
    ensures TargetsOf(urls, map[], Colliding()) == map[
      "a" := Some(Target("first", "https://grafana.com.c", "https://grafana.com.c")),
      "b" := Some(Target("second", "https://grafana.com", "https://grafana.com")),
      "c" := Some(Target("third", "https://grafana.com", "https://grafana.com"))]
  {
    OnlyCloudTarget(urls, "a", "first", "https://grafana.com.c");
    OnlyCloudTarget(urls, "b", "second", "https://grafana.com");
    OnlyCloudTarget(urls, "c", "third", "https://grafana.com");
    hide OnlyCloud, LegacyTarget;
  }

  lemma OtherTokenFails(urls: Urls, m: Mints, target: Target, name: string)
    requires name in m.given && m.given[name] in m.cloud && m.cloud[m.given[name]].token != target.token
    ensures !TargetChecks(urls, m, Some(target), name)
  {
  }

  /** The inputs whose meaning conversion loses do not get past the check. */
  lemma CollisionIsRejected(urls: Urls)
    requires ProperNames(urls) && urls.entryName("https://grafana.com") == "grafana-com"
    requires urls.entryName("https://grafana.com.c") == "grafana-com-c"
    ensures Enumerates(["a", "b", "c"], Colliding())
    ensures !Accepts(urls, map[], Colliding(), Convert(urls, map[], "", Colliding(), ["a", "b", "c"]))
  {
    hide Convert, MintAll, Preserves, BareUnnamed, Accepts, TargetsOf, TargetChecks, Colliding, Enumerates;
    CollisionLosesAContext(urls);
    CollidingTargets(urls);
    CollisionExists(urls);
    var targets := TargetsOf(urls, map[], Colliding());
    OtherTokenFails(urls, MintAll(urls, "", targets, ["a", "b", "c"]), targets["a"].value, "a");
    AcceptedByEntries(urls, map[], "", Colliding(), ["a", "b", "c"]);
  }

  lemma UnnamedIsRejected(urls: Urls, grafana: Grafana)
    requires ProperNames(urls)
    ensures !Accepts(urls, map[], Unnamed(grafana), Convert(urls, map[], "", Unnamed(grafana), [""]))
  {
    UnnamedIsLost(urls, grafana);
    assert !BareUnnamed(Unnamed(grafana));
    hide Convert, MintAll, Preserves, BareUnnamed, Accepts, TargetsCheck;
    AcceptedByEntries(urls, map[], "", Unnamed(grafana), [""]);
  }
}
