/** The current configuration format: stacks, cloud entries and the contexts that
    bind them (internal/config/types.go). */
module ConfigTypes {
  import opened Wrappers

  datatype Grafana = Grafana(
    server: string,
    user: string,
    password: string,
    apiToken: string,
    oauthToken: string,
    oauthRefreshToken: string,
    oauthTokenExpiresAt: string,
    oauthRefreshExpiresAt: string,
    proxyEndpoint: string,
    orgId: int,
    stackId: int,
    tls: Option<string>)

  type Providers = map<string, Option<map<string, string>>>

  datatype Resources = Resources(assumeServerDryRun: Option<seq<string>>)

  datatype Diagnostics = Diagnostics(agentInvocationLog: bool, logDir: string, telemetry: string)

  datatype Stack = Stack(
    source: string,
    slug: string,
    grafana: Option<Grafana>,
    providers: Option<Providers>,
    resources: Option<Resources>)

  datatype CloudAuth = CloudAuth(
    source: string,
    token: string,
    oauthToken: string,
    oauthTokenExpiresAt: string,
    oauthScopes: seq<string>,
    oauthUrl: string,
    apiUrl: string)

  datatype Context = Context(stack: string, cloud: string, datasources: map<string, string>)

  /** The persisted part of a config; None is a nil entry. */
  datatype ConfigDocument = ConfigDocument(
    version: int,
    currentContext: string,
    diagnostics: Option<Diagnostics>,
    stacks: map<string, Option<Stack>>,
    cloud: map<string, Option<CloudAuth>>,
    resources: Option<Resources>,
    contexts: map<string, Option<Context>>)

  function Dedup(items: seq<string>): seq<string> {
    if items == [] then []
    else
      var front, last := items[..|items| - 1], items[|items| - 1];
      if last in front then Dedup(front) else Dedup(front) + [last]
  }

  /** The dry-run union keeps every item, once. */
  lemma {:induction false} DedupKeepsItems(items: seq<string>)
    ensures forall x :: x in Dedup(items) <==> x in items
    ensures forall i, j :: 0 <= i < j < |Dedup(items)| ==> Dedup(items)[i] != Dedup(items)[j]
  {
    if items != [] {
      var front, last := items[..|items| - 1], items[|items| - 1];
      DedupKeepsItems(front);
      assert items == front + [last];
    }
  }

  /** The items of the first list come first, in its order. */
  lemma {:induction false} DedupKeepsOrder(first: seq<string>, second: seq<string>)
    ensures Dedup(first) <= Dedup(first + second)
  {
    if second == [] {
      assert first + second == first;
    } else {
      var items := first + second;
      assert items[..|items| - 1] == first + second[..|second| - 1];
      DedupKeepsOrder(first, second[..|second| - 1]);
    }
  }

  function DryRunList(resources: Option<Resources>): seq<string> {
    if resources.Some? && resources.value.assumeServerDryRun.Some? then resources.value.assumeServerDryRun.value else []
  }

  /** The union built by the loop over both lists. */
  method UnionDryRun(global: Option<Resources>, stack: Option<Stack>) returns (union: seq<string>)
    ensures union == Dedup(DryRunList(global) + if stack.Some? then DryRunList(stack.value.resources) else [])
  {
    hide Dedup;
    var items := DryRunList(global) + if stack.Some? then DryRunList(stack.value.resources) else [];
    NothingToDedup();
    union := [];
    var seen: set<string> := {};
    for i := 0 to |items|
      invariant union == Dedup(items[..i])
      invariant forall x :: x in seen <==> x in items[..i]
    {
      DedupStep(items, i);
      if items[i] !in seen {
        seen := seen + {items[i]};
        union := union + [items[i]];
      }
    }
    assert items[..|items|] == items;
  }

  lemma NothingToDedup()
    ensures Dedup([]) == []
  {
  }

  lemma DedupStep(items: seq<string>, i: nat)
    requires i < |items|
    ensures Dedup(items[..i + 1]) == if items[i] in items[..i] then Dedup(items[..i]) else Dedup(items[..i]) + [items[i]]
    ensures forall x :: x in items[..i + 1] <==> x in items[..i] || x == items[i]
  {
    assert items[..i + 1][..i] == items[..i];
    assert items[..i + 1] == items[..i] + [items[i]];
  }

  function StackOf(doc: ConfigDocument, context: Context): Option<Stack> {
    if context.stack != "" && context.stack in doc.stacks then doc.stacks[context.stack] else None
  }

  function CloudOf(doc: ConfigDocument, context: Context): Option<CloudAuth> {
    if context.cloud != "" && context.cloud in doc.cloud then doc.cloud[context.cloud] else None
  }

  function GrafanaOf(doc: ConfigDocument, context: Context): Option<Grafana> {
    match StackOf(doc, context) case None => None case Some(stack) => stack.grafana
  }

  function ProvidersOf(doc: ConfigDocument, context: Context): Option<Providers> {
    match StackOf(doc, context) case None => None case Some(stack) => stack.providers
  }

  function DryRunOf(doc: ConfigDocument, context: Context): seq<string> {
    Dedup(DryRunList(doc.resources)
          + match StackOf(doc, context) case None => [] case Some(stack) => DryRunList(stack.resources))
  }

  /** The slug of the stack entry, or else the one its server URL carries. */
  function SlugOf(doc: ConfigDocument, context: Context, slugFromServer: string -> string): string {
    var stack := StackOf(doc, context);
    if stack.Some? && stack.value.slug != "" then stack.value.slug
    else
      var grafana := GrafanaOf(doc, context);
      if grafana.None? || grafana.value.server == "" then "" else slugFromServer(grafana.value.server)
  }

  function DatasourceOf(datasources: map<string, string>, kind: string): string {
    if kind in datasources then datasources[kind] else ""
  }
}
