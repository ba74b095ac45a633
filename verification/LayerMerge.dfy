/** Layering of configuration documents (internal/config/merge.go) and the runtime
    credential state that survives it (internal/config/keychain.go). */
module LayerMerge {
  import opened Credentials
  import opened ConfigTypes
  import opened Keychain
  import opened Wrappers

  /** What a loaded layer remembers about its credentials. */
  datatype Runtime = Runtime(
    identity: string,
    revision: Option<nat>,
    expectAbsent: bool,
    states: map<Key, FieldState>,
    mutations: set<Key>,
    origins: map<Key, Slot>)

  datatype Layer = Layer(doc: ConfigDocument, deferred: bool, runtime: Runtime)

  function MergeDiagnostics(base: Option<Diagnostics>, over: Option<Diagnostics>): Option<Diagnostics> {
    if over.None? then base else if base.None? then over
    else Some(Diagnostics(
      base.value.agentInvocationLog || over.value.agentInvocationLog,
      if over.value.logDir != "" then over.value.logDir else base.value.logDir,
      if over.value.telemetry != "" then over.value.telemetry else base.value.telemetry))
  }

  function MergeResources(base: Option<Resources>, over: Option<Resources>): Option<Resources> {
    if over.None? then base else if base.None? then over
    else if over.value.assumeServerDryRun.Some? then Some(Resources(over.value.assumeServerDryRun)) else base
  }

  function MergeContext(base: Option<Context>, over: Option<Context>): Option<Context> {
    if base.None? then over else if over.None? then base
    else Some(Context(
      if over.value.stack != "" then over.value.stack else base.value.stack,
      if over.value.cloud != "" then over.value.cloud else base.value.cloud,
      base.value.datasources + over.value.datasources))
  }

  function MergeContexts(base: map<string, Option<Context>>, over: map<string, Option<Context>>): map<string, Option<Context>> {
    map name | name in base.Keys + over.Keys ::
      if name !in over then base[name] else if name !in base then over[name] else MergeContext(base[name], over[name])
  }

  function MergeDocuments(base: ConfigDocument, over: ConfigDocument): ConfigDocument {
    ConfigDocument(
      if over.version > base.version then over.version else base.version,
      if over.currentContext != "" then over.currentContext else base.currentContext,
      MergeDiagnostics(base.diagnostics, over.diagnostics),
      base.stacks + over.stacks,
      base.cloud + over.cloud,
      MergeResources(base.resources, over.resources),
      MergeContexts(base.contexts, over.contexts))
  }

  predicate IsStack(owner: string) {
    |owner| >= 6 && owner[..6] == "stack:"
  }

  predicate IsCloud(owner: string) {
    |owner| >= 6 && owner[..6] == "cloud:"
  }

  predicate Defines(doc: ConfigDocument, owner: string) {
    (IsStack(owner) && owner[6..] in doc.stacks) || (IsCloud(owner) && owner[6..] in doc.cloud)
  }

  /** The source that defined the entry behind an owner, if there is an entry. */
  function SourceOf(doc: ConfigDocument, owner: string): Option<string> {
    if IsStack(owner) && owner[6..] in doc.stacks && doc.stacks[owner[6..]].Some? then Some(doc.stacks[owner[6..]].value.source)
    else if IsCloud(owner) && owner[6..] in doc.cloud && doc.cloud[owner[6..]].Some? then Some(doc.cloud[owner[6..]].value.source)
    else None
  }

  predicate Active(doc: ConfigDocument, key: Key) {
    SourceOf(doc, key.owner) == Some(key.source)
  }

  function Retained<V>(doc: ConfigDocument, base: map<Key, V>, over: map<Key, V>): map<Key, V> {
    map k | k in (base + over) && Active(doc, k) :: (base + over)[k]
  }

  function MergeRuntime(doc: ConfigDocument, base: Runtime, over: Runtime): Runtime {
    var kept := if base.identity != over.identity then base.(identity := "", revision := None, expectAbsent := false)
                else if over.revision.Some? then base.(revision := over.revision, expectAbsent := over.expectAbsent)
                else base;
    kept.(states := Retained(doc, base.states, over.states),
          mutations := (set k | k in base.mutations + over.mutations && Active(doc, k)),
          origins := Retained(doc, base.origins, over.origins))
  }

  function Merge(base: Layer, over: Layer): Layer {
    var doc := MergeDocuments(base.doc, over.doc);
    Layer(doc, base.deferred || over.deferred, MergeRuntime(doc, base.runtime, over.runtime))
  }

  /** The merge as the program performs it, field by field. */
  method MergeConfigs(base: Layer, over: Layer) returns (result: Layer)
    ensures result == Merge(base, over)
  {
    hide MergeContexts, MergeDiagnostics, MergeResources, MergeRuntime;
    var doc := base.doc;
    if over.doc.version > doc.version {
      doc := doc.(version := over.doc.version);
    }
    if over.doc.currentContext != "" {
      doc := doc.(currentContext := over.doc.currentContext);
    }
    doc := doc.(stacks := doc.stacks + over.doc.stacks, cloud := doc.cloud + over.doc.cloud,
                resources := MergeResources(doc.resources, over.doc.resources));
    var contexts := OverlayContexts(doc.contexts, over.doc.contexts);
    doc := doc.(contexts := contexts);
    doc := doc.(diagnostics := MergeDiagnostics(doc.diagnostics, over.doc.diagnostics));
    var runtime := MergeKeychainRuntime(doc, base.runtime, over.runtime);
    result := Layer(doc, base.deferred || over.deferred, runtime);
  }

  method MergeKeychainRuntime(doc: ConfigDocument, base: Runtime, over: Runtime) returns (runtime: Runtime)
    ensures runtime == MergeRuntime(doc, base, over)
  {
    hide Active, Retained, Kept;
    runtime := base;
    if base.identity != over.identity {
      runtime := runtime.(identity := "", revision := None, expectAbsent := false);
    } else if over.revision.Some? {
      runtime := runtime.(revision := over.revision, expectAbsent := over.expectAbsent);
    }
    var states := Retain(doc, base.states, map[]);
    states := Retain(doc, over.states, states);
    var origins := Retain(doc, base.origins, map[]);
    origins := Retain(doc, over.origins, origins);
    RetainBoth(doc, base.states, over.states);
    RetainBoth(doc, base.origins, over.origins);
    runtime := runtime.(states := states, origins := origins,
      mutations := set k | k in base.mutations + over.mutations && Active(doc, k));
  }

  method OverlayContexts(base: map<string, Option<Context>>, over: map<string, Option<Context>>) returns (result: map<string, Option<Context>>)
    ensures result == MergeContexts(base, over)
  {
    result := base;
    var remaining := over.Keys;
    while remaining != {}
      invariant remaining <= over.Keys
      invariant result.Keys == base.Keys + (over.Keys - remaining)
      invariant forall n :: n in result ==> result[n] == if n in remaining then base[n] else MergeContexts(base, over)[n]
    {
      var name :| name in remaining;
      remaining := remaining - {name};
      if name in result {
        result := result[name := MergeContext(result[name], over[name])];
      } else {
        result := result[name := over[name]];
      }
    }
  }

  function Kept<V>(doc: ConfigDocument, entries: map<Key, V>): map<Key, V> {
    map k | k in entries && Active(doc, k) :: entries[k]
  }

  lemma RetainBoth<V>(doc: ConfigDocument, base: map<Key, V>, over: map<Key, V>)
    ensures map[] + Kept(doc, base) + Kept(doc, over) == Retained(doc, base, over)
  {
    hide Active;
  }

  method Retain<V>(doc: ConfigDocument, entries: map<Key, V>, into: map<Key, V>) returns (kept: map<Key, V>)
    ensures kept == into + Kept(doc, entries)
  {
    hide Active;
    kept := into;
    var remaining := entries.Keys;
    while remaining != {}
      invariant remaining <= entries.Keys
      invariant forall k :: k in kept <==> k in into || (k in Kept(doc, entries) && k !in remaining)
      invariant forall k :: k in kept ==> kept[k] == if k in entries && k !in remaining && Active(doc, k) then entries[k] else into[k]
    {
      var key :| key in remaining;
      remaining := remaining - {key};
      if Active(doc, key) {
        kept := kept[key := entries[key]];
      }
    }
  }

  lemma MergeContextIsAssociative(a: Option<Context>, b: Option<Context>, c: Option<Context>)
    ensures MergeContext(MergeContext(a, b), c) == MergeContext(a, MergeContext(b, c))
  {
    if a.Some? && b.Some? && c.Some? {
      var x, y, z := a.value.datasources, b.value.datasources, c.value.datasources;
      assert (x + y) + z == x + (y + z);
    }
  }

  lemma MergeContextsIsAssociative(a: map<string, Option<Context>>, b: map<string, Option<Context>>, c: map<string, Option<Context>>)
    ensures MergeContexts(MergeContexts(a, b), c) == MergeContexts(a, MergeContexts(b, c))
  {
    hide MergeContext;
    var left, right := MergeContexts(MergeContexts(a, b), c), MergeContexts(a, MergeContexts(b, c));
    assert left.Keys == right.Keys;
    forall n | n in left ensures left[n] == right[n] {
      if n in a && n in b && n in c {
        MergeContextIsAssociative(a[n], b[n], c[n]);
      }
    }
  }

  lemma EntriesAreAssociative<V>(a: map<string, V>, b: map<string, V>, c: map<string, V>)
    ensures (a + b) + c == a + (b + c)
  {
  }

  /** Persisted fields: the grouping of layers does not matter. */
  lemma MergeIsAssociative(a: ConfigDocument, b: ConfigDocument, c: ConfigDocument)
    ensures MergeDocuments(MergeDocuments(a, b), c) == MergeDocuments(a, MergeDocuments(b, c))
  {
    hide MergeContexts;
    MergeContextsIsAssociative(a.contexts, b.contexts, c.contexts);
    EntriesAreAssociative(a.stacks, b.stacks, c.stacks);
    EntriesAreAssociative(a.cloud, b.cloud, c.cloud);
  }

  /** The layers from lowest to highest, merged in that order. */
  function MergeAll(layers: seq<Layer>): Layer
    requires layers != []
  {
    if |layers| == 1 then layers[0] else Merge(MergeAll(layers[..|layers| - 1]), layers[|layers| - 1])
  }

  /** Layer `i` is the highest that defines the owner. */
  ghost predicate Wins(layers: seq<Layer>, i: int, owner: string) {
    0 <= i < |layers| && Defines(layers[i].doc, owner) && forall j :: i < j < |layers| ==> !Defines(layers[j].doc, owner)
  }

  lemma WinnersBelow(layers: seq<Layer>, owner: string)
    requires layers != []
    ensures var last := |layers| - 1;
            forall i :: i != last ==>
              (Wins(layers, i, owner) <==> Wins(layers[..last], i, owner) && !Defines(layers[last].doc, owner))
  {
    var last := |layers| - 1;
    var below := layers[..last];
    forall i | i < last && Wins(below, i, owner) && !Defines(layers[last].doc, owner) ensures Wins(layers, i, owner) {
      forall j | i < j < |layers| ensures !Defines(layers[j].doc, owner) {
        assert j < last ==> below[j] == layers[j];
      }
    }
    assert forall i :: 0 <= i < last ==> below[i] == layers[i];
  }

  predicate SameEntry(a: ConfigDocument, b: ConfigDocument, owner: string) {
    && Defines(a, owner) && Defines(b, owner)
    && (IsStack(owner) ==> a.stacks[owner[6..]] == b.stacks[owner[6..]])
    && (IsCloud(owner) ==> a.cloud[owner[6..]] == b.cloud[owner[6..]])
  }

  /** Every entry of the merged config is, whole, the entry of the highest layer that
      defines it: a credential and its destination come from one file. */
  lemma {:induction false} WinnersAreWhole(layers: seq<Layer>, owner: string)
    requires layers != []
    ensures Defines(MergeAll(layers).doc, owner) <==> exists i :: Wins(layers, i, owner)
    ensures forall i :: Wins(layers, i, owner) ==> SameEntry(MergeAll(layers).doc, layers[i].doc, owner)
  {
    var last := |layers| - 1;
    assert Defines(layers[last].doc, owner) ==> Wins(layers, last, owner);
    if last > 0 {
      hide MergeContexts, MergeRuntime, MergeDocuments, Defines, SameEntry;
      var below := layers[..last];
      WinnersAreWhole(below, owner);
      WinnersBelow(layers, owner);
      EntriesAfterMerge(MergeAll(below).doc, layers[last].doc, owner);
      SameEntryTransitive(MergeDocuments(MergeAll(below).doc, layers[last].doc), MergeAll(below).doc, owner);
    }
  }

  lemma EntriesAfterMerge(base: ConfigDocument, over: ConfigDocument, owner: string)
    ensures Defines(MergeDocuments(base, over), owner) <==> Defines(base, owner) || Defines(over, owner)
    ensures Defines(over, owner) ==> SameEntry(MergeDocuments(base, over), over, owner)
    ensures Defines(base, owner) && !Defines(over, owner) ==> SameEntry(MergeDocuments(base, over), base, owner)
  {
  }

  lemma SameEntryTransitive(a: ConfigDocument, b: ConfigDocument, owner: string)
    ensures SameEntry(a, b, owner) ==> forall c: ConfigDocument :: SameEntry(b, c, owner) ==> SameEntry(a, c, owner)
  {
  }

  /** A layer as loading one file leaves it: everything in it carries its identity. */
  ghost predicate Loaded(layer: Layer) {
    && (forall n :: n in layer.doc.stacks && layer.doc.stacks[n].Some? ==> layer.doc.stacks[n].value.source == layer.runtime.identity)
    && (forall n :: n in layer.doc.cloud && layer.doc.cloud[n].Some? ==> layer.doc.cloud[n].value.source == layer.runtime.identity)
    && (forall k :: KnownTo(layer, k) ==> Active(layer.doc, k))
  }

  ghost predicate LoadedLayers(layers: seq<Layer>) {
    && (forall i :: 0 <= i < |layers| ==> Loaded(layers[i]))
    && (forall i, j :: 0 <= i < j < |layers| ==> layers[i].runtime.identity != layers[j].runtime.identity)
  }

  predicate KnownTo(layer: Layer, key: Key) {
    key in layer.runtime.states || key in layer.runtime.mutations || key in layer.runtime.origins
  }

  lemma ActiveNamesItsLayer(layer: Layer, key: Key)
    requires Loaded(layer) && Active(layer.doc, key)
    ensures key.source == layer.runtime.identity && Defines(layer.doc, key.owner)
  {
  }

  /** Everything a layer remembers about one credential. */
  datatype Memory = Memory(state: Option<FieldState>, origin: Option<Slot>, mutated: bool)

  function Find<V>(entries: map<Key, V>, key: Key): Option<V> {
    if key in entries then Some(entries[key]) else None
  }

  function MemoryOf(layer: Layer, key: Key): Memory {
    Memory(Find(layer.runtime.states, key), Find(layer.runtime.origins, key), key in layer.runtime.mutations)
  }

  const NOTHING := Memory(None, None, false)

  lemma MergedMemory(base: Layer, over: Layer, key: Key)
    ensures MemoryOf(Merge(base, over), key)
            == if !Active(Merge(base, over).doc, key) then NOTHING
               else if MemoryOf(over, key) == NOTHING then MemoryOf(base, key)
               else if MemoryOf(base, key) == NOTHING then MemoryOf(over, key)
               else MemoryOf(Merge(base, over), key)
  {
    hide Active;
  }

  /** The remembered state of a credential is exactly that of the layer whose entry
      won: nothing of a shadowed entry survives, nothing of a winner is lost. */
  lemma {:induction false} RuntimeIsTheWinners(layers: seq<Layer>, key: Key)
    requires layers != [] && LoadedLayers(layers)
    ensures forall i :: Wins(layers, i, key.owner) ==> MemoryOf(MergeAll(layers), key) == MemoryOf(layers[i], key)
    ensures (forall i :: !Wins(layers, i, key.owner)) ==> MemoryOf(MergeAll(layers), key) == NOTHING
  {
    hide MergeRuntime, MergeDocuments, Active;
    var last := |layers| - 1;
    assert Defines(layers[last].doc, key.owner) ==> Wins(layers, last, key.owner);
    UnknownIsNothing(layers[last], key);
    if last > 0 {
      var below := layers[..last];
      RuntimeIsTheWinners(below, key);
      WinnersBelow(layers, key.owner);
      MergedMemory(MergeAll(below), layers[last], key);
      WinnersAreWhole(below, key.owner);
      SourcesAfterMerge(MergeAll(below).doc, layers[last].doc, key);
      forall i | Wins(below, i, key.owner) && MemoryOf(layers[i], key) != NOTHING
        ensures Active(MergeAll(below).doc, key) && key.source != layers[last].runtime.identity
      {
        UnknownIsNothing(layers[i], key);
        SameEntryIsActive(MergeAll(below).doc, layers[i].doc, key);
      }
    }
  }

  lemma SameEntryIsActive(a: ConfigDocument, b: ConfigDocument, key: Key)
    requires SameEntry(a, b, key.owner) && Active(b, key)
    ensures Active(a, key)
  {
  }

  lemma SourcesAfterMerge(base: ConfigDocument, over: ConfigDocument, key: Key)
    ensures Active(MergeDocuments(base, over), key)
            <==> if Defines(over, key.owner) then Active(over, key) else Active(base, key)
  {
  }

  lemma UnknownIsNothing(layer: Layer, key: Key)
    requires Loaded(layer)
    ensures MemoryOf(layer, key) != NOTHING ==> Active(layer.doc, key)
    ensures Active(layer.doc, key) ==> Defines(layer.doc, key.owner) && key.source == layer.runtime.identity
  {
    if Active(layer.doc, key) {
      ActiveNamesItsLayer(layer, key);
    }
  }

  // ----- Which layer a setting comes from -----

  /** The settings that a higher layer replaces one by one. */
  datatype Setting =
    | CurrentContext
    | StackOfContext(context: string)
    | CloudOfContext(context: string)
    | DatasourceOfContext(context: string, kind: string)
    | DryRun
    | LogDir
    | Telemetry

  function Stated(text: string): Option<seq<string>> {
    if text == "" then None else Some([text])
  }

  /** What a document says about a setting; None when it says nothing. */
  function Says(doc: ConfigDocument, setting: Setting): Option<seq<string>> {
    match setting
    case CurrentContext => Stated(doc.currentContext)
    case StackOfContext(n) => if n in doc.contexts && doc.contexts[n].Some? then Stated(doc.contexts[n].value.stack) else None
    case CloudOfContext(n) => if n in doc.contexts && doc.contexts[n].Some? then Stated(doc.contexts[n].value.cloud) else None
    case DatasourceOfContext(n, kind) =>
      if n in doc.contexts && doc.contexts[n].Some? && kind in doc.contexts[n].value.datasources
      then Some([doc.contexts[n].value.datasources[kind]]) else None
    case DryRun => if doc.resources.Some? then doc.resources.value.assumeServerDryRun else None
    case LogDir => if doc.diagnostics.Some? then Stated(doc.diagnostics.value.logDir) else None
    case Telemetry => if doc.diagnostics.Some? then Stated(doc.diagnostics.value.telemetry) else None
  }

  lemma HigherSaysFirst(base: ConfigDocument, over: ConfigDocument, setting: Setting)
    ensures Says(MergeDocuments(base, over), setting) == if Says(over, setting).Some? then Says(over, setting) else Says(base, setting)
  {
  }

  /** Layer `i` is the highest that says something about the setting. */
  ghost predicate SaysLast(layers: seq<Layer>, i: int, setting: Setting) {
    0 <= i < |layers| && Says(layers[i].doc, setting).Some? && forall j :: i < j < |layers| ==> Says(layers[j].doc, setting).None?
  }

  lemma SaysLastBelow(layers: seq<Layer>, setting: Setting)
    requires |layers| > 1
    ensures var last := |layers| - 1;
            forall i :: SaysLast(layers, i, setting) ==>
              if i == last then Says(layers[last].doc, setting).Some?
              else SaysLast(layers[..last], i, setting) && layers[..last][i] == layers[i] && Says(layers[last].doc, setting).None?
  {
    hide Says;
  }

  /** Each setting of the merged config is that of the highest layer that has one. */
  lemma {:induction false} HighestLayerDecides(layers: seq<Layer>, setting: Setting)
    requires layers != []
    ensures forall i :: SaysLast(layers, i, setting) ==> Says(MergeAll(layers).doc, setting) == Says(layers[i].doc, setting)
    ensures (forall i :: 0 <= i < |layers| ==> Says(layers[i].doc, setting).None?) ==> Says(MergeAll(layers).doc, setting).None?
  {
    hide MergeDocuments, MergeRuntime, Says;
    var last := |layers| - 1;
    if last > 0 {
      HighestLayerDecides(layers[..last], setting);
      SaysLastBelow(layers, setting);
      HigherSaysFirst(MergeAll(layers[..last]).doc, layers[last].doc, setting);
      hide SaysLast;
    }
  }

  /** A context or a block is there when some layer has it, invocations are logged when some
      layer says so, and the format version is the newest of all. */
  lemma {:induction false} AnyLayerSuffices(layers: seq<Layer>, context: string)
    requires layers != []
    ensures context in MergeAll(layers).doc.contexts <==> exists i :: 0 <= i < |layers| && context in layers[i].doc.contexts
    ensures Logs(MergeAll(layers).doc) <==> exists i :: 0 <= i < |layers| && Logs(layers[i].doc)
    ensures MergeAll(layers).doc.resources.Some? <==> exists i :: 0 <= i < |layers| && layers[i].doc.resources.Some?
    ensures MergeAll(layers).doc.diagnostics.Some? <==> exists i :: 0 <= i < |layers| && layers[i].doc.diagnostics.Some?
    ensures forall i :: 0 <= i < |layers| ==> layers[i].doc.version <= MergeAll(layers).doc.version
    ensures exists i :: 0 <= i < |layers| && layers[i].doc.version == MergeAll(layers).doc.version
  {
    hide MergeDocuments, MergeRuntime, Logs;
    var last := |layers| - 1;
    if last > 0 {
      var below := layers[..last];
      AnyLayerSuffices(below, context);
      TwoLayers(MergeAll(below).doc, layers[last].doc, context);
      assert forall i :: 0 <= i < last ==> layers[i] == below[i];
    }
  }

  predicate Logs(doc: ConfigDocument) {
    doc.diagnostics.Some? && doc.diagnostics.value.agentInvocationLog
  }

  lemma TwoLayers(base: ConfigDocument, over: ConfigDocument, context: string)
    ensures var merged := MergeDocuments(base, over);
            && (context in merged.contexts <==> context in base.contexts || context in over.contexts)
            && (Logs(merged) <==> Logs(base) || Logs(over))
            && (merged.resources.Some? <==> base.resources.Some? || over.resources.Some?)
            && (merged.diagnostics.Some? <==> base.diagnostics.Some? || over.diagnostics.Some?)
            && base.version <= merged.version && over.version <= merged.version && merged.version in {base.version, over.version}
  {
  }

  /** A config merged from several files carries no revision, so it can never be written
      back as if it were one of them; merged from one file it has that file's latest. */
  lemma {:induction false} MixedLayersHaveNoRevision(layers: seq<Layer>)
    requires layers != [] && forall i :: 0 <= i < |layers| ==> layers[i].runtime.identity != ""
    ensures var merged := MergeAll(layers).runtime;
            if forall i :: 0 <= i < |layers| ==> layers[i].runtime.identity == layers[0].runtime.identity
            then merged.identity == layers[0].runtime.identity
                 && (layers[|layers| - 1].runtime.revision.Some? ==>
                       merged.revision == layers[|layers| - 1].runtime.revision && merged.expectAbsent == layers[|layers| - 1].runtime.expectAbsent)
            else merged.identity == "" && merged.revision.None? && !merged.expectAbsent
    ensures MergeAll(layers).deferred <==> exists i :: 0 <= i < |layers| && layers[i].deferred
  {
    hide MergeDocuments, Retained, Active;
    var last := |layers| - 1;
    if last > 0 {
      var below := layers[..last];
      MixedLayersHaveNoRevision(below);
      assert forall i :: 0 <= i < last ==> layers[i] == below[i];
      assert layers[0] == below[0];
    }
  }
}
