/** The preflight of a layered migration, as the program performs it
    (internal/config/migrate_preflight.go). */
module LegacyPreflight {
  import opened ConfigTypes
  import opened Conversion
  import opened LayerMerge
  import opened LegacyLayers
  import opened LegacyMigration
  import opened Migration
  import opened Scopes
  import opened Wrappers

  datatype Input = Input(lc: Legacy, layerType: string)

  method MergeLegacyConfigs(base: Legacy, over: Legacy) returns (result: Legacy)
    ensures result == MergeLegacy(base, over)
  {
    hide MergeLegacyContext, MergeDiagnostics;
    result := base;
    if over.currentContext != "" {
      result := result.(currentContext := over.currentContext);
    }
    var contexts := base.contexts;
    var remaining := over.contexts.Keys;
    while remaining != {}
      invariant remaining <= over.contexts.Keys
      invariant contexts.Keys == base.contexts.Keys + (over.contexts.Keys - remaining)
      invariant forall n :: n in contexts ==>
                  contexts[n] == if n !in over.contexts || n in remaining then base.contexts[n]
                                 else if n !in base.contexts then over.contexts[n]
                                 else MergeLegacyContext(base.contexts[n], over.contexts[n])
    {
      var name :| name in remaining;
      remaining := remaining - {name};
      if name in contexts {
        contexts := contexts[name := MergeLegacyContext(contexts[name], over.contexts[name])];
      } else {
        contexts := contexts[name := over.contexts[name]];
      }
    }
    result := result.(contexts := contexts, diagnostics := MergeDiagnostics(base.diagnostics, over.diagnostics));
  }

  lemma OneMore(urls: Urls, layers: seq<LegacyLayer>, next: LegacyLayer)
    requires layers != []
    ensures MergeAllLegacy(layers + [next]) == MergeLegacy(MergeAllLegacy(layers), next.lc)
    ensures MergeAll(ConvertLayers(urls, layers + [next])) == Merge(MergeAll(ConvertLayers(urls, layers)), ConvertLayer(urls, next))
  {
    hide MergeDocuments, MergeRuntime, MergeLegacy, ConvertLayer;
    assert (layers + [next])[..|layers|] == layers;
    assert ConvertLayers(urls, layers + [next])[..|layers|] == ConvertLayers(urls, layers);
  }

  /** The layers as the preflight converts them: in the order of their names. */
  ghost function Layered(inputs: seq<Input>): (layers: seq<LegacyLayer>)
    ensures |layers| == |inputs|
  {
    seq(|inputs|, i requires 0 <= i < |inputs| =>
      LegacyLayer(inputs[i].lc, inputs[i].layerType, Sorted(inputs[i].lc.contexts.Keys)))
  }

  ghost function Merged(inputs: seq<Input>): LegacyLayer
    requires inputs != []
  {
    MergedLayer(Layered(inputs), Sorted(MergeAllLegacy(Layered(inputs)).contexts.Keys))
  }

  /** Accepts exactly when both ways of layering give every context the same view. */
  method ProveLayeredLegacyConversion(urls: Urls, inputs: seq<Input>) returns (accepted: bool)
    requires inputs != []
    ensures NoNilContext(ConvertLayer(urls, Merged(inputs)).doc)
    ensures accepted <==> EffectivelyEqual(urls, ConvertLayer(urls, Merged(inputs)).doc, ConvertedThenMerged(urls, Layered(inputs)))
  {
    hide Convert, EffectivelyEqual, Merge, MergeLegacy, MergeAll, MergeAllLegacy;
    var merged := inputs[0].lc;
    var doc := ConvertLegacyConfig(urls, map[], inputs[0].layerType, merged);
    var actual := Layer(doc, false, NO_RUNTIME);
    OneLayer(urls, Layered(inputs[..1]));
    for i := 1 to |inputs|
      invariant merged == MergeAllLegacy(Layered(inputs[..i])) && actual == MergeAll(ConvertLayers(urls, Layered(inputs[..i])))
    {
      merged := MergeLegacyConfigs(merged, inputs[i].lc);
      var converted := ConvertLegacyConfig(urls, map[], inputs[i].layerType, inputs[i].lc);
      actual := MergeConfigs(actual, Layer(converted, false, NO_RUNTIME));
      OneMore(urls, Layered(inputs[..i]), Layered(inputs)[i]);
      assert Layered(inputs[..i + 1]) == Layered(inputs[..i]) + [Layered(inputs)[i]];
    }
    assert inputs[..|inputs|] == inputs;
    var expected := ConvertLegacyConfig(urls, map[], "", merged);
    ConvertedHasNoNil(urls, Merged(inputs));
    accepted := CompareMigratedEffectiveViews(urls, expected, actual.doc);
  }

  /** For clean layers without a common context the preflight accepts exactly when no
      minted name stands for different tuples in two layers. */
  lemma PreflightOfCleanLayers(urls: Urls, inputs: seq<Input>)
    requires inputs != [] && ProperNames(urls) && Apart(Layered(inputs))
    requires AllClean(urls, Layered(inputs)) && Clean(urls, Merged(inputs))
    ensures NoNilContext(ConvertLayer(urls, Merged(inputs)).doc)
    ensures EffectivelyEqual(urls, ConvertLayer(urls, Merged(inputs)).doc, ConvertedThenMerged(urls, Layered(inputs)))
            <==> NoShadowing(urls, Layered(inputs))
  {
    hide AllClean, Clean, NoShadowing, EffectivelyEqual, Apart, ConvertLayer, ConvertedThenMerged, MergeAllLegacy, Enumerates;
    forall i | 0 <= i < |inputs| ensures Enumerates(Layered(inputs)[i].order, Layered(inputs)[i].lc) {
      SortedEnumerates(inputs[i].lc);
    }
    SortedEnumerates(MergeAllLegacy(Layered(inputs)));
    LayeringCommutes(urls, Layered(inputs), Sorted(MergeAllLegacy(Layered(inputs)).contexts.Keys));
  }

  lemma OneLayer(urls: Urls, layers: seq<LegacyLayer>)
    requires |layers| == 1
    ensures MergeAllLegacy(layers) == layers[0].lc && MergeAll(ConvertLayers(urls, layers)) == ConvertLayer(urls, layers[0])
  {
  }

  lemma ConvertedHasNoNil(urls: Urls, layer: LegacyLayer)
    ensures NoNilContext(ConvertLayer(urls, layer).doc)
  {
  }
}
