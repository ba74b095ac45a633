/** The conversion as the program performs it, and the check it must pass
    (internal/config/migrate.go). */
module LegacyMigration {
  import opened ConfigTypes
  import opened Conversion
  import opened Credentials
  import opened Migration
  import opened Minting
  import opened Scopes
  import opened Wrappers

  class Converter {
    const urls: Urls
    const secrets: LegacySecrets
    const suffix: string
    var stacks: map<string, Option<Stack>>
    var contexts: map<string, Option<Context>>
    var cloud: map<string, Option<CloudAuth>>
    var entryNames: map<string, string>
    ghost var mints: Mints

    constructor (urls: Urls, secrets: LegacySecrets, suffix: string)
      ensures this.urls == urls && this.secrets == secrets && this.suffix == suffix
      ensures Tracks() && mints == START && stacks == map[] && contexts == map[]
    {
      this.urls, this.secrets, this.suffix := urls, secrets, suffix;
      stacks, contexts, cloud, entryNames, mints := map[], map[], map[], map[], START;
    }

    ghost predicate Tracks()
      reads this`cloud, this`entryNames, this`mints
    {
      cloud == Entries(mints.cloud) && entryNames == mints.names
    }

    /** The tuple of a context: explicit endpoints first, then the other endpoint, then
        the stack's own cloud, then the public one. */
    method Resolve(name: string, lctx: LegacyContext) returns (target: Option<Target>)
      ensures target == LegacyTarget(urls, secrets, name, lctx)
    {
      if lctx.cloud.None? || (lctx.cloud.value.token == "" && lctx.cloud.value.apiUrl == "" && lctx.cloud.value.oauthUrl == "") {
        return None;
      }
      var token := SecretValue(secrets, name, CloudToken, lctx.cloud.value.token);
      var apiUrl := lctx.cloud.value.apiUrl;
      if apiUrl == "" && lctx.cloud.value.oauthUrl != "" {
        apiUrl := lctx.cloud.value.oauthUrl;
      }
      if apiUrl == "" && lctx.grafana.Some? {
        apiUrl := urls.gcomRoot(lctx.grafana.value.server);
      }
      if apiUrl == "" {
        apiUrl := DEFAULT_CLOUD;
      }
      var oauthUrl := if lctx.cloud.value.oauthUrl == "" then apiUrl else lctx.cloud.value.oauthUrl;
      target := Some(Target(token, apiUrl, oauthUrl));
    }

    /** Reuses the entry of an equal tuple or mints one. */
    method EnsureLegacyCloudEntry(name: string, lctx: LegacyContext) returns (entry: string)
      requires Tracks()
      modifies this`cloud, this`entryNames, this`mints
      ensures Tracks()
      ensures var t := LegacyTarget(urls, secrets, name, lctx);
              && mints == (if t.None? then old(mints) else MintOne(urls, suffix, old(mints), name, t.value))
              && (t.Some? ==> name in mints.given && entry == mints.given[name])
              && (t.None? ==> entry == "")
    {
      hide DedupKey, LegacyTarget;
      var target := Resolve(name, lctx);
      if target.None? {
        return "";
      }
      var t := target.value;
      var key := DedupKey(t);
      mints := MintOne(urls, suffix, mints, name, t);
      if key in entryNames {
        return entryNames[key];
      }
      entry := urls.entryName(t.apiUrl) + suffix;
      if entry in cloud {
        entry := entry + "-" + name;
      }
      cloud := cloud[entry := Some(AuthOf(t))];
      entryNames := entryNames[key := entry];
    }

    /** One context of the loop: its stack, its cloud entry, its datasources. */
    method AddContext(name: string, legacy: Option<LegacyContext>)
      requires Tracks() && name !in mints.given
      modifies this
      ensures Tracks()
      ensures mints == Minted(urls, suffix, old(mints), name, TargetOf(urls, secrets, name, legacy))
      ensures stacks == if legacy.Some? && HasStack(legacy.value) then old(stacks)[name := ConvertStack(secrets, name, legacy.value)] else old(stacks)
      ensures contexts == old(contexts)[name := Some(ConvertedContext(mints, name, legacy))]
    {
      hide LegacyTarget, MintOne, Folded, Entries;
      if legacy.None? {
        contexts := contexts[name := Some(Context("", "", map[]))];
        return;
      }
      var stack := ConvertStack(secrets, name, legacy.value);
      if stack.Some? {
        stacks := stacks[name := stack];
      }
      ghost var before := mints;
      var entry := EnsureLegacyCloudEntry(name, legacy.value);
      var datasources := MergeLegacyDatasources(legacy.value);
      contexts := contexts[name := Some(Context(if stack.Some? then name else "", entry, datasources))];
    }
  }

  function Minted(urls: Urls, suffix: string, m: Mints, name: string, target: Option<Target>): Mints {
    if target.None? then m else MintOne(urls, suffix, m, name, target.value)
  }

  /** Sorting fixes the order; what conversion preserves does not depend on it. */
  method SortedNames(contexts: map<string, Option<LegacyContext>>) returns (names: seq<string>)
    ensures names == Sorted(contexts.Keys)
  {
    names := [];
    var remaining := contexts.Keys;
    while remaining != {}
      invariant remaining <= contexts.Keys
      invariant forall n :: n in names <==> n in contexts && n !in remaining
    {
      var name :| name in remaining;
      remaining := remaining - {name};
      names := names + [name];
    }
    CanonicalIsSorted(names);
    names := Canonical(names);
    SortedIsUnique(names, contexts.Keys);
  }

  lemma SortedEnumerates(lc: Legacy)
    ensures Enumerates(Sorted(lc.contexts.Keys), lc)
  {
    SortedIsUnique(Sorted(lc.contexts.Keys), lc.contexts.Keys);
  }

  method ConvertLegacyConfig(urls: Urls, secrets: LegacySecrets, layerType: string, lc: Legacy) returns (doc: ConfigDocument)
    ensures doc == Convert(urls, secrets, LayerEntrySuffix(layerType), lc, Sorted(lc.contexts.Keys))
  {
    hide Minted, ConvertedContext, ConvertedContexts, ConvertedStacks, HasStack, ConvertStack, Entries, TargetOf, MintAll, Convert;
    var suffix := LayerEntrySuffix(layerType);
    var converter := new Converter(urls, secrets, suffix);
    ghost var targets := TargetsOf(urls, secrets, lc);
    var names := SortedNames(lc.contexts);
    SortedEnumerates(lc);
    NothingMinted(urls, suffix, targets);
    NothingConverted(secrets, lc.contexts);
    assert names[..0] == [];
    for i := 0 to |names|
      invariant converter.Tracks() && converter.mints == MintAll(urls, suffix, targets, names[..i])
      invariant converter.stacks == ConvertedStacks(secrets, Restrict(lc.contexts, names[..i]))
      invariant converter.contexts == ConvertedContexts(converter.mints, Restrict(lc.contexts, names[..i]))
    {
      ghost var before := converter.mints;
      ghost var done, name, legacy := Restrict(lc.contexts, names[..i]), names[i], lc.contexts[names[i]];
      RestrictAdvances(lc.contexts, names, i);
      MintsAdvance(urls, suffix, secrets, lc, names, i);
      StacksAdvance(secrets, done, name, legacy);
      OthersKeepTheirNames(urls, suffix, before, name, TargetOf(urls, secrets, name, legacy));
      converter.AddContext(names[i], lc.contexts[names[i]]);
      ContextsAdvance(before, converter.mints, done, name, legacy);
    }
    assert names[..|names|] == names;
    assert Restrict(lc.contexts, names) == lc.contexts;
    doc := ConfigDocument(CONFIG_VERSION, lc.currentContext, lc.diagnostics, converter.stacks, converter.cloud, None, converter.contexts);
    ConvertIs(urls, secrets, suffix, lc, names);
  }

  ghost function Restrict(contexts: map<string, Option<LegacyContext>>, names: seq<string>): map<string, Option<LegacyContext>> {
    map n | n in contexts && n in names :: contexts[n]
  }

  ghost function ConvertedContexts(m: Mints, contexts: map<string, Option<LegacyContext>>): map<string, Option<Context>> {
    map n | n in contexts :: Some(ConvertedContext(m, n, contexts[n]))
  }

  lemma ConvertIs(urls: Urls, secrets: LegacySecrets, suffix: string, lc: Legacy, order: seq<string>)
    ensures var m := MintAll(urls, suffix, TargetsOf(urls, secrets, lc), order);
            Convert(urls, secrets, suffix, lc, order)
            == ConfigDocument(CONFIG_VERSION, lc.currentContext, lc.diagnostics, ConvertedStacks(secrets, lc.contexts),
                        Entries(m.cloud), None, ConvertedContexts(m, lc.contexts))
  {
  }

  lemma NothingConverted(secrets: LegacySecrets, contexts: map<string, Option<LegacyContext>>)
    ensures ConvertedStacks(secrets, Restrict(contexts, [])) == map[]
    ensures ConvertedContexts(START, Restrict(contexts, [])) == map[]
  {
  }

  lemma RestrictAdvances(contexts: map<string, Option<LegacyContext>>, names: seq<string>, i: nat)
    requires i < |names| && Unique(names) && names[i] in contexts
    ensures names[i] !in Restrict(contexts, names[..i])
    ensures Restrict(contexts, names[..i + 1]) == Restrict(contexts, names[..i])[names[i] := contexts[names[i]]]
  {
    assert names[..i + 1] == names[..i] + [names[i]];
  }

  lemma StacksAdvance(secrets: LegacySecrets, contexts: map<string, Option<LegacyContext>>, name: string, legacy: Option<LegacyContext>)
    requires name !in contexts
    ensures ConvertedStacks(secrets, contexts[name := legacy])
            == if legacy.Some? && HasStack(legacy.value) then ConvertedStacks(secrets, contexts)[name := ConvertStack(secrets, name, legacy.value)]
               else ConvertedStacks(secrets, contexts)
  {
    hide HasStack, ConvertStack;
  }

  lemma MintsAdvance(urls: Urls, suffix: string, secrets: LegacySecrets, lc: Legacy, names: seq<string>, i: nat)
    requires i < |names| && Enumerates(names, lc)
    ensures var targets, name := TargetsOf(urls, secrets, lc), names[i];
            var m := MintAll(urls, suffix, targets, names[..i]);
            && name !in m.given
            && MintAll(urls, suffix, targets, names[..i + 1]) == Minted(urls, suffix, m, name, TargetOf(urls, secrets, name, lc.contexts[name]))
  {
    hide MintOne, MintAll, TargetOf;
    var targets, name := TargetsOf(urls, secrets, lc), names[i];
    assert names[..i + 1] == names[..i] + [name] && names[..i + 1][..i] == names[..i];
    assert name !in names[..i];
    Step(urls, suffix, targets, names[..i + 1]);
    MintingCovers(urls, suffix, targets, names[..i]);
  }

  lemma ContextsAdvance(m: Mints, after: Mints, contexts: map<string, Option<LegacyContext>>, name: string, legacy: Option<LegacyContext>)
    requires name !in contexts && forall n :: n != name ==> Given(after, n) == Given(m, n)
    ensures ConvertedContexts(after, contexts[name := legacy])
            == ConvertedContexts(m, contexts)[name := Some(ConvertedContext(after, name, legacy))]
  {
    hide HasStack, Folded;
  }

  lemma OthersKeepTheirNames(urls: Urls, suffix: string, m: Mints, name: string, target: Option<Target>)
    ensures forall n :: n != name ==> Given(Minted(urls, suffix, m, name, target), n) == Given(m, n)
  {
    hide DedupKey, BaseName;
  }
}
