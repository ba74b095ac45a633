/** The private copy a write works on (internal/config/loader.go), and everything the
    write does to it before encoding (internal/config/keychain.go,
    internal/config/types.go). */
module WriteClone {
  import opened Credentials
  import opened ObjectGraph
  import opened Wrappers

  /** Where a secret lives in the object graph. */
  datatype Place = OfStack(stack: string, field: Field) | OfCloud(cloud: string, field: Field)

  function SynthRow(providers: ProviderTable?): ProviderRow?
    reads providers
  {
    if providers == null || "synth" !in providers.rows then null else providers.rows["synth"]
  }

  /** The text of a secret field of a stack, when the block it lives in is there. */
  function StackText(stack: StackConfig, field: Field): Option<string>
    reads stack, stack.grafana, stack.providers, SynthRow(stack.providers)
  {
    var grafana, row := stack.grafana, SynthRow(stack.providers);
    match field
    case GrafanaToken => if grafana == null then None else Some(grafana.connection.apiToken)
    case GrafanaPassword => if grafana == null then None else Some(grafana.connection.password)
    case OAuthToken => if grafana == null then None else Some(grafana.connection.oauthToken)
    case OAuthRefreshToken => if grafana == null then None else Some(grafana.connection.oauthRefreshToken)
    case SMToken => if row == null || "sm-token" !in row.values then None else Some(row.values["sm-token"])
    case CloudToken => None
  }

  function CloudText(entry: CloudEntry, field: Field): Option<string>
    reads entry
  {
    match field
    case CloudToken => Some(entry.auth.token)
    case OAuthToken => Some(entry.auth.oauthToken)
    case _ => None
  }

  method SetStackText(stack: StackConfig, field: Field, text: string)
    requires StackText(stack, field).Some?
    modifies stack.grafana, SynthRow(stack.providers)
    ensures StackText(stack, field) == Some(text)
    ensures forall f :: f != field ==> StackText(stack, f) == old(StackText(stack, f))
    ensures stack.grafana != null ==> stack.grafana.tls == old(stack.grafana.tls)
    ensures stack.grafana != null ==> stack.grafana.connection.server == old(stack.grafana.connection.server)
  {
    var grafana, row := stack.grafana, SynthRow(stack.providers);
    match field
    case GrafanaToken => grafana.connection := grafana.connection.(apiToken := text);
    case GrafanaPassword => grafana.connection := grafana.connection.(password := text);
    case OAuthToken => grafana.connection := grafana.connection.(oauthToken := text);
    case OAuthRefreshToken => grafana.connection := grafana.connection.(oauthRefreshToken := text);
    case SMToken => row.values := row.values["sm-token" := text];
  }

  /** What a stack holds. */
  datatype StackValue = StackValue(
    identity: string,
    layer: string,
    connection: Option<Connection>,
    tls: TlsFields,
    rows: map<string, Option<map<string, string>>>,
    rejections: Rejections?)

  /** The stack and its blocks are all among `own`. */
  ghost predicate Owned(stack: StackConfig, own: set<object>)
    reads own
  {
    && stack in own
    && (stack.grafana != null ==> stack.grafana in own && (stack.grafana.tls != null ==> stack.grafana.tls in own))
    && (stack.providers != null ==>
          stack.providers in own && forall p :: p in stack.providers.rows && stack.providers.rows[p] != null ==> stack.providers.rows[p] in own)
  }

  ghost function ValueOf(stack: StackConfig, own: set<object>): StackValue
    requires Owned(stack, own)
    reads own
  {
    StackValue(stack.identity, stack.layer, if stack.grafana == null then None else Some(stack.grafana.connection),
               TlsOf(stack.grafana), Rows(stack.providers), stack.rejections)
  }

  method CloneStack(source: StackConfig, ghost reach: set<object>) returns (copy: StackConfig, ghost own: set<object>)
    requires Owned(source, reach)
    ensures fresh(own) && Owned(copy, own)
    ensures Owned(source, reach) && ValueOf(copy, own) == FilledValue(ValueOf(source, reach))
  {
    var grafana := CloneGrafana(source.grafana);
    var providers := CloneProviders(source.providers, true);
    assert forall o :: o in RowObjects(providers) + RowObjects(source.providers) ==> allocated(o);
    copy := new StackConfig(source.identity, source.layer, grafana, providers, source.rejections);
    own := {copy, providers} + (if grafana == null then {} else {grafana}) + RowObjects(providers)
           + (if grafana == null || grafana.tls == null then {} else {grafana.tls});
  }

  function FilledValue(v: StackValue): StackValue {
    v.(rows := Filled(v.rows))
  }

  datatype Swap = Swap(place: Place, text: string)

  predicate OncePerPlace(swaps: seq<Swap>) {
    forall i, j :: 0 <= i < j < |swaps| ==> swaps[i].place != swaps[j].place
  }

  /** Some swap names the place. */
  ghost predicate Names(swaps: seq<Swap>, place: Place) {
    exists i :: 0 <= i < |swaps| && swaps[i].place == place
  }

  lemma NamesOneMore(swaps: seq<Swap>, more: Swap, place: Place)
    ensures Names(swaps + [more], place) <==> Names(swaps, place) || more.place == place
  {
    if Names(swaps, place) {
      var i :| 0 <= i < |swaps| && swaps[i].place == place;
      assert (swaps + [more])[i].place == place;
    }
    assert (swaps + [more])[|swaps|] == more;
  }

  // ----- Recorded mutations -----

  predicate OwnedBy(key: Key, prefix: string, names: map<string, string>) {
    && |prefix| <= |key.owner| && key.owner[..|prefix|] == prefix && key.owner[|prefix|..] in names
    && names[key.owner[|prefix|..]] == key.source
  }

  /** The mutations recorded for the named entries under their old files count for
      `target`; the others stay. */
  function Rekeyed(mutations: set<Key>, prefix: string, names: map<string, string>, target: string): set<Key> {
    set key | key in mutations :: if OwnedBy(key, prefix, names) then key.(source := target) else key
  }

  /** One entry moves. */
  function RekeyedOne(mutations: set<Key>, owner: string, before: string, target: string): set<Key> {
    set key | key in mutations :: if key.owner == owner && key.source == before then key.(source := target) else key
  }

  lemma RekeyStep(mutations: set<Key>, prefix: string, names: map<string, string>, name: string, before: string, target: string)
    requires name !in names
    ensures RekeyedOne(Rekeyed(mutations, prefix, names, target), prefix + name, before, target)
            == Rekeyed(mutations, prefix, names[name := before], target)
  {
    assert (prefix + name)[..|prefix|] == prefix && (prefix + name)[|prefix|..] == name;
  }

  lemma RekeySame(mutations: set<Key>, owner: string, target: string)
    ensures RekeyedOne(mutations, owner, target, target) == mutations
  {
  }

  lemma OneFewer(sources: map<string, string>, remaining: set<string>, name: string)
    requires name in remaining
    ensures name !in sources - remaining
    ensures sources - (remaining - {name})
            == if name in sources then (sources - remaining)[name := sources[name]] else sources - remaining
  {
  }

  lemma RekeyNone(mutations: set<Key>, prefix: string, target: string)
    ensures Rekeyed(mutations, prefix, map[], target) == mutations
  {
    assert forall key :: key in mutations ==> !OwnedBy(key, prefix, map[]);
  }

  type Nodes = map<string, set<object>>

  ghost predicate Disjoint(nodes: Nodes) {
    forall n, m :: n in nodes && m in nodes && n != m ==> nodes[n] !! nodes[m]
  }

  ghost predicate AllOwned(stacks: map<string, StackConfig?>, reach: set<object>)
    reads reach
  {
    forall n :: n in stacks && stacks[n] != null ==> Owned(stacks[n], reach)
  }

  /** A copy of one stack, or of none. */
  ghost predicate Copies(copy: StackConfig?, own: set<object>, source: StackConfig?, reach: set<object>)
    reads own, reach
  {
    if copy == null || source == null then copy == source
    else Owned(copy, own) && Owned(source, reach) && ValueOf(copy, own) == FilledValue(ValueOf(source, reach))
  }

  /** Every stack of a write's copy is a new object with new blocks, even where the
      original stacks share theirs. */
  method CloneStacks(source: map<string, StackConfig?>, ghost reach: set<object>) returns (copies: map<string, StackConfig?>, ghost nodes: Nodes)
    requires AllOwned(source, reach)
    ensures copies.Keys == source.Keys == nodes.Keys && Disjoint(nodes)
    ensures forall n :: n in source ==> fresh(nodes[n]) && Copies(copies[n], nodes[n], source[n], reach)
  {
    hide Copies, Owned;
    copies, nodes := map[], map[];
    var remaining := source.Keys;
    while remaining != {}
      invariant remaining <= source.Keys && copies.Keys == nodes.Keys == source.Keys - remaining && Disjoint(nodes)
      invariant forall n :: n in nodes ==> fresh(nodes[n])
      invariant forall n :: n in nodes ==> Copies(copies[n], nodes[n], source[n], reach)
      invariant AllOwned(source, reach)
    {
      var n :| n in remaining;
      remaining := remaining - {n};
      var copy, own := CloneStackOrNil(source[n], reach);
      copies, nodes := copies[n := copy], nodes[n := own];
    }
  }

  method CloneStackOrNil(source: StackConfig?, ghost reach: set<object>) returns (copy: StackConfig?, ghost own: set<object>)
    requires source != null ==> Owned(source, reach)
    ensures fresh(own) && Copies(copy, own, source, reach) && (source != null ==> Owned(source, reach))
  {
    if source == null {
      return null, {};
    }
    copy, own := CloneStack(source, reach);
  }

  ghost function All(nodes: Nodes): set<object> {
    set n, o | n in nodes && o in nodes[n] :: o
  }

  function Entries(cloud: map<string, CloudEntry?>): set<object> {
    set n | n in cloud && cloud[n] != null :: cloud[n]
  }

  function Views(contexts: map<string, Context?>): set<object> {
    set n | n in contexts && contexts[n] != null :: contexts[n]
  }

  /** A configuration. `nodes` lists, for a write's copy, the objects of each stack. */
  class Config {
    var identity: string
    var layer: string
    var stacks: map<string, StackConfig?>
    var cloud: map<string, CloudEntry?>
    var contexts: map<string, Context?>
    var mutations: set<Key>
    ghost var nodes: Nodes

    constructor (identity: string, layer: string, stacks: map<string, StackConfig?>, cloud: map<string, CloudEntry?>, contexts: map<string, Context?>, mutations: set<Key>, ghost nodes: Nodes)
      ensures this.identity == identity && this.layer == layer && this.stacks == stacks && this.cloud == cloud && this.contexts == contexts
      ensures this.mutations == mutations && this.nodes == nodes
    {
      this.identity, this.layer, this.stacks, this.cloud, this.contexts := identity, layer, stacks, cloud, contexts;
      this.mutations, this.nodes := mutations, nodes;
    }

    /** Everything a write may change. */
    ghost function Writable(): set<object>
      reads this
    {
      {this} + All(nodes) + Entries(cloud) + Views(contexts)
    }

    /** The graph is a tree: no two stacks and no two entries share an object. */
    ghost predicate IsTree()
      reads `stacks, `cloud, `contexts, `nodes, All(nodes)
    {
      && nodes.Keys == stacks.Keys && Disjoint(nodes) && this !in All(nodes)
      && All(nodes) !! Views(contexts) && All(nodes) !! Entries(cloud)
      && (forall n :: n in stacks && stacks[n] != null ==> Owned(stacks[n], nodes[n]))
      && (forall n, m :: n in cloud && m in cloud && n != m && cloud[n] != null ==> cloud[n] != cloud[m])
    }

    ghost function TextAt(place: Place): Option<string>
      requires IsTree()
      reads `stacks, `cloud, `contexts, `nodes, All(nodes), Entries(cloud)
    {
      match place
      case OfStack(n, field) => if n in stacks && stacks[n] != null then StackText(stacks[n], field) else None
      case OfCloud(n, field) => if n in cloud && cloud[n] != null then CloudText(cloud[n], field) else None
    }

    method Text(place: Place) returns (text: Option<string>)
      requires IsTree()
      ensures text == TextAt(place)
    {
      match place
      case OfStack(n, field) => text := if n in stacks && stacks[n] != null then StackText(stacks[n], field) else None;
      case OfCloud(n, field) => text := if n in cloud && cloud[n] != null then CloudText(cloud[n], field) else None;
    }

    /** Puts a text into one secret field of the copy and leaves every other alone: both
        halves of a swap. */
    method SetText(place: Place, text: string)
      requires IsTree() && TextAt(place).Some?
      modifies All(nodes), Entries(cloud)
      ensures IsTree() && TextAt(place) == Some(text)
      ensures forall other :: other != place ==> TextAt(other) == old(TextAt(other))
    {
      match place
      case OfStack(n, field) =>
        SetStackText(stacks[n], field, text);
      case OfCloud(n, field) =>
        var entry := cloud[n];
        if field.CloudToken? {
          entry.auth := entry.auth.(token := text);
        } else {
          entry.auth := entry.auth.(oauthToken := text);
        }
    }

    /** Swaps in each text whose place exists and returns the texts that were there. */
    method SwapAll(swaps: seq<Swap>) returns (undo: seq<Swap>)
      requires IsTree() && OncePerPlace(swaps)
      modifies All(nodes), Entries(cloud)
      ensures IsTree() && OncePerPlace(undo)
      ensures forall place :: !Names(undo, place) ==> TextAt(place) == old(TextAt(place))
      ensures forall i :: 0 <= i < |undo| ==> Some(undo[i].text) == old(TextAt(undo[i].place)) && TextAt(undo[i].place).Some?
      ensures forall i :: 0 <= i < |swaps| && old(TextAt(swaps[i].place)).Some? ==> TextAt(swaps[i].place) == Some(swaps[i].text)
    {
      hide TextAt, Owned, Disjoint, Names;
      undo := [];
      NothingNamed();
      for i := 0 to |swaps|
        invariant IsTree() && OncePerPlace(undo)
        invariant forall place :: !Names(undo, place) ==> TextAt(place) == old(TextAt(place))
        invariant forall j :: 0 <= j < |undo| ==> Some(undo[j].text) == old(TextAt(undo[j].place)) && TextAt(undo[j].place).Some?
        invariant forall j :: 0 <= j < i && old(TextAt(swaps[j].place)).Some? ==> TextAt(swaps[j].place) == Some(swaps[j].text)
        invariant forall j, k :: 0 <= j < |undo| && i <= k < |swaps| ==> undo[j].place != swaps[k].place
      {
        var place := swaps[i].place;
        var before := Text(place);
        NotNamed(undo, swaps[i]);
        if before.Some? {
          SetText(place, swaps[i].text);
          forall other ensures Names(undo + [Swap(place, before.value)], other) <==> Names(undo, other) || other == place {
            NamesOneMore(undo, Swap(place, before.value), other);
          }
          undo := undo + [Swap(place, before.value)];
        }
      }
    }

    /** Puts every text back, first swapped first. */
    method RestoreAll(undo: seq<Swap>)
      requires IsTree() && OncePerPlace(undo) && forall i :: 0 <= i < |undo| ==> TextAt(undo[i].place).Some?
      modifies All(nodes), Entries(cloud)
      ensures IsTree()
      ensures forall i :: 0 <= i < |undo| ==> TextAt(undo[i].place) == Some(undo[i].text)
      ensures forall place :: !Names(undo, place) ==> TextAt(place) == old(TextAt(place))
    {
      hide TextAt, Owned, Disjoint;
      for i := 0 to |undo|
        invariant IsTree()
        invariant forall j :: 0 <= j < |undo| ==> TextAt(undo[j].place).Some?
        invariant forall j :: 0 <= j < i ==> TextAt(undo[j].place) == Some(undo[j].text)
        invariant forall place :: !Names(undo, place) ==> TextAt(place) == old(TextAt(place))
      {
        SetText(undo[i].place, undo[i].text);
      }
    }

    lemma NothingNamed()
      ensures forall place :: !Names([], place)
    {
    }

    lemma NotNamed(undo: seq<Swap>, swap: Swap)
      requires forall j :: 0 <= j < |undo| ==> undo[j].place != swap.place
      ensures !Names(undo, swap.place)
    {
    }

    /** The same entries in the same objects. */
    twostate predicate SameShape()
      reads this
    {
      stacks == old(stacks) && cloud == old(cloud) && contexts == old(contexts) && nodes == old(nodes)
    }

    /** Entries of another file may only be written here when they carry no credential. */
    ghost predicate Movable(target: string, states: set<Key>)
      requires IsTree()
      reads `stacks, `cloud, `contexts, `nodes, All(nodes), Entries(cloud)
    {
      && (forall n :: n in stacks && stacks[n] != null ==> StackMoves(stacks[n], n, target, states))
      && (forall n :: n in cloud && cloud[n] != null ==> CloudMoves(cloud[n], n, target, states))
    }

    /** The file each entry belongs to. */
    ghost function StackSources(): map<string, string>
      requires IsTree()
      reads `stacks, `cloud, `contexts, `nodes, All(nodes)
    {
      map n | n in stacks && stacks[n] != null :: stacks[n].identity
    }

    ghost function CloudSources(): map<string, string>
      reads `cloud, Entries(cloud)
    {
      map n | n in cloud && cloud[n] != null :: cloud[n].auth.identity
    }

    /** Checks every entry first, then binds all of them to the target file, together
        with the mutations recorded for them. */
    method PrepareSource(target: string, states: set<Key>) returns (ok: bool)
      requires IsTree()
      modifies this`identity, this`mutations, All(nodes), Entries(cloud)
      ensures IsTree() && SameShape() && forall place :: TextAt(place) == old(TextAt(place))
      ensures ok <==> old(Movable(target, states))
      ensures mutations == if ok then Rekeyed(Rekeyed(old(mutations), "stack:", old(StackSources()), target), "cloud:", old(CloudSources()), target)
                           else old(mutations)
      ensures ok ==> identity == target && forall n :: n in stacks && stacks[n] != null ==> stacks[n].identity == target
      ensures ok ==> forall n :: n in cloud && cloud[n] != null ==> cloud[n].auth.identity == target
      ensures !ok ==> identity == old(identity) && forall n :: n in stacks && stacks[n] != null ==> stacks[n].identity == old(stacks[n].identity)
    {
      ok := (forall n | n in stacks :: stacks[n] != null ==> StackMoves(stacks[n], n, target, states))
            && forall n | n in cloud :: cloud[n] != null ==> CloudMoves(cloud[n], n, target, states);
      hide Rekeyed, StackMoves, CloudMoves, TextAt, StackSources, CloudSources;
      if ok {
        BindStacks(target);
        BindCloud(target);
        identity := target;
      }
    }

    method BindStacks(target: string)
      requires IsTree()
      modifies this`mutations, All(nodes)
      ensures IsTree() && SameShape() && forall place :: TextAt(place) == old(TextAt(place))
      ensures mutations == Rekeyed(old(mutations), "stack:", old(StackSources()), target)
      ensures forall n :: n in stacks && stacks[n] != null ==> stacks[n].identity == target
    {
      hide IsTree, TextAt, Rekeyed, RekeyedOne;
      ghost var original, sources := mutations, StackSources();
      RekeyNone(mutations, "stack:", target);
      assert sources - stacks.Keys == map[];
      var remaining := stacks.Keys;
      while remaining != {}
        invariant remaining <= stacks.Keys && IsTree() && SameShape()
        invariant mutations == Rekeyed(original, "stack:", sources - remaining, target)
        invariant forall n :: n in stacks && stacks[n] != null ==>
                    n in sources && stacks[n].identity == if n in remaining then sources[n] else target
        invariant forall n :: n in sources ==> n in stacks && stacks[n] != null
        invariant forall place :: TextAt(place) == old(TextAt(place))
      {
        var n :| n in remaining;
        OneFewer(sources, remaining, n);
        if stacks[n] != null {
          RekeyStep(original, "stack:", sources - remaining, n, sources[n], target);
          StackIsOwn(n);
          BindStack(n, stacks[n], target);
        }
        remaining := remaining - {n};
      }
      assert sources - {} == sources;
    }

    lemma StackIsOwn(name: string)
      requires IsTree() && name in stacks && stacks[name] != null
      ensures stacks[name] in All(nodes)
    {
    }

    method BindStack(name: string, stack: StackConfig, target: string)
      requires IsTree() && name in stacks && stacks[name] == stack
      modifies this`mutations, stack`identity, stack`layer
      ensures IsTree() && forall place :: TextAt(place) == old(TextAt(place))
      ensures mutations == RekeyedOne(old(mutations), "stack:" + name, old(stack.identity), target)
      ensures forall n :: n in stacks && stacks[n] != null ==>
                stacks[n].identity == if n == name then target else old(stacks[n].identity)
    {
      hide RekeyedOne, Rekeyed;
      if stack.identity == target {
        RekeySame(mutations, "stack:" + name, target);
        return;
      }
      mutations := RekeyedOne(mutations, "stack:" + name, stack.identity, target);
      stack.identity, stack.layer := target, layer;
    }

    method BindCloud(target: string)
      requires IsTree()
      modifies this`mutations, Entries(cloud)
      ensures IsTree() && SameShape() && forall place :: TextAt(place) == old(TextAt(place))
      ensures mutations == Rekeyed(old(mutations), "cloud:", old(CloudSources()), target)
      ensures forall n :: n in cloud && cloud[n] != null ==> cloud[n].auth.identity == target
    {
      hide IsTree, TextAt, Rekeyed, RekeyedOne;
      ghost var original, sources := mutations, CloudSources();
      RekeyNone(mutations, "cloud:", target);
      assert sources - cloud.Keys == map[];
      var remaining := cloud.Keys;
      while remaining != {}
        invariant remaining <= cloud.Keys && IsTree() && SameShape()
        invariant mutations == Rekeyed(original, "cloud:", sources - remaining, target)
        invariant forall n :: n in cloud && cloud[n] != null ==>
                    n in sources && cloud[n].auth.identity == if n in remaining then sources[n] else target
        invariant forall n :: n in sources ==> n in cloud && cloud[n] != null
        invariant forall place :: TextAt(place) == old(TextAt(place))
      {
        var n :| n in remaining;
        OneFewer(sources, remaining, n);
        if cloud[n] != null {
          RekeyStep(original, "cloud:", sources - remaining, n, sources[n], target);
          BindEntry(n, cloud[n], target);
        }
        remaining := remaining - {n};
      }
      assert sources - {} == sources;
    }

    method BindEntry(name: string, entry: CloudEntry, target: string)
      requires IsTree() && name in cloud && cloud[name] == entry
      modifies this`mutations, entry`auth
      ensures IsTree() && forall place :: TextAt(place) == old(TextAt(place))
      ensures mutations == RekeyedOne(old(mutations), "cloud:" + name, old(entry.auth.identity), target)
      ensures forall n :: n in cloud && cloud[n] != null ==>
                cloud[n].auth.identity == if n == name then target else old(cloud[n].auth.identity)
    {
      hide RekeyedOne, Rekeyed;
      if entry.auth.identity == target {
        RekeySame(mutations, "cloud:" + name, target);
        return;
      }
      mutations := RekeyedOne(mutations, "cloud:" + name, entry.auth.identity, target);
      entry.auth := entry.auth.(identity := target, layer := layer);
    }

    /** Points every context's views at the entries of this configuration. */
    method Resolve()
      modifies Views(contexts)
      ensures forall n :: n in contexts && contexts[n] != null ==>
                && contexts[n].stack == old(contexts[n].stack) && contexts[n].cloud == old(contexts[n].cloud)
                && contexts[n].stackEntry == (if contexts[n].stack != "" && contexts[n].stack in stacks then stacks[contexts[n].stack] else null)
                && contexts[n].grafana == (if contexts[n].stackEntry == null then null else contexts[n].stackEntry.grafana)
                && contexts[n].providers == (if contexts[n].stackEntry == null then null else contexts[n].stackEntry.providers)
                && contexts[n].cloudEntry == (if contexts[n].cloud != "" && contexts[n].cloud in cloud then cloud[contexts[n].cloud] else null)
    {
      var remaining := contexts.Keys;
      while remaining != {}
        invariant remaining <= contexts.Keys
        invariant forall n :: n in contexts && contexts[n] != null ==>
                    contexts[n].stack == old(contexts[n].stack) && contexts[n].cloud == old(contexts[n].cloud)
        invariant forall n :: n in contexts && n !in remaining && contexts[n] != null ==>
                    && contexts[n].stackEntry == StackNamed(stacks, contexts[n].stack)
                    && contexts[n].grafana == GrafanaNamed(stacks, contexts[n].stack)
                    && contexts[n].providers == (if contexts[n].stackEntry == null then null else contexts[n].stackEntry.providers)
                    && contexts[n].cloudEntry == CloudNamed(cloud, contexts[n].cloud)
      {
        var n :| n in remaining;
        remaining := remaining - {n};
        if contexts[n] != null {
          Wire(contexts[n]);
        }
      }
    }

    method Wire(c: Context)
      modifies c`stackEntry, c`cloudEntry, c`grafana, c`providers
      ensures c.stackEntry == StackNamed(stacks, c.stack) && c.cloudEntry == CloudNamed(cloud, c.cloud)
      ensures c.grafana == GrafanaNamed(stacks, c.stack)
      ensures c.providers == if c.stackEntry == null then null else c.stackEntry.providers
    {
      var stack := StackNamed(stacks, c.stack);
      c.stackEntry, c.cloudEntry := stack, CloudNamed(cloud, c.cloud);
      c.grafana := if stack == null then null else stack.grafana;
      c.providers := if stack == null then null else stack.providers;
    }
  }

  const STACK_FIELDS: set<Field> := {GrafanaToken, GrafanaPassword, OAuthToken, OAuthRefreshToken, SMToken}
  const CLOUD_FIELDS: set<Field> := {CloudToken, OAuthToken}

  predicate Blank(text: Option<string>) {
    text.None? || text.value == ""
  }

  predicate StackMoves(stack: StackConfig, name: string, target: string, states: set<Key>)
    reads stack, stack.grafana, stack.providers, SynthRow(stack.providers)
  {
    stack.identity == target || stack.identity == ""
    || forall f | f in STACK_FIELDS :: Blank(StackText(stack, f)) && Key(stack.identity, "stack:" + name, f) !in states
  }

  predicate CloudMoves(entry: CloudEntry, name: string, target: string, states: set<Key>)
    reads entry
  {
    entry.auth.identity == target || entry.auth.identity == ""
    || forall f | f in CLOUD_FIELDS :: Blank(CloudText(entry, f)) && Key(entry.auth.identity, "cloud:" + name, f) !in states
  }

  /** An entry of another file is written here exactly when it holds no secret text and
      nothing was recorded for it. */
  lemma MovesExactly(stack: StackConfig, entry: CloudEntry, name: string, target: string, states: set<Key>)
    ensures StackMoves(stack, name, target, states) <==>
              stack.identity in {target, ""}
              || forall f :: f in {GrafanaToken, GrafanaPassword, OAuthToken, OAuthRefreshToken, SMToken} ==>
                   StackText(stack, f) in {None, Some("")} && Key(stack.identity, "stack:" + name, f) !in states
    ensures CloudMoves(entry, name, target, states) <==>
              entry.auth.identity in {target, ""}
              || (entry.auth.token == "" && entry.auth.oauthToken == ""
                  && Key(entry.auth.identity, "cloud:" + name, CloudToken) !in states && Key(entry.auth.identity, "cloud:" + name, OAuthToken) !in states)
  {
    hide StackText;
    assert CloudText(entry, CloudToken) == Some(entry.auth.token) && CloudText(entry, OAuthToken) == Some(entry.auth.oauthToken);
  }

  function StackNamed(stacks: map<string, StackConfig?>, name: string): StackConfig? {
    if name != "" && name in stacks then stacks[name] else null
  }

  function GrafanaNamed(stacks: map<string, StackConfig?>, name: string): GrafanaConfig?
    reads StackNamed(stacks, name)
  {
    if StackNamed(stacks, name) == null then null else StackNamed(stacks, name).grafana
  }

  function CloudNamed(cloud: map<string, CloudEntry?>, name: string): CloudEntry? {
    if name != "" && name in cloud then cloud[name] else null
  }

  /** The copy: new objects throughout, each with the values of the original; only the
      rejections, which a write never touches, stay shared. `reach` holds the objects
      of the original stacks. */
  method CloneConfigForWrite(cfg: Config, ghost reach: set<object>) returns (clone: Config)
    requires AllOwned(cfg.stacks, reach)
    ensures fresh(clone) && fresh(clone.Writable()) && clone.IsTree()
    ensures clone.identity == cfg.identity && clone.layer == cfg.layer && clone.mutations == cfg.mutations
    ensures clone.stacks.Keys == cfg.stacks.Keys && clone.cloud.Keys == cfg.cloud.Keys && clone.contexts.Keys == cfg.contexts.Keys
    ensures forall n :: n in cfg.stacks ==> Copies(clone.stacks[n], clone.nodes[n], cfg.stacks[n], reach)
    ensures forall n :: n in cfg.cloud ==> SameEntry(clone.cloud[n], cfg.cloud[n])
  {
    hide Copies, Owned;
    var stacks, nodes := CloneStacks(cfg.stacks, reach);
    var cloud := CloneCloud(cfg.cloud);
    var contexts := CloneContexts(cfg.contexts);
    clone := new Config(cfg.identity, cfg.layer, stacks, cloud, contexts, cfg.mutations, nodes);
    CopiesAreOwn(stacks, nodes, cfg.stacks, reach);
  }

  /** The text of a secret in the caller's configuration. */
  ghost function TextIn(cfg: Config, reach: set<object>, place: Place): Option<string>
    requires AllOwned(cfg.stacks, reach)
    reads cfg, reach, Entries(cfg.cloud)
  {
    match place
    case OfStack(n, field) => if n in cfg.stacks && cfg.stacks[n] != null then StackText(cfg.stacks[n], field) else None
    case OfCloud(n, field) => if n in cfg.cloud && cfg.cloud[n] != null then CloudText(cfg.cloud[n], field) else None
  }

  function ValueText(v: StackValue, field: Field): Option<string> {
    match field
    case GrafanaToken => if v.connection.None? then None else Some(v.connection.value.apiToken)
    case GrafanaPassword => if v.connection.None? then None else Some(v.connection.value.password)
    case OAuthToken => if v.connection.None? then None else Some(v.connection.value.oauthToken)
    case OAuthRefreshToken => if v.connection.None? then None else Some(v.connection.value.oauthRefreshToken)
    case SMToken =>
      if "synth" in v.rows && v.rows["synth"].Some? && "sm-token" in v.rows["synth"].value then Some(v.rows["synth"].value["sm-token"]) else None
    case CloudToken => None
  }

  lemma TextOfValue(stack: StackConfig, own: set<object>, field: Field)
    requires Owned(stack, own)
    ensures StackText(stack, field) == ValueText(ValueOf(stack, own), field) == ValueText(FilledValue(ValueOf(stack, own)), field)
  {
  }

  lemma CopyKeepsTexts(cfg: Config, clone: Config, reach: set<object>, place: Place)
    requires AllOwned(cfg.stacks, reach) && clone.IsTree()
    requires clone.stacks.Keys == cfg.stacks.Keys && clone.cloud.Keys == cfg.cloud.Keys
    requires forall n :: n in cfg.stacks ==> Copies(clone.stacks[n], clone.nodes[n], cfg.stacks[n], reach)
    requires forall n :: n in cfg.cloud ==> SameEntry(clone.cloud[n], cfg.cloud[n])
    ensures clone.TextAt(place) == TextIn(cfg, reach, place)
  {
    hide ValueText, StackText, FilledValue, ValueOf;
    if place.OfStack? && place.stack in cfg.stacks && cfg.stacks[place.stack] != null {
      TextOfValue(clone.stacks[place.stack], clone.nodes[place.stack], place.field);
      TextOfValue(cfg.stacks[place.stack], reach, place.field);
    }
  }

  predicate SameEntry(a: CloudEntry?, b: CloudEntry?)
    reads a, b
  {
    if a == null || b == null then a == b else a.auth == b.auth && a.rejections == b.rejections
  }

  lemma CopiesAreOwn(stacks: map<string, StackConfig?>, nodes: Nodes, source: map<string, StackConfig?>, reach: set<object>)
    requires stacks.Keys == nodes.Keys == source.Keys
    requires forall n :: n in source ==> Copies(stacks[n], nodes[n], source[n], reach)
    ensures forall n :: n in stacks && stacks[n] != null ==> Owned(stacks[n], nodes[n])
  {
  }

  /** Everything a write does to its configuration, on a copy: source binding, wiring,
      and the swaps of secrets for references, undone at the end. There is no `modifies`
      clause: nothing that exists before, in particular nothing reachable from the
      caller's configuration, is changed. The copy ends with the caller's secrets. */
  method WorkOnCopy(cfg: Config, target: string, states: set<Key>, swaps: seq<Swap>, ghost reach: set<object>) returns (ok: bool, clone: Config)
    requires AllOwned(cfg.stacks, reach) && OncePerPlace(swaps)
    ensures fresh(clone) && clone.IsTree() && fresh(clone.Writable())
    ensures ok ==> clone.identity == target
    ensures forall place :: clone.TextAt(place) == old(TextIn(cfg, reach, place))
  {
    hide Copies, Owned, Disjoint, AllOwned, SameEntry, Names, OncePerPlace, Config.TextAt, TextIn;
    assert forall o :: o in Entries(cfg.cloud) ==> allocated(o);
    clone := CloneConfigForWrite(cfg, reach);
    forall place ensures clone.TextAt(place) == old(TextIn(cfg, reach, place)) {
      CopyKeepsTexts(cfg, clone, reach, place);
    }
    ok := WorkOn(clone, target, states, swaps);
  }

  method WorkOn(clone: Config, target: string, states: set<Key>, swaps: seq<Swap>) returns (ok: bool)
    requires clone.IsTree() && OncePerPlace(swaps)
    modifies clone`identity, clone`mutations, All(clone.nodes), Entries(clone.cloud), Views(clone.contexts)
    ensures clone.IsTree() && forall place :: clone.TextAt(place) == old(clone.TextAt(place))
    ensures ok <==> old(clone.Movable(target, states))
    ensures ok ==> clone.identity == target && forall n :: n in clone.contexts && clone.contexts[n] != null ==>
              && clone.contexts[n].stackEntry == StackNamed(clone.stacks, clone.contexts[n].stack)
              && clone.contexts[n].cloudEntry == CloudNamed(clone.cloud, clone.contexts[n].cloud)
  {
    hide Owned, Disjoint, StackMoves, CloudMoves, Config.TextAt, Config.Movable, Names;
    ok := clone.PrepareSource(target, states);
    if ok {
      clone.Resolve();
      Swapping(clone, swaps);
    }
  }

  /** Swapping all secrets and putting them back leaves every text as it was. */
  method Swapping(clone: Config, swaps: seq<Swap>)
    requires clone.IsTree() && OncePerPlace(swaps)
    modifies All(clone.nodes), Entries(clone.cloud)
    ensures clone.IsTree() && forall place :: clone.TextAt(place) == old(clone.TextAt(place))
  {
    hide Owned, Disjoint, Config.TextAt;
    var undo := clone.SwapAll(swaps);
    clone.RestoreAll(undo);
    forall place ensures clone.TextAt(place) == old(clone.TextAt(place)) {
      if Names(undo, place) {
        var i :| 0 <= i < |undo| && undo[i].place == place;
      }
    }
  }

  method CloneCloud(source: map<string, CloudEntry?>) returns (copies: map<string, CloudEntry?>)
    ensures copies.Keys == source.Keys && fresh(Entries(copies))
    ensures forall n :: n in source ==> (copies[n] == null <==> source[n] == null)
    ensures forall n :: n in source && source[n] != null ==>
              copies[n].auth == source[n].auth && copies[n].rejections == source[n].rejections
    ensures forall n, m :: n in copies && m in copies && n != m && copies[n] != null ==> copies[n] != copies[m]
  {
    copies := map[];
    var remaining := source.Keys;
    while remaining != {}
      invariant remaining <= source.Keys && copies.Keys == source.Keys - remaining
      invariant forall n :: n in copies ==> (copies[n] == null <==> source[n] == null) && (copies[n] != null ==> fresh(copies[n]))
      invariant forall n :: n in copies && source[n] != null ==>
                  copies[n].auth == source[n].auth && copies[n].rejections == source[n].rejections
      invariant forall n, m :: n in copies && m in copies && n != m && copies[n] != null ==> copies[n] != copies[m]
    {
      var n :| n in remaining;
      remaining := remaining - {n};
      if source[n] == null {
        copies := copies[n := null];
      } else {
        var copy := new CloudEntry(source[n].auth, source[n].rejections);
        copies := copies[n := copy];
      }
    }
  }

  method CloneContexts(source: map<string, Context?>) returns (copies: map<string, Context?>)
    ensures copies.Keys == source.Keys && fresh(Views(copies))
    ensures forall n :: n in source ==> (copies[n] == null <==> source[n] == null)
    ensures forall n :: n in source && source[n] != null ==> copies[n].stack == source[n].stack && copies[n].cloud == source[n].cloud
  {
    copies := map[];
    var remaining := source.Keys;
    while remaining != {}
      invariant remaining <= source.Keys && copies.Keys == source.Keys - remaining
      invariant forall n :: n in copies ==> (copies[n] == null <==> source[n] == null) && (copies[n] != null ==> fresh(copies[n]))
      invariant forall n :: n in copies && source[n] != null ==> copies[n].stack == source[n].stack && copies[n].cloud == source[n].cloud
    {
      var n :| n in remaining;
      remaining := remaining - {n};
      if source[n] == null {
        copies := copies[n := null];
      } else {
        var copy := new Context.Copy(source[n]);
        copies := copies[n := copy];
      }
    }
  }
}
