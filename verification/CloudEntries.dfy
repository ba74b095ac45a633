/** The copy-on-write allocator of cloud auth entries
    (internal/config/cloud_login.go). */
module CloudEntries {
  import opened Credentials
  import opened Numerals
  import opened Scopes
  import opened Wrappers

  /** What a keychain account can hold: a write stages plaintext only, so a stored
      value is never itself a reference. */
  type Secret = t: Text | !t.IsSentinel() witness Empty

  datatype AuthEntry = AuthEntry(
    source: string,
    token: Text,
    oauthToken: Text,
    oauthExpiresAt: string,
    scopes: seq<string>,
    oauthUrl: string,
    apiUrl: string)

  /** The credential/destination tuple a context authenticates with. */
  datatype Tuple = Tuple(token: Text, oauthToken: Text, oauthExpiresAt: string, scopes: seq<string>, oauthUrl: string, apiUrl: string)

  /** The parts of the process that this module only consults. */
  datatype Lookup = Lookup(
    read: Option<Account -> Option<Secret>>,
    destination: (string, string) -> string,
    entryName: string -> string)

  /** Evidence from the complete layered view. */
  datatype Safety = Safety(shared: bool, reserved: seq<string>, foreign: seq<string>)

  /** One entry never holds two credentials at once. */
  function MergeCloud(existing: AuthEntry, incoming: AuthEntry): AuthEntry {
    var a := if incoming.token.Empty? then existing
             else existing.(token := incoming.token, oauthToken := Empty, oauthExpiresAt := "", scopes := []);
    var b := if incoming.oauthToken.Empty? then a
             else a.(token := Empty, oauthToken := incoming.oauthToken, oauthExpiresAt := incoming.oauthExpiresAt,
                     scopes := Canonical(incoming.scopes));
    b.(oauthUrl := if incoming.oauthUrl != "" then incoming.oauthUrl else b.oauthUrl,
       apiUrl := if incoming.apiUrl != "" then incoming.apiUrl else b.apiUrl)
  }

  function BindingOf(around: Lookup, name: string, entry: AuthEntry, field: Field): Binding {
    Binding(Key(entry.source, "cloud:" + name, field), around.destination(entry.apiUrl, entry.oauthUrl))
  }

  function ResolveText(around: Lookup, text: Text, binding: Binding): Text {
    if around.read.None? || !text.IsSentinel() then text
    else if !text.Matches(binding) then Empty
    else match around.read.value(text.account)
      case None => Empty
      case Some(value) => value
  }

  /** The entry with its references replaced by what the keychain answers. */
  function Resolve(around: Lookup, name: string, entry: AuthEntry): AuthEntry {
    entry.(token := ResolveText(around, entry.token, BindingOf(around, name, entry, CloudToken)),
           oauthToken := ResolveText(around, entry.oauthToken, BindingOf(around, name, entry, OAuthToken)))
  }

  function TupleOf(entry: AuthEntry): Tuple {
    Tuple(entry.token, entry.oauthToken, entry.oauthExpiresAt, Canonical(entry.scopes), entry.oauthUrl, entry.apiUrl)
  }

  /** The tuple a context gets from the entry stored under `name`. */
  function Effective(around: Lookup, name: string, entry: AuthEntry): Tuple {
    TupleOf(Resolve(around, name, entry))
  }

  predicate Same(around: Lookup, name: string, existing: AuthEntry, desired: AuthEntry) {
    Effective(around, name, existing) == TupleOf(desired)
  }

  /** A name that may receive `desired`: unreserved, and free or already equal. */
  predicate Acceptable(around: Lookup, cloud: map<string, AuthEntry>, reserved: seq<string>, desired: AuthEntry, name: string) {
    name !in reserved && (name in cloud ==> Same(around, name, cloud[name], desired))
  }

  /** `name` is the first acceptable candidate, found within one try more than there
      are names in the way. */
  ghost predicate FirstAcceptable(around: Lookup, cloud: map<string, AuthEntry>, reserved: seq<string>, desired: AuthEntry, base: string, name: string) {
    exists n :: 1 <= n <= |cloud| + |reserved| + 1
      && name == Candidate(base, n) && Acceptable(around, cloud, reserved, desired, name)
      && forall m :: 1 <= m < n ==> !Acceptable(around, cloud, reserved, desired, Candidate(base, m))
  }

  lemma {:induction false} ElementsAreFew(s: seq<string>)
    ensures |set x | x in s| <= |s|
  {
    if s != [] {
      ElementsAreFew(s[1..]);
      assert (set x | x in s) == {s[0]} + (set x | x in s[1..]);
    }
  }

  lemma TriesAreBounded(cloud: map<string, AuthEntry>, reserved: seq<string>, base: string, n: nat)
    requires forall m :: 1 <= m <= n ==> Candidate(base, m) in cloud || Candidate(base, m) in reserved
    ensures n <= |cloud| + |reserved|
  {
    var names := set x | x in reserved;
    ElementsAreFew(reserved);
    assert |cloud.Keys + names| <= |cloud.Keys| + |names| by {
      assert cloud.Keys + names == cloud.Keys + (names - cloud.Keys);
      SubsetCount(names - cloud.Keys, names);
    }
    TakenCandidatesAreFew(base, n, cloud.Keys + names);
    assert |cloud.Keys| == |cloud|;
  }

  /** Merging a resolved or equal entry again changes nothing the context sees. */
  predicate Absorbs(x: AuthEntry, entry: AuthEntry) {
    TupleOf(MergeCloud(x, entry)) == TupleOf(x)
  }

  /** What a login produces: at most one credential, in plaintext. */
  predicate OneCredential(entry: AuthEntry) {
    && !entry.token.IsSentinel() && !entry.oauthToken.IsSentinel()
    && (!entry.token.Empty? ==> entry.oauthToken.Empty? && entry.oauthExpiresAt == "" && entry.scopes == [])
  }

  lemma MergeAbsorbs(x: AuthEntry, entry: AuthEntry)
    requires OneCredential(entry)
    ensures Absorbs(MergeCloud(x, entry), entry) && Absorbs(entry, entry)
  {
    CanonicalIsIdempotent(entry.scopes);
  }

  lemma AbsorbsByTuple(x: AuthEntry, y: AuthEntry, entry: AuthEntry)
    requires TupleOf(x) == TupleOf(y) && Absorbs(y, entry)
    ensures Absorbs(x, entry)
  {
    CanonicalIsIdempotent(entry.scopes);
  }

  /** A second resolution finds nothing left to resolve. */
  lemma ResolveTwice(around: Lookup, name: string, x: AuthEntry)
    ensures Resolve(around, name, Resolve(around, name, x)) == Resolve(around, name, x)
  {
  }

  lemma ResolveKeepsAbsorption(around: Lookup, name: string, x: AuthEntry, entry: AuthEntry)
    requires OneCredential(entry) && Absorbs(x, entry)
    ensures Absorbs(Resolve(around, name, x), entry)
  {
    CanonicalIsIdempotent(entry.scopes);
  }

  function Stored(source: string, entry: AuthEntry): AuthEntry {
    entry.(source := source, scopes := Canonical(entry.scopes))
  }

  /** Overwriting an entry that already holds the tuple is invisible. */
  lemma SameIsInvisible(around: Lookup, source: string, name: string, existing: AuthEntry, desired: AuthEntry)
    requires Same(around, name, existing, desired)
    ensures Effective(around, name, Stored(source, desired)) == Effective(around, name, existing)
  {
    CanonicalIsIdempotent(desired.scopes);
  }

  /** The entries after the context's own references were resolved. */
  function Prepared(around: Lookup, cloud: map<string, AuthEntry>, contexts: map<string, string>, context: string): map<string, AuthEntry> {
    if around.read.Some? && context in contexts && contexts[context] != "" && contexts[context] in cloud
    then cloud[contexts[context] := Resolve(around, contexts[context], cloud[contexts[context]])]
    else cloud
  }

  /** The effective tuple of a context, when its entry exists. */
  function ViewOf(around: Lookup, cloud: map<string, AuthEntry>, contexts: map<string, string>, context: string): Option<Tuple> {
    if context in contexts && contexts[context] != "" && contexts[context] in cloud
    then Some(Effective(around, contexts[context], cloud[contexts[context]]))
    else None
  }

  /** The entry the caller asks for: the incoming fields over what is there, unless
      what is there belongs to another layer. */
  function Desired(around: Lookup, cloud: map<string, AuthEntry>, ref: string, entry: AuthEntry, safety: Safety): AuthEntry {
    var name := if ref == "" then around.entryName(entry.apiUrl) else ref;
    if name !in cloud || (ref == "" && name in safety.foreign) then entry else MergeCloud(cloud[name], entry)
  }

  predicate SoleReference(contexts: map<string, string>, ref: string) {
    forall c, d :: c in contexts && d in contexts && contexts[c] == ref == contexts[d] ==> c == d
  }

  /** What ensuring an entry guarantees about the entries and the chosen name. */
  ghost predicate Ensured(
    around: Lookup, source: string, contexts: map<string, string>,
    before: map<string, AuthEntry>, after: map<string, AuthEntry>,
    ref: string, entry: AuthEntry, safety: Safety, name: string)
  {
    var desired := Desired(around, before, ref, entry, safety);
    var reused := name in before && Same(around, name, before[name], desired);
    // the result holds the desired tuple and nothing else moved
    && (after == before[name := Stored(source, desired)] || (after == before && reused))
    // an entry with another tuple is only overwritten in place, unshared
    && (name in before && !reused ==> name == ref && !safety.shared && SoleReference(contexts, ref))
    // an entry only the target binds is updated in place, a missing one is created
    && (ref != "" && (ref !in before || (!safety.shared && SoleReference(contexts, ref))) ==> name == ref)
    && (ref != "" || around.entryName(entry.apiUrl) != "" ==> name != "")
    // names of other layers are not taken
    && (name in safety.reserved && (ref == "" || (safety.shared && name != ref)) ==> reused)
    && (ref == "" && name in safety.foreign && name == around.entryName(entry.apiUrl) ==> false)
    // an entry that already matches is kept under its name
    && (ref != "" && ref in before && Same(around, ref, before[ref], desired) ==> name == ref && after == before)
  }

  /** Isolation: no other context with an entry sees a different credential or
      destination. */
  lemma EnsuredIsIsolated(
    around: Lookup, source: string, contexts: map<string, string>, context: string,
    before: map<string, AuthEntry>, after: map<string, AuthEntry>,
    ref: string, entry: AuthEntry, safety: Safety, name: string, other: string)
    requires Ensured(around, source, contexts, Prepared(around, before, contexts, context), after, ref, entry, safety, name)
    requires context in contexts && contexts[context] == ref && other != context
    requires other in contexts && contexts[other] != "" && contexts[other] in before
    ensures ViewOf(around, after, contexts, other) == ViewOf(around, before, contexts, other)
    ensures contexts[other] in after && ViewOf(around, after, contexts, other).Some?
            && Effective(around, contexts[other], after[contexts[other]]) == Effective(around, contexts[other], before[contexts[other]])
  {
    var prepared := Prepared(around, before, contexts, context);
    var its := contexts[other];
    assert its == ref ==> contexts[other] == ref == contexts[context];
    ResolveTwice(around, its, before[its]);
    assert ViewOf(around, prepared, contexts, other) == ViewOf(around, before, contexts, other);
    var desired := Desired(around, prepared, ref, entry, safety);
    if its == name && after != prepared {
      if Same(around, name, prepared[name], desired) {
        SameIsInvisible(around, source, name, prepared[name], desired);
      } else {
        assert false;
      }
    }
  }

  /** What a request asks of an entry, given the one that was there: a URL or a credential
      that comes in wins, one kind of credential drives out the other, and what does not
      come in stays. */
  ghost predicate Updated(x: AuthEntry, prior: Option<AuthEntry>, entry: AuthEntry) {
    var former := if prior.Some? then prior.value else AuthEntry("", Empty, Empty, "", [], "", "");
    && x.apiUrl == (if entry.apiUrl != "" then entry.apiUrl else former.apiUrl)
    && x.oauthUrl == (if entry.oauthUrl != "" then entry.oauthUrl else former.oauthUrl)
    && (if prior.None? then
          x.token == entry.token && x.oauthToken == entry.oauthToken && x.oauthExpiresAt == entry.oauthExpiresAt && SameScopes(x.scopes, entry.scopes)
        else if !entry.oauthToken.Empty? then
          x.token.Empty? && x.oauthToken == entry.oauthToken && x.oauthExpiresAt == entry.oauthExpiresAt && SameScopes(x.scopes, entry.scopes)
        else if !entry.token.Empty? then
          x.token == entry.token && x.oauthToken.Empty? && x.oauthExpiresAt == "" && x.scopes == []
        else
          x.token == former.token && x.oauthToken == former.oauthToken && x.oauthExpiresAt == former.oauthExpiresAt && SameScopes(x.scopes, former.scopes))
  }

  ghost predicate SameScopes(a: seq<string>, b: seq<string>) {
    forall scope :: scope in a <==> scope in b
  }

  /** The entry a request starts from: the one the context binds, or its host's, unless
      that is another layer's. */
  ghost function PriorEntry(around: Lookup, before: map<string, AuthEntry>, ref: string, entry: AuthEntry, safety: Safety): Option<AuthEntry> {
    if ref != "" then if ref in before then Some(before[ref]) else None
    else
      var host := around.entryName(entry.apiUrl);
      if host in before && host !in safety.foreign then Some(before[host]) else None
  }

  lemma MergeUpdates(around: Lookup, before: map<string, AuthEntry>, ref: string, entry: AuthEntry, safety: Safety)
    ensures Updated(Desired(around, before, ref, entry, safety), PriorEntry(around, before, ref, entry, safety), entry)
  {
    CanonicalIsSorted(entry.scopes);
    hide Canonical;
  }

  lemma UpdatedAlike(x: AuthEntry, y: AuthEntry, prior: Option<AuthEntry>, entry: AuthEntry)
    requires Updated(x, prior, entry)
    requires x.token == y.token && x.oauthToken == y.oauthToken && x.oauthExpiresAt == y.oauthExpiresAt
    requires x.oauthUrl == y.oauthUrl && x.apiUrl == y.apiUrl && SameScopes(x.scopes, y.scopes)
    ensures Updated(y, prior, entry)
  {
    assert x.scopes == [] ==> forall scope :: scope !in y.scopes;
    if x.scopes == [] && y.scopes != [] {
      assert y.scopes[0] in y.scopes;
    }
  }

  /** The name handed back holds what was asked for, as stored or as the keychain
      resolves it; a changed entry belongs to this file. */
  lemma EnsuredHolds(
    around: Lookup, source: string, contexts: map<string, string>,
    before: map<string, AuthEntry>, after: map<string, AuthEntry>,
    ref: string, entry: AuthEntry, safety: Safety, name: string)
    requires Ensured(around, source, contexts, before, after, ref, entry, safety, name)
    ensures name in after
    ensures var prior := PriorEntry(around, before, ref, entry, safety);
            || (Updated(after[name], prior, entry) && after[name].source == source)
            || (after == before && Updated(Resolve(around, name, after[name]), prior, entry))
    ensures forall n :: n in before && n != name ==> n in after && after[n] == before[n]
    ensures forall n :: n in after && n != name ==> n in before
  {
    var desired := Desired(around, before, ref, entry, safety);
    MergeUpdates(around, before, ref, entry, safety);
    CanonicalIsSorted(desired.scopes);
    hide Canonical, ResolveText, Acceptable, Desired, PriorEntry, Updated;
    if after == before[name := Stored(source, desired)] {
      UpdatedAlike(desired, Stored(source, desired), PriorEntry(around, before, ref, entry, safety), entry);
    } else {
      var seen := Resolve(around, name, before[name]);
      CanonicalComparesSets(seen.scopes, desired.scopes);
      UpdatedAlike(desired, seen, PriorEntry(around, before, ref, entry, safety), entry);
    }
  }

  /** A field of an entry as its context sees it: a reference yields a value only when it
      was made for this entry, this field and these URLs and its account is there. */
  lemma ResolvesOwnOnly(around: Lookup, name: string, entry: AuthEntry)
    ensures forall text, field, value ::
              var binding := Binding(Key(entry.source, "cloud:" + name, field), around.destination(entry.apiUrl, entry.oauthUrl));
              ResolveText(around, text, BindingOf(around, name, entry, field)) == value ==>
                if around.read.None? || text.Empty? || text.Plain? then value == text
                else if text.Bound? && binding.Valid() && text.account.binding == binding && around.read.value(text.account).Some?
                then value == around.read.value(text.account).value
                else value.Empty?
    ensures var seen := Resolve(around, name, entry);
            && seen.token == ResolveText(around, entry.token, BindingOf(around, name, entry, CloudToken))
            && seen.oauthToken == ResolveText(around, entry.oauthToken, BindingOf(around, name, entry, OAuthToken))
            && seen.apiUrl == entry.apiUrl && seen.oauthUrl == entry.oauthUrl
            && seen.oauthExpiresAt == entry.oauthExpiresAt && seen.scopes == entry.scopes && seen.source == entry.source
  {
  }

  /** Equal tuples mean the same credentials, the same scopes and the same URLs. */
  lemma SameTupleMeans(around: Lookup, name: string, x: AuthEntry, other: string, y: AuthEntry)
    ensures Effective(around, name, x) == Effective(around, other, y) <==>
              var a, b := Resolve(around, name, x), Resolve(around, other, y);
              && a.token == b.token && a.oauthToken == b.oauthToken && a.oauthExpiresAt == b.oauthExpiresAt
              && SameScopes(a.scopes, b.scopes) && a.oauthUrl == b.oauthUrl && a.apiUrl == b.apiUrl
  {
    CanonicalComparesSets(Resolve(around, name, x).scopes, Resolve(around, other, y).scopes);
    hide Canonical, ResolveText;
  }

  /** The name handed back holds an entry that absorbs the same request. */
  lemma EnsuredAbsorbs(
    around: Lookup, source: string, contexts: map<string, string>,
    before: map<string, AuthEntry>, after: map<string, AuthEntry>,
    ref: string, entry: AuthEntry, safety: Safety, name: string)
    requires Ensured(around, source, contexts, before, after, ref, entry, safety, name) && OneCredential(entry)
    ensures name in after && Absorbs(Resolve(around, name, after[name]), entry)
  {
    var desired := Desired(around, before, ref, entry, safety);
    MergeAbsorbs(entry, entry);
    var at := if ref == "" then around.entryName(entry.apiUrl) else ref;
    if at in before {
      MergeAbsorbs(before[at], entry);
    }
    assert Absorbs(desired, entry);
    if after[name] == Stored(source, desired) {
      CanonicalIsIdempotent(desired.scopes);
      AbsorbsByTuple(Stored(source, desired), desired, entry);
      ResolveKeepsAbsorption(around, name, after[name], entry);
    } else {
      AbsorbsByTuple(Resolve(around, name, after[name]), desired, entry);
    }
  }

  /** Repeating the request from the now bound context returns the same name and
      changes nothing but the context's own references, which it resolves. */
  lemma RepeatChangesNothing(
    around: Lookup, source: string, contexts: map<string, string>, context: string,
    before: map<string, AuthEntry>, after: map<string, AuthEntry>,
    ref: string, entry: AuthEntry, safety: Safety, name: string)
    requires context in contexts && contexts[context] == ref != "" && ref in before
    requires OneCredential(entry) && Absorbs(Resolve(around, ref, before[ref]), entry)
    requires Ensured(around, source, contexts, Prepared(around, before, contexts, context), after, ref, entry, safety, name)
    ensures name == ref && after == Prepared(around, before, contexts, context)
    ensures ViewOf(around, after, contexts, context) == ViewOf(around, before, contexts, context)
  {
    var prepared := Prepared(around, before, contexts, context);
    ResolveTwice(around, ref, before[ref]);
    assert Resolve(around, ref, prepared[ref]) == Resolve(around, ref, before[ref]);
    if around.read.None? {
      assert Resolve(around, ref, before[ref]) == before[ref];
    }
    assert Absorbs(prepared[ref], entry);
  }

  /** Ensuring the same one-credential entry twice, the second time from the context now
      bound to the first answer: the same name, and no context sees a difference. */
  lemma SecondCallChangesNothing(
    around: Lookup, source: string, contexts: map<string, string>, context: string,
    before: map<string, AuthEntry>, between: map<string, AuthEntry>, after: map<string, AuthEntry>,
    ref: string, entry: AuthEntry, safety: Safety, name: string, again: Safety, second: string)
    requires context in contexts && contexts[context] == ref && OneCredential(entry)
    requires ref != "" || around.entryName(entry.apiUrl) != ""
    requires Ensured(around, source, contexts, Prepared(around, before, contexts, context), between, ref, entry, safety, name)
    requires var bound := contexts[context := name];
             Ensured(around, source, bound, Prepared(around, between, bound, context), after, name, entry, again, second)
    ensures second == name
    ensures var bound := contexts[context := name];
            forall c :: ViewOf(around, after, bound, c) == ViewOf(around, between, bound, c)
  {
    var bound := contexts[context := name];
    EnsuredAbsorbs(around, source, contexts, Prepared(around, before, contexts, context), between, ref, entry, safety, name);
    RepeatChangesNothing(around, source, bound, context, between, after, name, entry, again, second);
    ResolveTwice(around, name, between[name]);
  }

  /** An unbound context is given a new entry that holds a reference of another name
      exactly when it brings no credential to a host whose entry is still unresolved. */
  lemma InheritsReference(
    around: Lookup, source: string, contexts: map<string, string>, before: map<string, AuthEntry>, after: map<string, AuthEntry>,
    entry: AuthEntry, safety: Safety, name: string)
    requires around.read.Some? && OneCredential(entry) && "" !in before && around.entryName(entry.apiUrl) != ""
    requires Ensured(around, source, contexts, before, after, "", entry, safety, name)
    ensures var base := around.entryName(entry.apiUrl);
            (after[name].token.IsSentinel() || after[name].oauthToken.IsSentinel()) && name != base && name !in before
            <==> base in before && base !in safety.foreign && (before[base].token.IsSentinel() || before[base].oauthToken.IsSentinel())
                 && entry.token.Empty? && entry.oauthToken.Empty?
  {
  }

  /** Such a run: only an OAuth URL is given, the host's entry is unresolved, and the
      new entry gets the reference that is bound to the old one's name. */
  lemma ReferenceIsInherited(around: Lookup, account: Account, after: map<string, AuthEntry>, name: string)
    requires around.read.Some? && around.entryName("") == "grafana-com" && account.binding.key.owner == "cloud:grafana-com"
    requires var entry := AuthEntry("", Empty, Empty, "", [], "https://login.example", "");
             var before := map["grafana-com" := AuthEntry("f", Bound(account), Empty, "", [], "", "")];
             Ensured(around, "f", map["c" := ""], before, after, "", entry, Safety(false, [], []), name)
    ensures name != "grafana-com" && name in after && after[name].token == Bound(account)
    ensures !after[name].token.Matches(BindingOf(around, name, after[name], CloudToken))
  {
    var entry := AuthEntry("", Empty, Empty, "", [], "https://login.example", "");
    var before := map["grafana-com" := AuthEntry("f", Bound(account), Empty, "", [], "", "")];
    InheritsReference(around, "f", map["c" := ""], before, after, entry, Safety(false, [], []), name);
    assert "cloud:" + name != "cloud:grafana-com" by {
      assert ("cloud:" + name)[6..] == name && "cloud:grafana-com"[6..] == "grafana-com";
    }
  }

  class Config {
    const around: Lookup
    const source: string
    var cloud: map<string, AuthEntry>
    /** Context name to the cloud entry it binds; "" when it binds none. */
    var contexts: map<string, string>
    var mutations: set<Key>

    constructor (around: Lookup, source: string, cloud: map<string, AuthEntry>, contexts: map<string, string>)
      ensures this.around == around && this.source == source && this.cloud == cloud && this.contexts == contexts
      ensures mutations == {}
    {
      this.around, this.source, this.cloud, this.contexts := around, source, cloud, contexts;
      mutations := {};
    }

    method ResolveContext(context: string)
      modifies this`cloud
      ensures cloud == Prepared(around, old(cloud), contexts, context)
    {
      if around.read.Some? && context in contexts && contexts[context] != "" && contexts[context] in cloud {
        var ref := contexts[context];
        cloud := cloud[ref := Resolve(around, ref, cloud[ref])];
      }
    }

    function CredentialKeys(name: string): set<Key> {
      {Key(source, "cloud:" + name, CloudToken), Key(source, "cloud:" + name, OAuthToken)}
    }

    method SetCloudAuthEntry(name: string, entry: AuthEntry)
      modifies this`cloud, this`mutations
      ensures cloud == old(cloud)[name := Stored(source, entry)]
      ensures mutations == old(mutations) + CredentialKeys(name)
    {
      cloud := cloud[name := Stored(source, entry)];
      mutations := mutations + CredentialKeys(name);
    }

    method CloudEntryRefCount(name: string) returns (count: nat)
      ensures count == |set c | c in contexts && contexts[c] == name|
    {
      count := 0;
      var remaining := contexts.Keys;
      ghost var counted: set<string> := {};
      while remaining != {}
        invariant remaining <= contexts.Keys
        invariant counted == set c | c in contexts && c !in remaining && contexts[c] == name
        invariant count == |counted|
      {
        var c :| c in remaining;
        remaining := remaining - {c};
        if contexts[c] == name {
          count := count + 1;
          counted := counted + {c};
        }
      }
      assert counted == set c | c in contexts && contexts[c] == name;
    }

    /** The unbounded search of the source, for both of its callers: one passes the
        reserved names, the other none. */
    method AvailableCloudEntryName(base: string, desired: AuthEntry, reserved: seq<string>) returns (name: string)
      ensures FirstAcceptable(around, cloud, reserved, desired, base, name)
    {
      var i := 1;
      while true
        invariant i >= 1
        invariant forall m :: 1 <= m < i ==> !Acceptable(around, cloud, reserved, desired, Candidate(base, m))
        decreases |cloud| + |reserved| + 1 - i
      {
        TriesAreBounded(cloud, reserved, base, i - 1);
        name := Candidate(base, i);
        if name !in reserved && (name !in cloud || Same(around, name, cloud[name], desired)) {
          return;
        }
        i := i + 1;
        TriesAreBounded(cloud, reserved, base, i - 1);
      }
    }

    method EnsureUnboundCloudEntry(entry: AuthEntry, context: string, safety: Safety) returns (name: string)
      modifies this`cloud, this`mutations
      ensures Ensured(around, source, contexts, old(cloud), cloud, "", entry, safety, name)
      ensures (mutations == old(mutations) && cloud == old(cloud)) || mutations == old(mutations) + CredentialKeys(name)
    {
      hide Effective, MergeCloud;
      var base := around.entryName(entry.apiUrl);
      if base in safety.foreign {
        name := AvailableCloudEntryName(base + "-" + context, entry, safety.reserved);
        SetCloudAuthEntry(name, entry);
      } else if base in cloud {
        var desired := MergeCloud(cloud[base], entry);
        if Same(around, base, cloud[base], desired) {
          name := base;
          return;
        }
        name := AvailableCloudEntryName(base + "-" + context, desired, safety.reserved);
        if name !in cloud {
          SetCloudAuthEntry(name, desired);
        }
      } else if base in safety.reserved {
        name := AvailableCloudEntryName(base + "-" + context, entry, safety.reserved);
        SetCloudAuthEntry(name, entry);
      } else {
        name := base;
        SetCloudAuthEntry(name, entry);
      }
    }

    method EnsureBoundCloudEntry(ref: string, entry: AuthEntry, context: string, safety: Safety) returns (name: string)
      requires ref != ""
      modifies this`cloud, this`mutations
      ensures Ensured(around, source, contexts, old(cloud), cloud, ref, entry, safety, name)
      ensures (mutations == old(mutations) && cloud == old(cloud)) || mutations == old(mutations) + CredentialKeys(name)
    {
      hide Effective, MergeCloud;
      name := ref;
      if ref !in cloud {
        SetCloudAuthEntry(ref, entry);
        return;
      }
      var desired := MergeCloud(cloud[ref], entry);
      if Same(around, ref, cloud[ref], desired) {
        return;
      }
      if safety.shared {
        name := AvailableCloudEntryName(ref + "-" + context, desired, safety.reserved);
        SetCloudAuthEntry(name, desired);
        return;
      }
      var references := CloudEntryRefCount(ref);
      CountDecides(contexts, ref);
      if references <= 1 {
        SetCloudAuthEntry(ref, desired);
        return;
      }
      name := AvailableCloudEntryName(ref + "-" + context, desired, []);
      if name !in cloud {
        SetCloudAuthEntry(name, desired);
      }
    }

    /** Returns the name the context should bind; the other contexts keep their
        credentials and destinations, and the same request is absorbed next time. */
    method EnsureCloudEntryWithSafety(ref: string, entry: AuthEntry, context: string, safety: Safety) returns (name: string)
      modifies this`cloud, this`mutations
      ensures Ensured(around, source, contexts, Prepared(around, old(cloud), contexts, context), cloud, ref, entry, safety, name)
      ensures (mutations == old(mutations) && cloud == Prepared(around, old(cloud), contexts, context))
              || mutations == old(mutations) + CredentialKeys(name)
    {
      ResolveContext(context);
      if ref == "" {
        name := EnsureUnboundCloudEntry(entry, context, safety);
      } else {
        name := EnsureBoundCloudEntry(ref, entry, context, safety);
      }
    }
  }

  lemma CountDecides(contexts: map<string, string>, ref: string)
    ensures |set c | c in contexts && contexts[c] == ref| <= 1 <==> SoleReference(contexts, ref)
  {
    var names := set c | c in contexts && contexts[c] == ref;
    forall c, d | |names| <= 1 && c in contexts && d in contexts && contexts[c] == ref == contexts[d] ensures c == d {
      if c != d {
        SubsetCount({c, d}, names);
      }
    }
    if |names| > 1 {
      var c :| c in names;
      assert |names - {c}| > 0;
      var d :| d in names - {c};
      assert contexts[c] == ref == contexts[d] && c != d;
    }
  }
}
