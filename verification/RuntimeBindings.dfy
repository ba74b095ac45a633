/** Binding enforcement after all overrides (internal/config/keychain.go): a secret
    loaded for one destination is not presented to another. */
module RuntimeBindings {
  import opened Credentials
  import opened Wrappers

  /** A loaded secret and the binding it was loaded for. */
  datatype LoadedSecret = LoadedSecret(binding: Binding, value: string)

  datatype Observed = Observed(backed: bool, origin: LoadedSecret)

  /** A stack or cloud entry as the enforcement sees it. Contexts may share one. */
  class SecretOwner {
    const source: string
    const owner: string
    const layer: string
    const fields: seq<Field>
    const destination: Field -> string
    /** The entry names client certificate or key files. */
    const externalTls: bool
    /** The fields whose parent block exists, with their values. */
    var secrets: map<Field, string>
    var rejected: set<Field>

    constructor (source: string, owner: string, layer: string, fields: seq<Field>, destination: Field -> string, externalTls: bool, secrets: map<Field, string>, rejected: set<Field>)
      ensures this.source == source && this.owner == owner && this.layer == layer && this.fields == fields
      ensures this.destination == destination && this.externalTls == externalTls && this.secrets == secrets && this.rejected == rejected
    {
      this.source, this.owner, this.layer, this.fields := source, owner, layer, fields;
      this.destination, this.externalTls, this.secrets, this.rejected := destination, externalTls, secrets, rejected;
    }

    function KeyOf(field: Field): Key {
      Key(source, owner, field)
    }

    function BindingFor(field: Field): Binding {
      Binding(KeyOf(field), destination(field))
    }
  }

  datatype Selection = Selection(owners: seq<SecretOwner>, overrides: set<Field>)

  /** Why a field was decided, and in which context. */
  datatype Decision = Decision(owner: SecretOwner, overrides: set<Field>)

  /** The mutable part of every owner, as values. */
  datatype Cells = Cells(secrets: map<Field, string>, rejected: set<Field>)

  type Memory = map<SecretOwner, Cells>

  function Now(owners: set<SecretOwner>): Memory
    reads owners
  {
    map o | o in owners :: Cells(o.secrets, o.rejected)
  }

  type Decisions = map<Key, Decision>

  /** What loading recorded. */
  datatype Loaded = Loaded(states: map<Key, Observed>, origins: map<Key, LoadedSecret>) {
    function OriginOf(key: Key): Option<LoadedSecret> {
      if key in states && states[key].backed then Some(states[key].origin)
      else if key in origins then Some(origins[key])
      else None
    }

    /** The secret may still go where it was loaded to go. */
    predicate AtHome(o: SecretOwner, field: Field) {
      var origin := OriginOf(o.KeyOf(field));
      origin.None? || !origin.value.binding.Valid() || origin.value.binding == o.BindingFor(field)
    }

    predicate Explicit(o: SecretOwner, field: Field, overrides: set<Field>, value: string) {
      var origin := OriginOf(o.KeyOf(field));
      field in overrides || (value != "" && (origin.Some? ==> value != origin.value.value))
    }

    /** A repository-local entry does not take credentials from the environment. */
    predicate Keeps(o: SecretOwner, field: Field, overrides: set<Field>, value: string) {
      !LocalOverride(o, field, overrides) && Explicit(o, field, overrides, value)
    }

    /** A decided field is withheld, or kept because it was supplied explicitly. */
    predicate Outcome(o: SecretOwner, field: Field, overrides: set<Field>, before: Cells, after: Cells) {
      && field in before.secrets && field in after.secrets
      && if Keeps(o, field, overrides, before.secrets[field])
         then after.secrets[field] == before.secrets[field] && field !in after.rejected
         else after.secrets[field] == "" && field in after.rejected
    }

    lemma VisitOutcome(o: SecretOwner, field: Field, overrides: set<Field>, c: Cells)
      requires field in c.secrets
      ensures SameElsewhere(c, WithheldCells(c, field), field) && SameElsewhere(c, ClearedCells(c, field), field)
      ensures Outcome(o, field, overrides, c, if Keeps(o, field, overrides, c.secrets[field]) then ClearedCells(c, field) else WithheldCells(c, field))
    {
    }

    ghost predicate DecisionsHold(initial: Memory, now: Memory, decided: Decisions) {
      forall k :: k in decided ==>
        var d := decided[k];
        && d.owner in initial && d.owner in now && d.owner.KeyOf(k.field) == k
        && Outcome(d.owner, k.field, d.overrides, initial[d.owner], now[d.owner])
    }

    ghost predicate Inv(initial: Memory, now: Memory, decided: Decisions) {
      && now.Keys == initial.Keys && DecisionsHold(initial, now, decided)
      && (forall o :: o in now ==> now[o].secrets.Keys == initial[o].secrets.Keys)
      && (forall o, f :: o in now && f in now[o].secrets && !Decides(decided, o, f) ==> now[o].secrets[f] == initial[o].secrets[f])
    }

    lemma OutcomeFromNow(initial: Memory, now: Memory, decided: Decisions, o: SecretOwner, field: Field, overrides: set<Field>, after: Cells)
      requires Inv(initial, now, decided) && o in now && field in now[o].secrets && o.KeyOf(field) !in decided
      requires Outcome(o, field, overrides, now[o], after)
      ensures Outcome(o, field, overrides, initial[o], after)
    {
      assert !Decides(decided, o, field);
    }

    lemma OutcomeElsewhere(o: SecretOwner, field: Field, other: Field, overrides: set<Field>, before: Cells, now: Cells, after: Cells)
      requires Outcome(o, other, overrides, before, now) && SameElsewhere(now, after, field) && other != field
      ensures Outcome(o, other, overrides, before, after)
    {
      assert other in now.rejected <==> other in now.rejected - {field};
      assert other in after.rejected <==> other in after.rejected - {field};
    }

    lemma DecisionsName(initial: Memory, now: Memory, decided: Decisions)
      requires Inv(initial, now, decided)
      ensures forall k :: k in decided ==> decided[k].owner.KeyOf(k.field) == k
    {
    }

    lemma DecisionHolds(initial: Memory, now: Memory, decided: Decisions, k: Key)
      requires Inv(initial, now, decided) && k in decided
      ensures OutcomeAt(initial, now, decided, k)
    {
    }

    lemma SameFields(initial: Memory, now: Memory, decided: Decisions, o: SecretOwner)
      requires Inv(initial, now, decided) && o in now
      ensures o in initial && now[o].secrets.Keys == initial[o].secrets.Keys
    {
    }

    /** Earlier decisions stand: they concern another field or another owner. */
    lemma EarlierStands(initial: Memory, now: Memory, decided: Decisions, o: SecretOwner, field: Field, after: Cells, more: Decisions, k: Key)
      requires OutcomeAt(initial, now, decided, k) && o in now && SameElsewhere(now[o], after, field)
      requires k != o.KeyOf(field) && k in more && more[k] == decided[k]
      ensures OutcomeAt(initial, now[o := after], more, k)
    {
      hide Outcome;
      if decided[k].owner == o {
        OutcomeElsewhere(o, field, k.field, decided[k].overrides, initial[o], now[o], after);
      }
    }

    lemma OthersUnchanged(initial: Memory, now: Memory, decided: Decisions, o: SecretOwner, field: Field, d: Decision, after: Cells)
      requires o in now && now.Keys == initial.Keys && d.owner == o && o.KeyOf(field) !in decided && SameElsewhere(now[o], after, field)
      requires forall p, f :: p in now && f in now[p].secrets && !Decides(decided, p, f) ==> f in initial[p].secrets && now[p].secrets[f] == initial[p].secrets[f]
      ensures forall p, f :: p in now && f in now[o := after][p].secrets && !Decides(decided[o.KeyOf(field) := d], p, f) ==>
                f in initial[p].secrets && now[o := after][p].secrets[f] == initial[p].secrets[f]
    {
      forall p, f | p in now && f in now[o := after][p].secrets && !Decides(decided[o.KeyOf(field) := d], p, f)
        ensures f in initial[p].secrets && now[o := after][p].secrets[f] == initial[p].secrets[f]
      {
        assert !Decides(decided, p, f);
      }
    }

    lemma DecidingKeepsInv(initial: Memory, now: Memory, decided: Decisions, o: SecretOwner, field: Field, overrides: set<Field>, after: Cells)
      requires Inv(initial, now, decided) && o in now && field in now[o].secrets && o.KeyOf(field) !in decided
      requires SameElsewhere(now[o], after, field) && Outcome(o, field, overrides, now[o], after)
      ensures Inv(initial, now[o := after], decided[o.KeyOf(field) := Decision(o, overrides)])
    {
      hide Outcome;
      OutcomeFromNow(initial, now, decided, o, field, overrides, after);
      var key := o.KeyOf(field);
      var later, more := now[o := after], decided[key := Decision(o, overrides)];
      forall k | k in more ensures OutcomeAt(initial, later, more, k) {
        if k != key {
          DecisionHolds(initial, now, decided, k);
          EarlierStands(initial, now, decided, o, field, after, more, k);
        }
      }
      OthersUnchanged(initial, now, decided, o, field, Decision(o, overrides), after);
      hide Decides;
    }

    predicate OutcomeAt(initial: Memory, now: Memory, decided: Decisions, k: Key) {
      && k in decided && decided[k].owner in initial && decided[k].owner in now && decided[k].owner.KeyOf(k.field) == k
      && Outcome(decided[k].owner, k.field, decided[k].overrides, initial[decided[k].owner], now[decided[k].owner])
    }

    lemma ClearingKeepsInv(initial: Memory, now: Memory, decided: Decisions, o: SecretOwner, field: Field)
      requires Inv(initial, now, decided) && o in now && o.KeyOf(field) !in decided
      ensures Inv(initial, now[o := ClearedCells(now[o], field)], decided)
    {
      hide Keeps;
    }
  }

  predicate LocalOverride(o: SecretOwner, field: Field, overrides: set<Field>) {
    o.layer == "local" && field in overrides
  }

  predicate Decides(decided: Decisions, o: SecretOwner, field: Field) {
    o.KeyOf(field) in decided && decided[o.KeyOf(field)].owner == o
  }

  predicate SameElsewhere(before: Cells, after: Cells, field: Field) {
    && after.secrets.Keys == before.secrets.Keys
    && (forall f :: f in before.secrets && f != field ==> after.secrets[f] == before.secrets[f])
    && after.rejected - {field} == before.rejected - {field}
  }

  /** Enforcement has to decide the field: its destination changed, or a repository-
      local entry met a credential from the environment. */
  predicate Needs(loaded: Loaded, initial: Memory, o: SecretOwner, field: Field, overrides: set<Field>) {
    o in initial && field in initial[o].secrets && (LocalOverride(o, field, overrides) || !loaded.AtHome(o, field))
  }

  /** The secret was loaded from the keychain, or else from the file, for another
      destination than the one it would go to now. */
  predicate Diverted(loaded: Loaded, o: SecretOwner, field: Field) {
    var key, now := Key(o.source, o.owner, field), Binding(Key(o.source, o.owner, field), o.destination(field));
    if key in loaded.states && loaded.states[key].backed then ForAnother(loaded.states[key].origin.binding, now)
    else key in loaded.origins && ForAnother(loaded.origins[key].binding, now)
  }

  predicate ForAnother(binding: Binding, now: Binding) {
    binding.key.source != "" && binding.key.owner != "" && binding.destination != "" && (binding.key != now.key || binding.destination != now.destination)
  }

  /** The value is the one that was loaded, or none. */
  predicate AsLoaded(loaded: Loaded, o: SecretOwner, field: Field, value: string) {
    var key := Key(o.source, o.owner, field);
    || value == ""
    || (if key in loaded.states && loaded.states[key].backed then value == loaded.states[key].origin.value
        else key in loaded.origins && value == loaded.origins[key].value)
  }

  /** What a decision comes to: a diverted secret is withheld unless the process supplied
      it, as an override or as another value; an override never counts for a
      repository-local entry. */
  predicate Decided(loaded: Loaded, o: SecretOwner, field: Field, overrides: set<Field>, before: Cells, after: Cells) {
    && field in before.secrets && field in after.secrets
    && ((o.layer == "local" && field in overrides) || (field !in overrides && AsLoaded(loaded, o, field, before.secrets[field])) ==>
          after.secrets[field] == "" && field in after.rejected)
    && (!(o.layer == "local" && field in overrides) && (field in overrides || !AsLoaded(loaded, o, field, before.secrets[field])) ==>
          after.secrets[field] == before.secrets[field] && field !in after.rejected)
  }

  lemma NeededExactly(loaded: Loaded, initial: Memory, o: SecretOwner, field: Field, overrides: set<Field>)
    ensures Needs(loaded, initial, o, field, overrides) <==>
              o in initial && field in initial[o].secrets && ((o.layer == "local" && field in overrides) || Diverted(loaded, o, field))
  {
  }

  lemma OutcomeExactly(loaded: Loaded, o: SecretOwner, field: Field, overrides: set<Field>, before: Cells, after: Cells)
    ensures loaded.Outcome(o, field, overrides, before, after) <==> Decided(loaded, o, field, overrides, before, after)
  {
  }

  lemma NotNeeded(loaded: Loaded, initial: Memory, o: SecretOwner, field: Field, overrides: set<Field>)
    ensures o in initial && field !in initial[o].secrets ==> !Needs(loaded, initial, o, field, overrides)
    ensures !LocalOverride(o, field, overrides) && loaded.AtHome(o, field) ==> !Needs(loaded, initial, o, field, overrides)
    ensures o in initial && field in initial[o].secrets && (LocalOverride(o, field, overrides) || !loaded.AtHome(o, field)) ==>
              Needs(loaded, initial, o, field, overrides)
  {
  }

  predicate SettledOwner(loaded: Loaded, initial: Memory, decided: Decisions, o: SecretOwner, overrides: set<Field>) {
    forall f :: f in o.fields ==> (Needs(loaded, initial, o, f, overrides) ==> o.KeyOf(f) in decided)
  }

  predicate Settled(loaded: Loaded, initial: Memory, decided: Decisions, ctx: Selection) {
    forall o :: o in ctx.owners ==> SettledOwner(loaded, initial, decided, o, ctx.overrides)
  }

  /** Decisions are only added, each by an owner of the visited context. */
  predicate AddedBy(before: Decisions, after: Decisions, ctx: Selection) {
    && (forall k :: k in before ==> k in after && after[k] == before[k])
    && (forall k :: k in after && k !in before ==> after[k].owner in ctx.owners && after[k].overrides == ctx.overrides)
  }

  predicate Grows(before: Decisions, after: Decisions) {
    forall k :: k in before ==> k in after && after[k] == before[k]
  }

  /** A context holds one stack and one cloud entry at most. */
  predicate OneOwnerPerName(ctx: Selection) {
    forall o, p :: o in ctx.owners && p in ctx.owners && o.source == p.source && o.owner == p.owner ==> o == p
  }

  /** Only decided fields are newly withheld. */
  predicate RejectsDecided(before: Memory, now: Memory, decided: Decisions) {
    && now.Keys == before.Keys
    && forall o, f :: o in now && f in now[o].rejected && f !in before[o].rejected ==> o.KeyOf(f) in decided
  }

  /** A supplied credential that needs no decision is not withheld. */
  predicate Freed(now: Memory, decided: Decisions, o: SecretOwner, field: Field, overrides: set<Field>) {
    field in overrides && o in now && field in now[o].secrets && o.KeyOf(field) !in decided ==> field !in now[o].rejected
  }

  predicate FreedOwner(now: Memory, decided: Decisions, o: SecretOwner, overrides: set<Field>) {
    forall f :: f in o.fields ==> Freed(now, decided, o, f, overrides)
  }

  predicate SameSecretKeys(before: Memory, now: Memory) {
    before.Keys == now.Keys && forall o :: o in now ==> now[o].secrets.Keys == before[o].secrets.Keys
  }

  lemma StaysFreed(before: Memory, was: Decisions, now: Memory, decided: Decisions, o: SecretOwner, overrides: set<Field>)
    requires RejectsDecided(before, now, decided) && SameSecretKeys(before, now) && Grows(was, decided)
    ensures forall f :: Freed(before, was, o, f, overrides) ==> Freed(now, decided, o, f, overrides)
    ensures FreedOwner(before, was, o, overrides) ==> FreedOwner(now, decided, o, overrides)
  {
  }

  lemma NothingRejected(now: Memory, decided: Decisions)
    ensures RejectsDecided(now, now, decided) && SameSecretKeys(now, now)
  {
  }

  lemma FreedAlready(now: Memory, decided: Decisions, o: SecretOwner, field: Field, overrides: set<Field>)
    requires (o in now && field !in now[o].secrets) || o.KeyOf(field) in decided
    ensures Freed(now, decided, o, field, overrides)
  {
  }

  lemma KeysJoin(first: Memory, middle: Memory, last: Memory)
    requires SameSecretKeys(first, middle) && SameSecretKeys(middle, last)
    ensures SameSecretKeys(first, last)
  {
  }

  lemma RejectsJoin(first: Memory, middle: Memory, last: Memory, was: Decisions, decided: Decisions)
    requires RejectsDecided(first, middle, was) && RejectsDecided(middle, last, decided) && Grows(was, decided)
    ensures RejectsDecided(first, last, decided)
  {
  }

  lemma VisitRejects(before: Memory, was: Decisions, o: SecretOwner, field: Field, overrides: set<Field>, after: Cells, decided: Decisions)
    requires o in before && field in before[o].secrets && Grows(was, decided)
    requires after == WithheldCells(before[o], field) || after == ClearedCells(before[o], field) || after == before[o]
    requires o.KeyOf(field) !in decided ==> after != WithheldCells(before[o], field) || field in before[o].rejected
    requires o.KeyOf(field) !in decided && field in overrides ==> after == ClearedCells(before[o], field)
    ensures RejectsDecided(before, before[o := after], decided) && SameSecretKeys(before, before[o := after])
    ensures Freed(before[o := after], decided, o, field, overrides)
  {
  }

  /** Nothing is decided without need. */
  predicate DueOnly(loaded: Loaded, initial: Memory, decided: Decisions) {
    forall k :: k in decided ==> Needs(loaded, initial, decided[k].owner, k.field, decided[k].overrides)
  }

  lemma FirstContextDecides(loaded: Loaded, initial: Memory, decided: Decisions, ctx: Selection)
    requires OneOwnerPerName(ctx) && AddedBy(map[], decided, ctx) && Settled(loaded, initial, decided, ctx)
    requires forall k :: k in decided ==> decided[k].owner.KeyOf(k.field) == k
    ensures forall o, f :: o in ctx.owners && f in o.fields && Needs(loaded, initial, o, f, ctx.overrides) ==>
              o.KeyOf(f) in decided && decided[o.KeyOf(f)] == Decision(o, ctx.overrides)
  {
    hide Needs;
    forall o, f | o in ctx.owners && f in o.fields && Needs(loaded, initial, o, f, ctx.overrides)
      ensures o.KeyOf(f) in decided && decided[o.KeyOf(f)] == Decision(o, ctx.overrides)
    {
      assert SettledOwner(loaded, initial, decided, o, ctx.overrides);
    }
  }

  /** A repository-local entry may not choose client certificate files. */
  predicate SelectsOwnCertificates(o: SecretOwner) {
    o.layer == "local" && o.externalTls
  }

  method ValidateLocalExternalTls(owners: set<SecretOwner>) returns (ok: bool)
    ensures ok <==> forall o :: o in owners ==> !SelectsOwnCertificates(o)
  {
    var remaining := owners;
    while remaining != {}
      invariant remaining <= owners && forall o :: o in owners && o !in remaining ==> !SelectsOwnCertificates(o)
    {
      var o :| o in remaining;
      remaining := remaining - {o};
      if SelectsOwnCertificates(o) {
        return false;
      }
    }
    ok := true;
  }

  /** Enforcement over the selected context and then all others. Each field of the
      selected context whose destination changed is withheld or was supplied
      explicitly; every other change of a secret was decided the same way for an owner
      of its key. */
  method EnforceRuntimeCredentialBindings(loaded: Loaded, contexts: seq<Selection>, owners: set<SecretOwner>) returns (ok: bool, ghost decided: Decisions)
    requires contexts != [] && OneOwnerPerName(contexts[0])
    requires forall i, o :: 0 <= i < |contexts| && o in contexts[i].owners ==> o in owners
    modifies owners
    ensures ok <==> forall o :: o in owners ==> !(o.layer == "local" && o.externalTls)
    ensures !ok ==> Now(owners) == old(Now(owners))
    ensures ok ==> loaded.Inv(old(Now(owners)), Now(owners), decided)
    ensures ok ==> forall i :: 0 <= i < |contexts| ==> Settled(loaded, old(Now(owners)), decided, contexts[i])
    ensures ok ==> forall o, f :: o in contexts[0].owners && f in o.fields && f in old(o.secrets)
                                  && ((o.layer == "local" && f in contexts[0].overrides) || Diverted(loaded, o, f)) ==>
              Decided(loaded, o, f, contexts[0].overrides, old(Now(owners))[o], Now(owners)[o])
    ensures ok ==> forall k :: k in decided ==>
              var o, overrides := decided[k].owner, decided[k].overrides;
              && k == Key(o.source, o.owner, k.field) && ((o.layer == "local" && k.field in overrides) || Diverted(loaded, o, k.field))
              && o in owners && Decided(loaded, o, k.field, overrides, old(Now(owners))[o], Now(owners)[o])
    ensures ok ==> forall o, f :: o in owners && f in o.secrets && !Decides(decided, o, f) ==>
              f in old(Now(owners))[o].secrets && o.secrets[f] == old(Now(owners))[o].secrets[f]
    ensures ok ==> forall o, f :: o in owners && f in o.rejected && f !in old(Now(owners))[o].rejected ==> Key(o.source, o.owner, f) in decided
    ensures ok ==> forall o, f | o in contexts[0].owners && f in o.fields && f in contexts[0].overrides && f in o.secrets ::
              Key(o.source, o.owner, f) in decided || f !in o.rejected
  {
    hide Loaded.Inv, Settled, Needs, DueOnly, Diverted, Decided, Loaded.Outcome, RejectsDecided, SameSecretKeys, Freed;
    decided := map[];
    ok := ValidateLocalExternalTls(owners);
    if !ok {
      return;
    }
    var enforcement := new Enforcement(loaded, owners);
    enforcement.VisitContext(contexts[0]);
    ghost var first := enforcement.decided;
    loaded.DecisionsName(enforcement.initial, Now(owners), first);
    FirstContextDecides(loaded, enforcement.initial, first, contexts[0]);
    for i := 1 to |contexts|
      invariant enforcement.Valid() && Grows(first, enforcement.decided)
      invariant RejectsDecided(enforcement.initial, Now(owners), enforcement.decided)
      invariant forall o :: o in contexts[0].owners ==> FreedOwner(Now(owners), enforcement.decided, o, contexts[0].overrides)
      invariant forall n :: 0 <= n < i ==> Settled(loaded, enforcement.initial, enforcement.decided, contexts[n])
    {
      ghost var before, memory := enforcement.decided, Now(owners);
      enforcement.VisitContext(contexts[i]);
      RejectsJoin(enforcement.initial, memory, Now(owners), before, enforcement.decided);
      forall o ensures FreedOwner(memory, before, o, contexts[0].overrides) ==> FreedOwner(Now(owners), enforcement.decided, o, contexts[0].overrides) {
        StaysFreed(memory, before, Now(owners), enforcement.decided, o, contexts[0].overrides);
      }
      forall n | 0 <= n < i ensures Settled(loaded, enforcement.initial, enforcement.decided, contexts[n]) {
        SettledStays(loaded, enforcement.initial, before, enforcement.decided, contexts[n]);
      }
    }
    decided := enforcement.decided;
    forall o, f | o in contexts[0].owners && f in o.fields && f in enforcement.initial[o].secrets
                  && ((o.layer == "local" && f in contexts[0].overrides) || Diverted(loaded, o, f))
      ensures Decided(loaded, o, f, contexts[0].overrides, enforcement.initial[o], Now(owners)[o])
    {
      NeededExactly(loaded, enforcement.initial, o, f, contexts[0].overrides);
      DecisionInFull(loaded, enforcement.initial, Now(owners), decided, o.KeyOf(f));
    }
    forall k | k in decided
      ensures var o, overrides := decided[k].owner, decided[k].overrides;
              && k == Key(o.source, o.owner, k.field) && ((o.layer == "local" && k.field in overrides) || Diverted(loaded, o, k.field))
              && o in owners && Decided(loaded, o, k.field, overrides, enforcement.initial[o], Now(owners)[o])
    {
      DecisionInFull(loaded, enforcement.initial, Now(owners), decided, k);
    }
    OthersKept(loaded, enforcement.initial, Now(owners), decided);
    AllFreed(enforcement.initial, Now(owners), decided, contexts[0]);
  }

  lemma AllFreed(initial: Memory, now: Memory, decided: Decisions, ctx: Selection)
    requires RejectsDecided(initial, now, decided) && forall o :: o in ctx.owners ==> FreedOwner(now, decided, o, ctx.overrides)
    ensures forall o, f :: o in now && f in now[o].rejected && f !in initial[o].rejected ==> Key(o.source, o.owner, f) in decided
    ensures forall o, f | o in ctx.owners && f in o.fields && f in ctx.overrides && o in now && f in now[o].secrets ::
              Key(o.source, o.owner, f) in decided || f !in now[o].rejected
  {
    forall o, f | o in ctx.owners && f in o.fields ensures Freed(now, decided, o, f, ctx.overrides) {
      assert FreedOwner(now, decided, o, ctx.overrides);
    }
  }

  lemma DecisionInFull(loaded: Loaded, initial: Memory, now: Memory, decided: Decisions, k: Key)
    requires loaded.Inv(initial, now, decided) && DueOnly(loaded, initial, decided) && k in decided
    ensures var o, overrides := decided[k].owner, decided[k].overrides;
            && k == Key(o.source, o.owner, k.field) && ((o.layer == "local" && k.field in overrides) || Diverted(loaded, o, k.field))
            && o in initial && o in now && Decided(loaded, o, k.field, overrides, initial[o], now[o])
  {
    hide Loaded.Outcome, Needs;
    loaded.DecisionHolds(initial, now, decided, k);
    NeededExactly(loaded, initial, decided[k].owner, k.field, decided[k].overrides);
    OutcomeExactly(loaded, decided[k].owner, k.field, decided[k].overrides, initial[decided[k].owner], now[decided[k].owner]);
  }

  lemma OthersKept(loaded: Loaded, initial: Memory, now: Memory, decided: Decisions)
    requires loaded.Inv(initial, now, decided)
    ensures forall o, f :: o in now && f in now[o].secrets && !Decides(decided, o, f) ==>
              o in initial && f in initial[o].secrets && now[o].secrets[f] == initial[o].secrets[f]
  {
  }

  lemma SettledOwnerStays(loaded: Loaded, initial: Memory, before: Decisions, after: Decisions, o: SecretOwner, overrides: set<Field>)
    requires SettledOwner(loaded, initial, before, o, overrides) && Grows(before, after)
    ensures SettledOwner(loaded, initial, after, o, overrides)
  {
  }

  lemma SettledStays(loaded: Loaded, initial: Memory, before: Decisions, after: Decisions, ctx: Selection)
    requires Settled(loaded, initial, before, ctx) && Grows(before, after)
    ensures Settled(loaded, initial, after, ctx)
  {
    forall o | o in ctx.owners ensures SettledOwner(loaded, initial, after, o, ctx.overrides) {
      assert SettledOwner(loaded, initial, before, o, ctx.overrides);
    }
  }

  class Enforcement {
    const loaded: Loaded
    const owners: set<SecretOwner>
    ghost const initial: Memory
    var processed: set<Key>
    ghost var decided: Decisions

    constructor (loaded: Loaded, owners: set<SecretOwner>)
      ensures this.loaded == loaded && this.owners == owners
      ensures initial == Now(owners) && decided == map[] && Valid()
    {
      this.loaded, this.owners := loaded, owners;
      initial := Now(owners);
      processed, decided := {}, map[];
    }

    ghost predicate Valid()
      reads this, owners
    {
      processed == decided.Keys && loaded.Inv(initial, Now(owners), decided) && DueOnly(loaded, initial, decided)
    }

    /** One field of one owner in one context. */
    method Visit(o: SecretOwner, field: Field, overrides: set<Field>)
      requires Valid() && o in owners
      modifies this`processed, this`decided, o`secrets, o`rejected
      ensures Valid()
      ensures decided == old(decided)
              || (o.KeyOf(field) !in old(decided) && decided == old(decided)[o.KeyOf(field) := Decision(o, overrides)])
      ensures Needs(loaded, initial, o, field, overrides) ==> o.KeyOf(field) in decided
      ensures RejectsDecided(old(Now(owners)), Now(owners), decided) && SameSecretKeys(old(Now(owners)), Now(owners))
      ensures Freed(Now(owners), decided, o, field, overrides)
    {
      hide Loaded.Inv, Loaded.Outcome, Loaded.AtHome, Loaded.Keeps, Needs, SameElsewhere, LocalOverride, RejectsDecided, SameSecretKeys, Freed;
      NothingRejected(Now(owners), decided);
      loaded.SameFields(initial, Now(owners), decided, o);
      NotNeeded(loaded, initial, o, field, overrides);
      if field !in o.secrets || o.KeyOf(field) in processed {
        FreedAlready(Now(owners), decided, o, field, overrides);
        return;
      }
      ghost var before, cells := Now(owners), Cells(o.secrets, o.rejected);
      var decide := Judge(o, field, overrides);
      assert Now(owners) == before[o := Cells(o.secrets, o.rejected)];
      if !decide {
        VisitRejects(before, decided, o, field, overrides, Cells(o.secrets, o.rejected), decided);
        if field in overrides {
          loaded.ClearingKeepsInv(initial, before, decided, o, field);
        }
        return;
      }
      loaded.VisitOutcome(o, field, overrides, cells);
      loaded.DecidingKeepsInv(initial, before, decided, o, field, overrides, Cells(o.secrets, o.rejected));
      VisitRejects(before, decided, o, field, overrides, Cells(o.secrets, o.rejected), decided[o.KeyOf(field) := Decision(o, overrides)]);
      processed := processed + {o.KeyOf(field)};
      decided := decided[o.KeyOf(field) := Decision(o, overrides)];
    }

    /** The branches of the loop body for a field not yet processed. */
    method Judge(o: SecretOwner, field: Field, overrides: set<Field>) returns (decide: bool)
      requires field in o.secrets
      modifies o`secrets, o`rejected
      ensures decide <==> LocalOverride(o, field, overrides) || !loaded.AtHome(o, field)
      ensures Cells(o.secrets, o.rejected)
              == old(var c := Cells(o.secrets, o.rejected);
                     if LocalOverride(o, field, overrides) || !loaded.AtHome(o, field)
                     then if loaded.Keeps(o, field, overrides, c.secrets[field]) then ClearedCells(c, field) else WithheldCells(c, field)
                     else if field in overrides then ClearedCells(c, field) else c)
    {
      var origin := loaded.OriginOf(o.KeyOf(field));
      var current := o.secrets[field];
      decide := true;
      if o.layer == "local" && field in overrides {
        Withhold(o, field);
      } else if origin.None? || !origin.value.binding.Valid() || origin.value.binding == o.BindingFor(field) {
        if field in overrides {
          ClearReject(o, field);
        }
        decide := false;
      } else if field in overrides || (current != "" && current != origin.value.value) {
        ClearReject(o, field);
      } else {
        Withhold(o, field);
      }
    }

    /** Every field of one owner. */
    method VisitOwner(o: SecretOwner, overrides: set<Field>)
      requires Valid() && o in owners
      modifies this`processed, this`decided, owners
      ensures Valid() && AddedBy(old(decided), decided, Selection([o], overrides)) && SettledOwner(loaded, initial, decided, o, overrides)
      ensures RejectsDecided(old(Now(owners)), Now(owners), decided) && SameSecretKeys(old(Now(owners)), Now(owners))
      ensures FreedOwner(Now(owners), decided, o, overrides)
    {
      hide Valid, Loaded.Inv, Needs, DueOnly, LocalOverride, Loaded.AtHome, Loaded.Outcome, RejectsDecided, SameSecretKeys, Freed;
      ghost var start := Now(owners);
      NothingRejected(start, decided);
      for j := 0 to |o.fields|
        invariant Valid() && AddedBy(old(decided), decided, Selection([o], overrides))
        invariant RejectsDecided(start, Now(owners), decided) && SameSecretKeys(start, Now(owners))
        invariant forall m :: 0 <= m < j ==> Freed(Now(owners), decided, o, o.fields[m], overrides)
        invariant forall m :: 0 <= m < j ==> (Needs(loaded, initial, o, o.fields[m], overrides) ==> o.KeyOf(o.fields[m]) in decided)
      {
        ghost var before, was := Now(owners), decided;
        Visit(o, o.fields[j], overrides);
        RejectsJoin(start, before, Now(owners), was, decided);
        KeysJoin(start, before, Now(owners));
        StaysFreed(before, was, Now(owners), decided, o, overrides);
      }
    }

    /** Every field of every owner of one context. */
    method VisitContext(ctx: Selection)
      requires Valid() && forall o :: o in ctx.owners ==> o in owners
      modifies this`processed, this`decided, owners
      ensures Valid() && AddedBy(old(decided), decided, ctx) && Settled(loaded, initial, decided, ctx)
      ensures RejectsDecided(old(Now(owners)), Now(owners), decided) && SameSecretKeys(old(Now(owners)), Now(owners))
      ensures forall o :: o in ctx.owners ==> FreedOwner(Now(owners), decided, o, ctx.overrides)
    {
      hide Valid, Loaded.Inv, Needs, SettledOwner, DueOnly, LocalOverride, Loaded.AtHome, Loaded.Outcome, RejectsDecided, SameSecretKeys, Freed, FreedOwner;
      ghost var start := Now(owners);
      NothingRejected(start, decided);
      for i := 0 to |ctx.owners|
        invariant Valid() && AddedBy(old(decided), decided, ctx)
        invariant RejectsDecided(start, Now(owners), decided) && SameSecretKeys(start, Now(owners))
        invariant forall n :: 0 <= n < i ==> FreedOwner(Now(owners), decided, ctx.owners[n], ctx.overrides)
        invariant forall n :: 0 <= n < i ==> SettledOwner(loaded, initial, decided, ctx.owners[n], ctx.overrides)
      {
        ghost var before, was := Now(owners), decided;
        VisitOwner(ctx.owners[i], ctx.overrides);
        RejectsJoin(start, before, Now(owners), was, decided);
        KeysJoin(start, before, Now(owners));
        forall p ensures FreedOwner(before, was, p, ctx.overrides) ==> FreedOwner(Now(owners), decided, p, ctx.overrides) {
          StaysFreed(before, was, Now(owners), decided, p, ctx.overrides);
        }
        forall n | 0 <= n < i ensures SettledOwner(loaded, initial, decided, ctx.owners[n], ctx.overrides) {
          SettledOwnerStays(loaded, initial, was, decided, ctx.owners[n], ctx.overrides);
        }
      }
    }

    method Withhold(o: SecretOwner, field: Field)
      requires field in o.secrets
      modifies o`secrets, o`rejected
      ensures Cells(o.secrets, o.rejected) == old(WithheldCells(Cells(o.secrets, o.rejected), field))
    {
      o.secrets := o.secrets[field := ""];
      o.rejected := o.rejected + {field};
    }

    method ClearReject(o: SecretOwner, field: Field)
      modifies o`rejected
      ensures Cells(o.secrets, o.rejected) == old(ClearedCells(Cells(o.secrets, o.rejected), field))
    {
      o.rejected := o.rejected - {field};
    }
  }

  function WithheldCells(c: Cells, field: Field): Cells {
    Cells(c.secrets[field := ""], c.rejected + {field})
  }

  function ClearedCells(c: Cells, field: Field): Cells {
    c.(rejected := c.rejected - {field})
  }
}
