/** Reading secrets back (internal/config/keychain.go): the inventory of v2
    references, their resolution, and the round trip through a write. */
module SecretLoad {
  import opened Credentials
  import opened Keychain
  import opened Persistence
  import opened Wrappers
  import opened WriteConfig

  /** What a load without store faults puts in a field. */
  function LoadedText(secrets: Secrets, entries: Entries, key: Key): Text
    requires key in secrets
  {
    if !secrets[key].text.IsSentinel() then secrets[key].text
    else match Resolution(secrets, entries, key)
      case None => Empty
      case Some(value) => value
  }

  function StateAt(states: map<Key, FieldState>, key: Key): Option<FieldState> {
    if key in states then Some(states[key]) else None
  }

  /** The inventory of one field: its own reference waits for resolution, a foreign
      one is taken out of memory and quarantined. */
  predicate Inventoried(key: Key, original: Slot, slot: Slot, state: Option<FieldState>) {
    var binding := Binding(key, original.destination);
    var text := original.text;
    && slot.destination == original.destination
    && if !text.Bound? then slot == original && state.None?
       else if text.Matches(binding) then
         slot == original && state == Some(FieldState(binding, Some(text.account), text, Empty, Unresolved))
       else
         slot.text.Empty? && state == Some(FieldState(binding, None, text, Empty, Rejected))
  }

  /** Records every v2 reference without opening the keychain. */
  method InventoryBoundSentinels(config: Config)
    requires config.states == map[]
    modifies config`secrets, config`states
    ensures config.secrets.Keys == old(config.secrets).Keys
    ensures config.states.Keys <= config.secrets.Keys
    ensures forall k :: k in config.secrets ==>
              Inventoried(k, old(config.secrets)[k], config.secrets[k], StateAt(config.states, k))
    ensures config.Snapshot().WellFormed()
  {
    hide View.WellFormed, Inventoried;
    ghost var original := config.secrets;
    var remaining := config.secrets.Keys;
    assert config.Snapshot().WellFormed() by { NoStates(config.Snapshot()); }
    while remaining != {}
      invariant remaining <= original.Keys == config.secrets.Keys
      invariant config.states.Keys <= original.Keys - remaining
      invariant forall k :: k in remaining ==> config.secrets[k] == original[k]
      invariant forall k :: k in original && k !in remaining ==>
                  Inventoried(k, original[k], config.secrets[k], StateAt(config.states, k))
      invariant config.Snapshot().WellFormed()
    {
      var key :| key in remaining;
      remaining := remaining - {key};
      InventoryOne(config, key);
    }
  }

  lemma NoStates(view: View)
    requires view.states == map[]
    ensures view.WellFormed()
  {
  }

  method InventoryOne(config: Config, key: Key)
    requires key in config.secrets && key !in config.states && config.Snapshot().WellFormed()
    modifies config`secrets, config`states
    ensures config.Snapshot().WellFormed() && config.secrets.Keys == old(config.secrets).Keys
    ensures config.states.Keys <= old(config.states).Keys + {key}
    ensures forall k :: k in config.secrets && k != key ==> config.secrets[k] == old(config.secrets)[k]
    ensures forall k :: k != key ==> StateAt(config.states, k) == StateAt(old(config.states), k)
    ensures Inventoried(key, old(config.secrets)[key], config.secrets[key], StateAt(config.states, key))
  {
    var text := config.secrets[key].text;
    var binding := BindingAt(config.secrets, key);
    if text.Bound? && !text.Matches(binding) {
      config.SetText(key, Empty);
      config.states := config.states[key := FieldState(binding, None, text, Empty, Rejected)];
    } else if text.Bound? {
      config.states := config.states[key := FieldState(binding, Some(text.account), text, Empty, Unresolved)];
    }
  }

  /** The resolution of one field under honest reads: a value only for a matching
      reference whose account exists, and never a value on a fault. */
  ghost predicate Resolved(key: Key, original: Slot, slot: Slot, state: Option<FieldState>, entries: Entries) {
    var binding := Binding(key, original.destination);
    var text := original.text;
    && slot.destination == original.destination
    && (!text.IsSentinel() ==> slot == original)
    && (text.IsSentinel() ==>
          && state.Some? && state.value.sentinel == text && state.value.binding == binding
          && (state.value.status.Rejected? <==> !text.Matches(binding))
          && match state.value.status
             case Backed => text.account in entries && slot.text == entries[text.account] && state.value.plaintext == slot.text
             case Missing => text.account !in entries && slot.text.Empty?
             case Rejected => slot.text.Empty?
             case Preserved => slot.text.Empty?
             case Unresolved => false)
  }

  /** Resolves the selected fields; the others keep their text and their state. */
  method ResolveSentinels(config: Config, world: World, keys: set<Key>)
    requires config.Snapshot().WellFormed()
    modifies config`secrets, config`states, world`trace
    ensures old(world.trace) <= world.trace && config.secrets.Keys == old(config.secrets).Keys
    ensures config.Snapshot().WellFormed()
    ensures forall k :: k in config.secrets && k in keys ==>
              Resolved(k, old(config.secrets)[k], config.secrets[k], StateAt(config.states, k), world.entries)
    ensures forall k :: k in config.secrets && k !in keys ==> config.secrets[k] == old(config.secrets)[k]
    ensures forall k :: Untouched(old(config.secrets), keys, k) ==> StateAt(config.states, k) == StateAt(old(config.states), k)
    ensures Smooth(world.trace, |old(world.trace)|) ==>
              forall k :: k in keys && k in config.secrets && old(config.secrets)[k].text.IsSentinel() ==> !Withheld(StateAt(config.states, k))
  {
    hide View.WellFormed, Resolved, Smooth, Withheld, Faulty;
    ghost var original, states := config.secrets, config.states;
    var remaining := keys * config.secrets.Keys;
    while remaining != {}
      invariant remaining <= keys * original.Keys && original.Keys == config.secrets.Keys
      invariant old(world.trace) <= world.trace && config.Snapshot().WellFormed()
      invariant forall k :: k in original && (k !in keys || k in remaining) ==> config.secrets[k] == original[k]
      invariant forall k :: k in original && k in keys && k !in remaining ==>
                  Resolved(k, original[k], config.secrets[k], StateAt(config.states, k), world.entries)
      invariant forall k :: Untouched(original, keys - remaining, k) ==> StateAt(config.states, k) == StateAt(states, k)
      invariant Smooth(world.trace, |old(world.trace)|) ==>
                  forall k :: k in keys && k in original && k !in remaining && original[k].text.IsSentinel() ==> !Withheld(StateAt(config.states, k))
    {
      var key :| key in remaining;
      remaining := remaining - {key};
      ghost var before := world.trace;
      ResolveOne(config, world, key);
      SmoothParts(before, world.trace, |old(world.trace)|);
    }
  }

  /** The value was there or not, but could not be read. */
  predicate Withheld(state: Option<FieldState>) {
    state.Some? && state.value.status.Preserved?
  }

  predicate Untouched(secrets: Secrets, keys: set<Key>, key: Key) {
    key !in keys || key !in secrets || !secrets[key].text.IsSentinel()
  }

  method ResolveOne(config: Config, world: World, key: Key)
    requires config.Snapshot().WellFormed() && key in config.secrets
    modifies config`secrets, config`states, world`trace
    ensures old(world.trace) <= world.trace && config.Snapshot().WellFormed()
    ensures config.secrets.Keys == old(config.secrets).Keys
    ensures forall k :: k in config.secrets && k != key ==> config.secrets[k] == old(config.secrets)[k]
    ensures forall k :: Untouched(old(config.secrets), {key}, k) ==> StateAt(config.states, k) == StateAt(old(config.states), k)
    ensures Resolved(key, old(config.secrets)[key], config.secrets[key], StateAt(config.states, key), world.entries)
    ensures old(config.secrets)[key].text.IsSentinel() && Withheld(StateAt(config.states, key)) ==> !Smooth(world.trace, |old(world.trace)|)
  {
    var text := config.secrets[key].text;
    if !text.IsSentinel() {
      return;
    }
    var binding := BindingAt(config.secrets, key);
    if !text.Matches(binding) {
      config.SetText(key, Empty);
      config.states := config.states[key := FieldState(binding, None, text, Empty, Rejected)];
      return;
    }
    var value, error := world.Get(text.account);
    assert error.Some? && !error.value.NotFound? ==> Faulty(world.trace[|world.trace| - 1]);
    if error.Some? {
      config.SetText(key, Empty);
      var status := if error.value.NotFound? then Missing else Preserved;
      config.states := config.states[key := FieldState(binding, Some(text.account), text, Empty, status)];
      return;
    }
    config.SetText(key, value);
    config.states := config.states[key := FieldState(binding, Some(text.account), text, value, Backed)];
  }

  /** Loading a document: inventory everything, then resolve the fields of the
      current context. What it records is what a later write relies on. */
  method Load(source: string, document: Document, world: World, current: set<Key>) returns (config: Config)
    modifies world`trace
    ensures fresh(config) && config.Snapshot().WellFormed() && config.origin == Revision(document)
    ensures config.secrets.Keys == document.secrets.Keys && config.mutations == {} && config.body == document.body
    ensures config.states.Keys <= document.secrets.Keys
    ensures forall k :: k in document.secrets ==>
              LoadedField(document.secrets, world.entries, current, k, config.secrets[k], StateAt(config.states, k))
    ensures old(world.trace) <= world.trace
    ensures Smooth(world.trace, |old(world.trace)|) ==> forall k :: k in config.secrets ==> !Withheld(StateAt(config.states, k))
  {
    hide View.WellFormed, Inventoried, Resolved, LoadedText, Smooth;
    config := new Config(source, document.body, document.secrets, map[], {}, Revision(document));
    InventoryBoundSentinels(config);
    ghost var inventory, states := config.secrets, config.states;
    ResolveSentinels(config, world, current);
    forall k | k in document.secrets
      ensures LoadedField(document.secrets, world.entries, current, k, config.secrets[k], StateAt(config.states, k))
    {
      FieldLoads(document.secrets, inventory, world.entries, current, k, StateAt(states, k), config.secrets[k], StateAt(config.states, k));
    }
    forall k | k in config.secrets && Smooth(world.trace, |old(world.trace)|) ensures !Withheld(StateAt(config.states, k)) {
      NoneWithheldYet(document.secrets, inventory, current, k, StateAt(states, k), StateAt(config.states, k));
    }
    forall k | k in config.states ensures k in document.secrets {
      if Untouched(inventory, current, k) {
        assert StateAt(config.states, k) == StateAt(states, k);
      }
    }
  }

  lemma NoneWithheldYet(secrets: Secrets, inventory: Secrets, current: set<Key>, key: Key, before: Option<FieldState>, state: Option<FieldState>)
    requires key in secrets && key in inventory && Inventoried(key, secrets[key], inventory[key], before)
    requires Untouched(inventory, current, key) ==> state == before
    requires key in current && inventory[key].text.IsSentinel() ==> !Withheld(state)
    ensures !Withheld(state)
  {
  }

  /** One field after loading: a selected one is resolved, another one inventoried. */
  ghost predicate LoadedField(secrets: Secrets, entries: Entries, current: set<Key>, key: Key, slot: Slot, state: Option<FieldState>)
    requires key in secrets
  {
    && (state.Some? ==> state.value.sentinel == secrets[key].text && secrets[key].text.IsSentinel())
    && (key in current ==>
          && slot.destination == secrets[key].destination
          && ((state.Some? && state.value.status.Preserved?) || slot.text == LoadedText(secrets, entries, key)))
    && (key !in current ==> Inventoried(key, secrets[key], slot, state))
  }

  lemma FieldLoads(secrets: Secrets, inventory: Secrets, entries: Entries, current: set<Key>, key: Key, before: Option<FieldState>, slot: Slot, state: Option<FieldState>)
    requires key in secrets && key in inventory && Inventoried(key, secrets[key], inventory[key], before)
    requires key in current ==> Resolved(key, inventory[key], slot, state, entries)
    requires key !in current ==> slot == inventory[key]
    requires Untouched(inventory, current, key) ==> state == before
    ensures LoadedField(secrets, entries, current, key, slot, state)
  {
  }

  /** A successful write leaves every intended value in place, whatever strays there
      are. */
  lemma WrittenKeepsNew(plan: Plan, world: World)
    requires Written(plan, world)
    ensures KeepsNew(plan, world.entries)
  {
    forall k | plan.Intended(k).Some? ensures Resolution(plan.after.secrets, world.entries, k) == plan.Intended(k) {
      IntendedIsThere(plan, world, k);
    }
  }

  lemma IntendedIsThere(plan: Plan, world: World, key: Key)
    requires Written(plan, world) && plan.Intended(key).Some?
    ensures Resolution(plan.after.secrets, world.entries, key) == plan.Intended(key)
  {
    if key in plan.staged && key in plan.view.secrets {
      assert HoldsStaged(plan, world.entries, key) && !plan.view.Refuses(key);
    } else {
      DoomedIsUnreferenced(plan, key);
    }
  }

  /** What a field is after a write and a load: new secrets are back, secrets that were
      read and not touched are back, and every reference is on disk verbatim and still
      reads what it read. Only a failing read withholds a value. */
  ghost predicate Returned(plan: Plan, current: set<Key>, key: Key, slot: Slot, state: Option<FieldState>)
    requires key in plan.view.secrets
  {
    var view, text := plan.view, plan.view.secrets[key].text;
    && key in plan.after.secrets
    && var disk := plan.after.secrets[key].text;
       var failed := state.Some? && state.value.status.Preserved?;
       && (view.Carried(key) ==> disk == view.states[key].sentinel)
       && (!view.Carried(key) && !text.Plain? ==> disk == text)
       && (state.Some? ==> state.value.sentinel == disk)
       && (key in current ==>
             && slot.destination == view.secrets[key].destination
             && (view.NeedsAccount(key) ==> slot.text == text || failed)
             && (CameBacked(plan, key) ==> slot.text == text || failed)
             && (!view.Carried(key) && text.Empty? ==> slot.text.Empty?)
             && match Resolution(plan.after.secrets, plan.base, key)
                case Some(value) => slot.text == value || failed
                case None => true)
       && (key !in current ==> Inventoried(key, plan.after.secrets[key], slot, state))
  }

  /** The field was read from the keychain, not touched, and the keychain still held
      it when the write began. */
  predicate CameBacked(plan: Plan, key: Key)
    requires key in plan.view.secrets
  {
    && plan.view.Carried(key) && plan.view.states[key].status.Backed? && plan.view.states[key].account.Some?
    && plan.view.states[key].account.value in plan.base
    && plan.base[plan.view.states[key].account.value] == plan.view.states[key].plaintext
  }

  lemma BackedResolves(plan: Plan, key: Key)
    requires plan.Sound() && key in plan.view.secrets && CameBacked(plan, key)
    ensures Resolution(plan.after.secrets, plan.base, key) == Some(plan.view.secrets[key].text)
  {
    assert LoadedState(key, plan.view.states[key]);
    assert !plan.view.Refuses(key);
  }

  /** What a load without faults reads after the write. */
  lemma TextReturns(plan: Plan, entries: Entries, key: Key)
    requires plan.Sound() && KeepsNew(plan, entries) && key in plan.view.secrets
    ensures key in plan.after.secrets
    ensures var text, read := plan.view.secrets[key].text, LoadedText(plan.after.secrets, entries, key);
            && (plan.view.NeedsAccount(key) || CameBacked(plan, key) ==> read == text)
            && (!plan.view.Carried(key) && text.Empty? ==> read.Empty?)
            && (Resolution(plan.after.secrets, plan.base, key).Some? ==> Some(read) == Resolution(plan.after.secrets, plan.base, key))
  {
    if CameBacked(plan, key) {
      BackedResolves(plan, key);
    }
    if key in plan.staged {
      assert plan.Intended(key) == Some(plan.view.secrets[key].text);
    } else if Resolution(plan.after.secrets, plan.base, key).Some? {
      assert plan.Intended(key) == Resolution(plan.after.secrets, plan.base, key);
    }
  }

  lemma FieldReturns(plan: Plan, entries: Entries, current: set<Key>, key: Key, slot: Slot, state: Option<FieldState>)
    requires plan.Sound() && KeepsNew(plan, entries) && key in plan.view.secrets && key in plan.after.secrets
    requires LoadedField(plan.after.secrets, entries, current, key, slot, state)
    ensures Returned(plan, current, key, slot, state)
  {
    hide Inventoried, LoadedText, CameBacked, Resolution;
    TextReturns(plan, entries, key);
    assert plan.after.secrets[key] == Slot(plan.view.DiskText(plan.staged, key), plan.view.secrets[key].destination);
    assert key in plan.staged ==> plan.view.NeedsAccount(key);
  }

  /** The round trip through both stores: a successful write, then a load of the file it
      left. */
  method WriteThenLoad(config: Config, world: World, current: set<Key>, steady: bool) returns (error: Option<WriteError>, loaded: Config?, ghost plan: Plan)
    requires config.Snapshot().WellFormed()
    modifies world
    ensures plan.view == config.Snapshot() && plan.base == old(world.entries)
    ensures error.None? <==> loaded != null
    ensures error.None? ==>
              && fresh(loaded) && loaded.body == config.body && loaded.secrets.Keys == config.secrets.Keys
              && loaded.origin == Revision(plan.after) && world.visible == File(plan.after)
              && (forall k :: k in config.secrets ==> Returned(plan, current, k, loaded.secrets[k], StateAt(loaded.states, k)))
              && (Smooth(world.trace, |old(world.trace)|) ==> forall k :: k in config.secrets ==> !Withheld(StateAt(loaded.states, k)))
    ensures steady && Smooth(world.trace, |old(world.trace)|) && CameFrom(config.origin, plan.before)
            && StillReferenced(config.source, config.states, plan.before) && (forall k :: k in config.secrets ==> !plan.view.Unwritable(k))
            && (plan.before.File? || forall a :: !plan.Doomed(a)) ==>
              error.None? || error == Some(Refused(NoFreshGeneration))
  {
    hide Smooth, Plan.Doomed, StillReferenced, View.Unwritable, Withheld, Returned, LoadedField, SafeRun, AfterInstall, Excuses, StraysKnown;
    var count;
    count, error, plan := WriteConfig.WriteConfig(config, world, false, steady);
    loaded := null;
    if error.None? {
      WrittenKeepsNew(plan, world);
      ghost var written := world.trace;
      loaded := Load(config.source, world.visible.document, world, current);
      if !Smooth(world.trace, |written|) {
        FaultStays(world.trace, world.trace, |written|, |old(world.trace)|);
      }
      forall k | k in config.secrets ensures Returned(plan, current, k, loaded.secrets[k], StateAt(loaded.states, k)) {
        FieldReturns(plan, world.entries, current, k, loaded.secrets[k], StateAt(loaded.states, k));
      }
    }
  }
}
