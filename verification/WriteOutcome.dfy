/** What a write does to each credential, in terms of what loading recorded and what the
    user did since (internal/config/keychain.go). */
module WriteOutcome {
  import opened Credentials
  import opened Keychain
  import opened Persistence
  import opened SecretLoad
  import opened Wrappers
  import opened WriteConfig

  /** The user replaced or cleared the field, or it was never loaded. */
  ghost predicate Touched(view: View, key: Key)
    requires key in view.secrets
  {
    key !in view.states || key in view.mutations || view.secrets[key].text != view.states[key].plaintext
  }

  /** What the new document holds for a field: the reference it was loaded from, a
      reference to a fresh account of its own, or the text in memory. */
  lemma DiskTextExactly(plan: Plan, key: Key)
    requires plan.Sound() && key in plan.view.secrets
    ensures key in plan.after.secrets && plan.after.secrets[key].destination == plan.view.secrets[key].destination
    ensures plan.after.secrets[key].text
            == if !Touched(plan.view, key) then plan.view.states[key].sentinel
               else if key in plan.staged then Bound(plan.staged[key])
               else plan.view.secrets[key].text
    ensures key in plan.staged ==>
              && Touched(plan.view, key) && plan.view.secrets[key].text.Plain? && plan.staged[key] !in plan.base
              && plan.staged[key].binding == Binding(key, plan.view.secrets[key].destination)
  {
  }

  /** The account was recorded for a field as one the keychain may hold, and the field
      left the configuration, was cleared, or was given another account. */
  ghost predicate Abandoned(plan: Plan, account: Account) {
    var key, view := account.binding.key, plan.view;
    && key in view.states && view.states[key].account == Some(account)
    && view.states[key].status in {Backed, Unresolved, Preserved}
    && (key in view.secrets ==>
          || (view.secrets[key].text == Empty && Touched(view, key))
          || (key in plan.staged && plan.staged[key] != account))
  }

  /** After a successful write an abandoned account is gone, and no other account that
      was there is: in particular none of a missing or rejected reference. */
  lemma RemovedExactly(plan: Plan, world: World, account: Account)
    requires Written(plan, world)
    ensures Abandoned(plan, account) ==> account !in world.entries
    ensures account in plan.base && !Abandoned(plan, account) ==>
              account in world.entries && world.entries[account] == plan.base[account]
  {
    assert account.binding.key in plan.view.states ==> LoadedState(account.binding.key, plan.view.states[account.binding.key]);
  }

  /** Every field of a loaded configuration whose credential was abandoned, by its field. */
  lemma AbandonedFields(plan: Plan, world: World, key: Key)
    requires Written(plan, world) && key in plan.view.states && plan.view.states[key].account.Some?
    requires plan.view.states[key].status in {Backed, Unresolved, Preserved}
    requires key !in plan.view.secrets || (plan.view.secrets[key].text == Empty && Touched(plan.view, key))
             || (key in plan.staged && plan.staged[key] != plan.view.states[key].account.value)
    ensures plan.view.states[key].account.value !in world.entries
  {
    assert LoadedState(key, plan.view.states[key]);
    RemovedExactly(plan, world, plan.view.states[key].account.value);
  }

  /** A credential stays in plaintext only when its own account could not be looked at or
      stored because there is no keychain, or when a store that was acknowledged could
      not be read back and was cleaned up; a locked keychain never is a reason. */
  lemma PlaintextHasACause(view: View, key: Key, trace: seq<Step>)
    requires key in view.secrets && Excused(view, key, trace)
    ensures exists i :: |trace| - 2 <= i < |trace| && i >= 0 && Unreachable(trace[i], view, key)
    ensures key in view.states ==>
              trace[|trace| - 1].event.Got? && trace[|trace| - 1].event.error == Some(Disabled)
  {
    if key in view.states {
      assert Unreachable(trace[|trace| - 1], view, key);
    } else {
      var cause :| DeclinedBy(trace, BindingAt(view.secrets, key), cause);
      if trace[|trace| - 1].event.Removed? {
        assert Unreachable(trace[|trace| - 2], view, key);
      } else {
        assert Unreachable(trace[|trace| - 1], view, key);
      }
    }
  }

  /** A read or store of an account of the field that found no keychain, or lost what had
      just been stored. */
  ghost predicate Unreachable(step: Step, view: View, key: Key)
    requires key in view.secrets
  {
    match step.event
    case Got(account, error) =>
      account.binding == Binding(key, view.secrets[key].destination) && error in {Some(Unavailable), Some(Disabled), Some(NotFound)}
    case Put(account, _, error) =>
      account.binding == Binding(key, view.secrets[key].destination) && error in {Some(Unavailable), Some(Disabled)}
    case _ => false
  }

  /** After the write and a load of the file it left, field by field. */
  lemma ReturnedMeans(plan: Plan, current: set<Key>, key: Key, slot: Slot, state: Option<FieldState>)
    requires plan.Sound() && key in plan.view.secrets && Returned(plan, current, key, slot, state)
    ensures key in plan.after.secrets
    ensures var text := plan.view.secrets[key].text;
            var failed := state.Some? && state.value.status == Preserved;
            && (Touched(plan.view, key) && text.Plain? && key in current ==> slot.text == text || failed)
            && (Touched(plan.view, key) && text == Empty && key in current ==> slot.text == Empty)
            && (Touched(plan.view, key) && (text.Bound? || text.Legacy?) ==> plan.after.secrets[key].text == text)
            && (!Touched(plan.view, key) ==> plan.after.secrets[key].text == plan.view.states[key].sentinel)
            && (!Touched(plan.view, key) && key in current && plan.view.states[key].status == Backed
                && plan.view.states[key].account.Some? && plan.view.states[key].account.value in plan.base
                && plan.base[plan.view.states[key].account.value] == plan.view.states[key].plaintext ==>
                  slot.text == text || failed)
  {
  }
}
