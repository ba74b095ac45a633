/** The keychain half of a config write (internal/config/keychain.go):
    reversible Sets before the file is replaced, destructive Deletes after. */
module Keychain {
  import opened Credentials
  import opened Persistence
  import opened Wrappers

  datatype Status = Backed | Unresolved | Preserved | Rejected | Missing

  /** What loading observed about one field. */
  datatype FieldState = FieldState(
    binding: Binding,
    account: Option<Account>,
    sentinel: Text,
    plaintext: Text,
    status: Status)
  {
    /** Only these statuses entitle a write to delete the account. */
    predicate Deletable() {
      status.Backed? || status.Unresolved? || status.Preserved?
    }
  }

  /** The in-memory secrets, frozen at the start of a write. */
  datatype View = View(secrets: Secrets, states: map<Key, FieldState>, mutations: set<Key>) {
    predicate Dirty(key: Key)
      requires key in secrets
    {
      key in mutations || (key in states && secrets[key].text != states[key].plaintext)
    }

    /** The field is written back as the reference it was loaded from. */
    predicate Carried(key: Key)
      requires key in secrets
    {
      key in states && !Dirty(key)
    }

    predicate NeedsAccount(key: Key)
      requires key in secrets
    {
      !Carried(key) && secrets[key].text.Plain?
    }

    /** The field stops the write before either store is touched. */
    predicate Refuses(key: Key)
      requires key in secrets
    {
      var binding := BindingAt(secrets, key);
      var text := secrets[key].text;
      || ((!text.Empty? || key in states) && !binding.Valid())
      || (key in states && states[key].Deletable() && states[key].binding.Valid()
          && states[key].binding != binding && !Dirty(key))
      || (text.Bound? && !text.Matches(binding))
    }

    /** Without any of these a write does not open the keychain at all. */
    predicate HasSecrets() {
      states != map[] || mutations != {} || exists key :: key in secrets && !secrets[key].text.Empty?
    }

    /** The field cannot be written: no complete binding, an untouched credential whose
        destination changed, or somebody else's reference. */
    ghost predicate Unwritable(key: Key)
      requires key in secrets
    {
      var slot := secrets[key];
      var complete := key.source != "" && key.owner != "" && slot.destination != "";
      || ((slot.text != Empty || key in states) && !complete)
      || (key in states && states[key].status in {Backed, Unresolved, Preserved}
          && key !in mutations && slot.text == states[key].plaintext && states[key].binding != Binding(key, slot.destination)
          && states[key].binding.key.source != "" && states[key].binding.key.owner != "" && states[key].binding.destination != "")
      || (slot.text.Bound? && !(complete && slot.text.account.binding == Binding(key, slot.destination)))
    }

    lemma RefusesExactly(key: Key)
      requires key in secrets
      ensures Refuses(key) <==> Unwritable(key)
    {
    }

    /** What every loader establishes about the states it records. */
    ghost predicate WellFormed() {
      forall key :: key in states ==> LoadedState(key, states[key])
    }

    /** The text the write puts in the file, once `staged` says which fields got
        a fresh account. */
    function DiskText(staged: map<Key, Account>, key: Key): Text
      requires key in secrets
    {
      if Carried(key) then states[key].sentinel
      else if key in staged then Bound(staged[key])
      else secrets[key].text
    }

    /** The old account of `key` loses its last reference. */
    predicate Retires(staged: map<Key, Account>, key: Key)
      requires key in states && key in secrets
    {
      || (!Carried(key) && secrets[key].text.Empty?)
      || (key in staged && states[key].account != Some(staged[key]))
    }

    /** The accounts a write may delete once the file is durable. `done` and
        `orphans` bound the fields already visited. */
    predicate Doomed(staged: map<Key, Account>, done: set<Key>, orphans: set<Key>, account: Account) {
      var key := account.binding.key;
      && key in states && states[key].Deletable() && states[key].account == Some(account)
      && (if key in secrets then key in done && Retires(staged, key) else key in orphans)
    }
  }

  ghost predicate LoadedState(key: Key, state: FieldState) {
    && state.binding.key == key
    && state.sentinel.IsSentinel()
    && (state.account.None? <==> state.status.Rejected?)
    && (state.account.Some? ==>
          state.sentinel == Bound(state.account.value) && state.account.value.binding == state.binding
          && state.binding.Valid())
    && (!state.status.Backed? ==> state.plaintext.Empty?)
  }

  datatype Swap = Swap(key: Key, text: Text)

  datatype PendingDelete = PendingDelete(account: Account, previous: Text, existed: bool)

  datatype Refusal =
    | UnwritableField
    | NoReference
    | NotInspected(error: StoreError)
    | NotStored(error: StoreError)
    | NotVerified
    | NotCleanedUp
    | NoFreshGeneration
    | ReferenceProtected

  datatype Staging = Staged(account: Account) | Declined | Failed(why: Refusal)

  datatype CommitOutcome = Committed | RolledBack | Unrestored

  /** Nothing but the keychain moved since `from`, and it kept all of `base`. */
  ghost predicate Calm(trace: seq<Step>, from: nat, base: Entries, visible: Image, durable: Image) {
    forall i :: from <= i < |trace| ==>
      trace[i].visible == visible && trace[i].durable == durable && Extends(trace[i].entries, base)
  }

  /** Since `from` nothing was stored, and the keychain held no more than `entries`. */
  ghost predicate Shrinks(trace: seq<Step>, from: nat, entries: Entries) {
    forall i :: from <= i < |trace| ==> !trace[i].event.Put? && Extends(entries, trace[i].entries)
  }

  /** The last steps of `trace` are the only ones that let a credential of
      `binding` stay in plaintext. `fallback` is the cause the transaction keeps:
      only a refused inspection leaves one. */
  ghost predicate DeclinedBy(trace: seq<Step>, binding: Binding, fallback: Option<StoreError>) {
    && |trace| >= 1
    && var last := trace[|trace| - 1].event;
    || (last.Got? && last.account.binding == binding && last.error.Some?
        && last.error.value.IsUnavailable() && fallback == last.error)
    || (last.Put? && last.account.binding == binding && last.error.Some?
        && last.error.value.IsUnavailable() && fallback.None?)
    || (last.Removed? && (last.error.None? || last.error == Some(NotFound)) && fallback.None?
        && |trace| >= 2
        && var check := trace[|trace| - 2].event;
           check.Got? && check.account == last.account && last.account.binding == binding
           && check.error.Some? && (check.error.value.IsUnavailable() || check.error.value.NotFound?))
  }

  /** The keychain and the two records a staging attempt may touch. */
  datatype Ledger = Ledger(entries: Entries, writes: seq<Account>, strays: set<Account>)

  ghost predicate Attempted(binding: Binding, value: Text, result: Staging, before: Ledger, after: Ledger, trace: seq<Step>, from: nat, fallback: Option<StoreError>) {
    && Extends(after.entries, before.entries) && before.strays <= after.strays
    && (forall a :: a in after.entries ==> a in before.entries || a in after.writes || a in after.strays)
    && (forall a :: a in after.strays && a !in before.strays ==>
          a !in before.entries && a in after.entries && after.writes == before.writes && StoredAllTheSame(trace, from, a))
    && (forall a :: StoredAllTheSame(trace, from, a) ==> a in after.strays)
    && result != Failed(UnwritableField)
    && match result
       case Staged(account) =>
         && binding.Valid() && account.binding == binding && account !in before.entries
         && after == Ledger(before.entries[account := value], before.writes + [account], before.strays)
       case Declined =>
         after.writes == before.writes && |trace| > from && DeclinedBy(trace, binding, fallback) && !Smooth(trace, from)
       case Failed(why) =>
         && (why !in {NoReference, NoFreshGeneration} ==> !Smooth(trace, from))
         && (after.writes == before.writes || (exists a :: a !in before.entries && after.writes == before.writes + [a]))
         && (why.NotInspected? ==> why.error in {Locked, OtherFailure}) && (why.NotStored? ==> why.error in {NotFound, Locked, OtherFailure})
  }

  /** No Set reported an error since `from`. */
  ghost predicate NoneRefused(trace: seq<Step>, from: nat) {
    forall i :: from <= i < |trace| && trace[i].event.Put? ==> trace[i].event.error.None?
  }

  lemma NothingStored(trace: seq<Step>, from: nat)
    requires NoneRefused(trace, from)
    ensures forall a :: !StoredAllTheSame(trace, from, a)
  {
  }

  /** Reads before an attempt add nothing to it. */
  lemma AttemptSince(binding: Binding, value: Text, result: Staging, before: Ledger, after: Ledger, earlier: seq<Step>, trace: seq<Step>, from: nat, fallback: Option<StoreError>)
    requires earlier <= trace && from <= |earlier| && NoneRefused(earlier, from)
    requires Attempted(binding, value, result, before, after, trace, |earlier|, fallback)
    ensures Attempted(binding, value, result, before, after, trace, from, fallback)
  {
    forall a ensures StoredAllTheSame(trace, from, a) <==> StoredAllTheSame(trace, |earlier|, a) {
      assert forall i :: from <= i < |earlier| ==> trace[i] == earlier[i];
    }
    if !Smooth(trace, |earlier|) {
      FaultStays(trace, trace, |earlier|, from);
    }
    hide StoredAllTheSame, Smooth;
  }

  lemma ExtendsItself(entries: Entries)
    ensures Extends(entries, entries)
  {
  }

  lemma ExtendsButOne(after: Entries, before: Entries, account: Account)
    requires account !in before && after - {account} == before - {account}
    ensures Extends(after, before) && after - {account} == before
    ensures account !in after ==> after == before
  {
    assert before - {account} == before;
    assert forall a :: a in before ==> a in before - {account};
  }

  lemma RefusedAttempt(account: Account, value: Text, before: Ledger, after: Ledger, trace: seq<Step>, from: nat)
    requires account !in before.entries && after.entries - {account} == before.entries && after.writes == before.writes
    requires after.strays == if account in after.entries then before.strays + {account} else before.strays
    requires |trace| == from + 1 && trace[from].event.Put? && trace[from].event.account == account
    requires trace[from].event.error.Some? && trace[from].entries == after.entries
    ensures var error := trace[from].event.error.value;
            Attempted(account.binding, value, if error.IsUnavailable() then Declined else Failed(NotStored(error)), before, after, trace, from, None)
  {
    assert Faulty(trace[from]);
    ExtendsButOne(after.entries, before.entries, account);
    assert forall a :: a in after.entries && a != account ==> a in after.entries - {account};
  }

  lemma CalmStart(trace: seq<Step>, base: Entries, visible: Image, durable: Image)
    ensures Calm(trace, |trace|, base, visible, durable) && NoneRefused(trace, |trace|)
  {
  }

  lemma CalmOne(before: seq<Step>, trace: seq<Step>, from: nat, base: Entries, visible: Image, durable: Image)
    requires before <= trace && |trace| == |before| + 1 && Calm(before, from, base, visible, durable)
    requires trace[|before|].visible == visible && trace[|before|].durable == durable && Extends(trace[|before|].entries, base)
    ensures Calm(trace, from, base, visible, durable)
    ensures NoneRefused(before, from) && !trace[|before|].event.Put? ==> NoneRefused(trace, from)
  {
    assert forall i :: 0 <= i < |before| ==> trace[i] == before[i];
  }

  lemma FirstPutKept(trace: seq<Step>, from: nat)
    requires |trace| in {from + 2, from + 3} && trace[from].event.Put? && trace[from].event.error.None?
    requires !trace[from + 1].event.Put? && (|trace| == from + 3 ==> !trace[from + 2].event.Put?)
    ensures NoneRefused(trace, from)
  {
  }

  /** An attempt that only read. */
  lemma ReadOnlyAttempt(binding: Binding, value: Text, result: Staging, books: Ledger, trace: seq<Step>, from: nat, fallback: Option<StoreError>)
    requires from <= |trace| && NoneRefused(trace, from)
    requires result in {Failed(NoReference), Failed(NoFreshGeneration)}
             || (|trace| > from && trace[|trace| - 1].event.Got? && trace[|trace| - 1].event.account.binding == binding
                 && trace[|trace| - 1].event.error.Some? && !trace[|trace| - 1].event.error.value.NotFound?
                 && var error := trace[|trace| - 1].event.error;
                    if error.value.IsUnavailable() then result == Declined && fallback == error else result == Failed(NotInspected(error.value)))
    ensures Attempted(binding, value, result, books, books, trace, from, fallback)
  {
    NothingStored(trace, from);
    if result !in {Failed(NoReference), Failed(NoFreshGeneration)} {
      assert Faulty(trace[|trace| - 1]);
    }
    hide StoredAllTheSame;
  }

  /** A value that does not read back was not stored, or was not read. */
  lemma UnverifiedIsFaulty(account: Account, value: Text, stored: Text, unreadable: Option<StoreError>, entries: Entries, put: seq<Step>, trace: seq<Step>, from: nat)
    requires put <= trace && |put| == from + 1 && |trace| == from + 2 && put[from].event == Put(account, value, None) && put[from].entries == entries
    requires trace[from + 1].event == Got(account, unreadable)
    requires unreadable.None? ==> account in entries && stored == entries[account]
    requires unreadable == Some(NotFound) ==> account !in entries
    requires !(unreadable.None? && stored == value)
    ensures !Smooth(trace, from)
  {
    assert trace[from] == put[from];
    assert Faulty(trace[from]) || Faulty(trace[from + 1]);
  }

  lemma KeptAttempt(account: Account, value: Text, before: Ledger, after: Ledger, trace: seq<Step>, from: nat, fallback: Option<StoreError>)
    requires account !in before.entries && account.binding.Valid() && after.entries - {account} == before.entries
    requires account in after.entries && after.entries[account] == value
    requires after.writes == before.writes + [account] && after.strays == before.strays && NoneRefused(trace, from)
    ensures Attempted(account.binding, value, Staged(account), before, after, trace, from, fallback)
  {
    NothingStored(trace, from);
    assert forall a :: a in after.entries && a != account ==> a in after.entries - {account} && after.entries[a] == (after.entries - {account})[a];
    assert after.entries == before.entries[account := value];
  }

  lemma UncleanAttempt(account: Account, value: Text, before: Ledger, after: Ledger, trace: seq<Step>, from: nat, fallback: Option<StoreError>)
    requires account !in before.entries && after.entries - {account} == before.entries
    requires after.writes == before.writes + [account] && after.strays == before.strays && NoneRefused(trace, from) && !Smooth(trace, from)
    ensures Attempted(account.binding, value, Failed(NotCleanedUp), before, after, trace, from, fallback)
  {
    NothingStored(trace, from);
    assert forall a :: a in after.entries && a != account ==> a in after.entries - {account};
  }

  lemma CleanAttempt(account: Account, value: Text, unreadable: Option<StoreError>, before: Ledger, after: Ledger, trace: seq<Step>, from: nat)
    requires after == before && |trace| == from + 3 && NoneRefused(trace, from) && !Smooth(trace, from)
    requires trace[from + 1].event == Got(account, unreadable)
    requires trace[from + 2].event.Removed? && trace[from + 2].event.account == account && !Fails(trace[from + 2])
    ensures var lost := unreadable.Some? && (unreadable.value.IsUnavailable() || unreadable.value.NotFound?);
            Attempted(account.binding, value, if lost then Declined else Failed(NotVerified), before, after, trace, from, None)
  {
    NothingStored(trace, from);
  }

  /** A delete of `account` reported an error after `from`. */
  ghost predicate LeftBehind(trace: seq<Step>, from: nat, account: Account) {
    exists i :: from <= i < |trace| && trace[i].event.Removed?
                && trace[i].event.account == account && trace[i].event.error.Some?
  }

  lemma ExtendsTransitive(top: Entries, middle: Entries, base: Entries)
    requires Extends(top, middle) && Extends(middle, base)
    ensures Extends(top, base)
  {
  }

  /** Memory: visited fields hold their disk text, and the swaps remember how
      to undo exactly that. */
  ghost predicate MemoryDone(view: View, staged: map<Key, Account>, done: set<Key>, secrets: Secrets, swaps: seq<Swap>) {
    && Undoable(view, secrets, swaps)
    && (forall k :: k in view.secrets && k in secrets ==>
          secrets[k].text == (if k in done then view.DiskText(staged, k) else view.secrets[k].text))
  }

  ghost predicate Undoable(view: View, secrets: Secrets, swaps: seq<Swap>) {
    && secrets.Keys == view.secrets.Keys
    && (forall swap :: swap in swaps ==> swap.key in view.secrets && swap.text == view.secrets[swap.key].text)
    && (forall k :: k in view.secrets ==>
          && secrets[k].destination == view.secrets[k].destination
          && (secrets[k].text != view.secrets[k].text ==> Swap(k, view.secrets[k].text) in swaps))
  }

  /** Staged fields are visited fields that needed an account, each under its own
      binding and in an account the keychain did not hold. */
  ghost predicate StagedDone(view: View, base: Entries, staged: map<Key, Account>, done: set<Key>) {
    forall k :: k in staged ==>
      && k in done && k in view.secrets && view.NeedsAccount(k)
      && staged[k].binding == BindingAt(view.secrets, k)
      && staged[k] !in base
  }

  /** Keychain: exactly the old entries, the staged ones and the strays, each account
      one of the three. */
  ghost predicate StoreDone(view: View, base: Entries, staged: map<Key, Account>, writes: seq<Account>, strays: set<Account>, entries: Entries) {
    && Withdrawable(base, writes, strays, entries)
    && (forall a :: a in strays ==> a in entries && a !in writes)
    && (forall a :: a in writes <==> a.binding.key in staged && staged[a.binding.key] == a)
    && (forall k :: k in staged ==>
          staged[k].binding.key == k && staged[k] in entries
          && k in view.secrets && entries[staged[k]] == view.secrets[k].text)
  }

  ghost predicate Withdrawable(base: Entries, writes: seq<Account>, strays: set<Account>, entries: Entries) {
    && Extends(entries, base)
    && (forall a :: a in writes || a in strays ==> a !in base)
    && (forall a :: a in entries ==> a in base || a in writes || a in strays)
  }

  /** Strays come from a Set that reported an error and stored all the same. */
  ghost predicate StraysKnown(strays: set<Account>, trace: seq<Step>, from: nat) {
    forall a :: a in strays ==> StoredAllTheSame(trace, from, a)
  }

  /** Every account that such a Set stored since `from` is a stray. */
  ghost predicate StraysAll(strays: set<Account>, trace: seq<Step>, from: nat) {
    forall a :: StoredAllTheSame(trace, from, a) ==> a in strays
  }

  lemma StraysGrow(strays: set<Account>, more: set<Account>, before: seq<Step>, after: seq<Step>, from: nat)
    requires before <= after && from <= |before| && StraysAll(strays, before, from) && strays <= more
    requires StraysAll(more, after, |before|)
    ensures StraysAll(more, after, from)
  {
    forall a | StoredAllTheSame(after, from, a) ensures a in more {
      var i :| from <= i < |after| && after[i].event.Put? && after[i].event.account == a
               && after[i].event.error.Some? && a in after[i].entries;
      if i < |before| {
        assert before[i] == after[i];
        assert StoredAllTheSame(before, from, a);
      } else {
        assert StoredAllTheSame(after, |before|, a);
      }
    }
  }

  /** Steps that refuse no Set add no stray. */
  lemma StraysStay(strays: set<Account>, before: seq<Step>, after: seq<Step>, from: nat)
    requires before <= after && from <= |before| && StraysAll(strays, before, from) && NoneRefused(after, |before|)
    ensures StraysAll(strays, after, from)
  {
    NothingStored(after, |before|);
    hide StoredAllTheSame;
    StraysGrow(strays, strays, before, after, from);
  }

  lemma StraysKept(strays: set<Account>, more: set<Account>, before: seq<Step>, after: seq<Step>, from: nat)
    requires before <= after && from <= |before| && StraysKnown(strays, before, from)
    requires forall a :: a in more ==> a in strays || StoredAllTheSame(after, |before|, a)
    ensures StraysKnown(more, after, from)
  {
    forall a | a in more ensures StoredAllTheSame(after, from, a) {
      if a in strays {
        var i :| from <= i < |before| && before[i].event.Put? && before[i].event.account == a
                 && before[i].event.error.Some? && a in before[i].entries;
        assert after[i] == before[i];
      }
    }
  }

  ghost predicate DoomedDone(view: View, staged: map<Key, Account>, done: set<Key>, orphans: set<Key>, seen: set<Account>) {
    forall a :: a in seen <==> view.Doomed(staged, done, orphans, a)
  }

  /** The delete list names each seen account once. */
  ghost predicate Listed(seen: set<Account>, deletes: seq<PendingDelete>) {
    && (forall i :: 0 <= i < |deletes| ==> deletes[i].account in seen)
    && (forall a :: a in seen ==> exists i :: 0 <= i < |deletes| && deletes[i].account == a)
    && (forall i, j :: 0 <= i < j < |deletes| ==> deletes[i].account != deletes[j].account)
  }

  /** Every visited field that stayed in plaintext has its cause in the trace, and
      one that already had a reference stayed only because the keychain is
      switched off. */
  ghost predicate DeclinesDone(view: View, staged: map<Key, Account>, done: set<Key>, declined: map<Key, nat>, trace: seq<Step>, start: nat) {
    && (forall k :: k in done && k in view.secrets && view.NeedsAccount(k) && k !in staged ==> k in declined)
    && (forall k :: k in declined ==>
          && k in done && k in view.secrets && view.NeedsAccount(k) && k !in staged
          && start < declined[k] <= |trace|
          && Excused(view, k, trace[..declined[k]]))
  }

  ghost predicate Excused(view: View, key: Key, trace: seq<Step>)
    requires key in view.secrets
  {
    if key in view.states then DeclinedBy(trace, BindingAt(view.secrets, key), Some(Disabled))
    else exists cause :: DeclinedBy(trace, BindingAt(view.secrets, key), cause)
  }

  ghost predicate FlagsDone(view: View, declined: map<Key, nat>, plaintextFallback: bool, abandonedGeneration: bool) {
    && plaintextFallback == (declined.Keys != {})
    && abandonedGeneration == (declined.Keys * view.states.Keys != {})
  }

  lemma FlagsStep(view: View, declined: map<Key, nat>, plaintextFallback: bool, abandonedGeneration: bool, key: Key, at: nat)
    requires FlagsDone(view, declined, plaintextFallback, abandonedGeneration)
    ensures FlagsDone(view, declined[key := at], true, abandonedGeneration || key in view.states)
  {
    var after := declined[key := at];
    assert key in after.Keys;
    assert after.Keys * view.states.Keys == declined.Keys * view.states.Keys + (if key in view.states then {key} else {});
  }

  lemma CalmExtended(before: seq<Step>, after: seq<Step>, from: nat, base: Entries, middle: Entries, visible: Image, durable: Image)
    requires before <= after && Calm(before, from, base, visible, durable)
    requires Calm(after, |before|, middle, visible, durable) && Extends(middle, base)
    ensures Calm(after, from, base, visible, durable)
  {
  }

  lemma DeclinesKept(view: View, staged: map<Key, Account>, done: set<Key>, declined: map<Key, nat>, before: seq<Step>, after: seq<Step>, start: nat)
    requires before <= after && DeclinesDone(view, staged, done, declined, before, start)
    ensures DeclinesDone(view, staged, done, declined, after, start)
  {
    forall k | k in declined ensures Excused(view, k, after[..declined[k]]) {
      assert after[..declined[k]] == before[..declined[k]];
    }
  }

  lemma Unvisited(view: View, staged: map<Key, Account>, done: set<Key>, secrets: Secrets, swaps: seq<Swap>, key: Key)
    requires MemoryDone(view, staged, done, secrets, swaps) && key in view.secrets && key !in done
    ensures secrets.Keys == view.secrets.Keys && secrets[key] == view.secrets[key]
    ensures Undoable(view, secrets, swaps)
  {
  }

  lemma Domain(view: View, staged: map<Key, Account>, done: set<Key>, secrets: Secrets, swaps: seq<Swap>)
    requires MemoryDone(view, staged, done, secrets, swaps)
    ensures secrets.Keys == view.secrets.Keys
  {
  }

  lemma CarryStep(view: View, staged: map<Key, Account>, done: set<Key>, secrets: Secrets, swaps: seq<Swap>, key: Key)
    requires MemoryDone(view, staged, done, secrets, swaps) && key in view.secrets && key !in done && view.Carried(key)
    ensures MemoryDone(view, staged, done + {key},
              secrets[key := secrets[key].(text := view.states[key].sentinel)], swaps + [Swap(key, secrets[key].text)])
  {
  }

  lemma PassStep(view: View, staged: map<Key, Account>, done: set<Key>, secrets: Secrets, swaps: seq<Swap>, key: Key)
    requires MemoryDone(view, staged, done, secrets, swaps) && key in view.secrets && key !in done && !view.Carried(key) && key !in staged
    ensures MemoryDone(view, staged, done + {key}, secrets, swaps)
  {
  }

  lemma OrphanStep(view: View, staged: map<Key, Account>, orphans: set<Key>, seen: set<Account>, key: Key)
    requires view.WellFormed() && key in view.states && DoomedDone(view, staged, {}, orphans, seen)
    ensures var doomed := key !in view.secrets && view.states[key].Deletable();
            DoomedDone(view, staged, {}, orphans + {key},
              seen + (if doomed && view.states[key].account.Some? then {view.states[key].account.value} else {}))
  {
  }

  /** A visit that stages nothing: it dooms the field's account exactly when the
      field was cleared. */
  lemma VisitQuietly(view: View, base: Entries, staged: map<Key, Account>, done: set<Key>, seen: set<Account>, declined: map<Key, nat>, trace: seq<Step>, start: nat, key: Key)
    requires view.WellFormed() && key in view.secrets && key !in done && !view.NeedsAccount(key)
    requires StagedDone(view, base, staged, done) && DoomedDone(view, staged, done, view.states.Keys, seen)
    requires DeclinesDone(view, staged, done, declined, trace, start)
    ensures key !in staged && StagedDone(view, base, staged, done + {key})
    ensures DeclinesDone(view, staged, done + {key}, declined, trace, start)
    ensures var doomed := !view.Carried(key) && view.secrets[key].text.Empty? && key in view.states && view.states[key].Deletable();
            DoomedDone(view, staged, done + {key}, view.states.Keys,
              seen + (if doomed && view.states[key].account.Some? then {view.states[key].account.value} else {}))
  {
  }

  lemma StagedOnlyVisited(view: View, base: Entries, staged: map<Key, Account>, done: set<Key>)
    requires StagedDone(view, base, staged, done)
    ensures staged.Keys <= done
  {
  }

  lemma DeclineStep(view: View, base: Entries, staged: map<Key, Account>, done: set<Key>, seen: set<Account>, declined: map<Key, nat>, trace: seq<Step>, start: nat, key: Key, fallback: Option<StoreError>)
    requires key in view.secrets && key !in done && view.NeedsAccount(key)
    requires StagedDone(view, base, staged, done) && DoomedDone(view, staged, done, view.states.Keys, seen)
    requires DeclinesDone(view, staged, done, declined, trace, start)
    requires |trace| > start && DeclinedBy(trace, BindingAt(view.secrets, key), fallback)
    requires key in view.states ==> fallback == Some(Disabled)
    ensures StagedDone(view, base, staged, done + {key})
    ensures DeclinesDone(view, staged, done + {key}, declined[key := |trace|], trace, start)
    ensures DoomedDone(view, staged, done + {key}, view.states.Keys, seen)
  {
    assert trace[..|trace|] == trace;
  }

  lemma StagedMemory(view: View, staged: map<Key, Account>, done: set<Key>, secrets: Secrets, swaps: seq<Swap>, key: Key, account: Account)
    requires key in view.secrets && key !in done && view.NeedsAccount(key)
    requires MemoryDone(view, staged, done, secrets, swaps)
    ensures MemoryDone(view, staged[key := account], done + {key},
              secrets[key := secrets[key].(text := Bound(account))], swaps + [Swap(key, secrets[key].text)])
  {
  }

  lemma StagedStore(view: View, base: Entries, staged: map<Key, Account>, done: set<Key>, writes: seq<Account>, strays: set<Account>, entries: Entries, key: Key, account: Account)
    requires key in view.secrets && key !in done && view.NeedsAccount(key)
    requires StagedDone(view, base, staged, done)
    requires StoreDone(view, base, staged, writes, strays, entries)
    requires account.binding == BindingAt(view.secrets, key) && account !in entries
    ensures StagedDone(view, base, staged[key := account], done + {key})
    ensures StoreDone(view, base, staged[key := account], writes + [account], strays, entries[account := view.secrets[key].text])
  {
    var after := entries[account := view.secrets[key].text];
    assert Extends(after, base);
    assert Withdrawable(base, writes + [account], strays, after);
  }

  lemma StoreExtends(view: View, base: Entries, staged: map<Key, Account>, done: set<Key>, writes: seq<Account>, strays: set<Account>, entries: Entries)
    requires StoreDone(view, base, staged, writes, strays, entries) && StagedDone(view, base, staged, done)
    ensures Extends(entries, base) && staged.Keys <= done
  {
  }

  /** What a staging attempt leaves of the books. */
  /** Why a write is refused once every field can be written: four generations in a row
      were taken, the random source failed, or the store did. */
  ghost predicate Caused(why: Refusal, steady: bool, trace: seq<Step>, from: nat) {
    why.NoFreshGeneration? || !steady || !Smooth(trace, from)
  }

  lemma NeedsBinding(view: View, key: Key)
    requires key in view.secrets && view.NeedsAccount(key) && !view.Refuses(key)
    ensures BindingAt(view.secrets, key).Valid()
  {
  }

  lemma AttemptKeepsBooks(view: View, base: Entries, staged: map<Key, Account>, books: Ledger, after: Ledger, before: seq<Step>, trace: seq<Step>, start: nat, result: Staging, binding: Binding, value: Text, fallback: Option<StoreError>)
    requires StoreDone(view, base, staged, books.writes, books.strays, books.entries)
    requires StraysKnown(books.strays, before, start) && StraysAll(books.strays, before, start)
    requires before <= trace && start <= |before| && Extends(books.entries, base)
    requires Attempted(binding, value, result, books, after, trace, |before|, fallback)
    ensures StraysKnown(after.strays, trace, start) && StraysAll(after.strays, trace, start) && result != Failed(UnwritableField)
    ensures !result.Staged? ==> Withdrawable(base, after.writes, after.strays, after.entries)
    ensures result.Declined? || (result.Failed? && result.why !in {NoReference, NoFreshGeneration}) ==> !Smooth(trace, |before|)
    ensures result.Declined? ==>
              && StoreDone(view, base, staged, after.writes, after.strays, after.entries)
              && |trace| > |before| && DeclinedBy(trace, binding, fallback)
    ensures result.Staged? ==>
              && binding.Valid() && result.account.binding == binding && result.account !in books.entries
              && after == Ledger(books.entries[result.account := value], books.writes + [result.account], books.strays)
  {
    hide DeclinedBy, StoredAllTheSame, Smooth;
    ExtendsTransitive(after.entries, books.entries, base);
    StraysKept(books.strays, after.strays, before, trace, start);
    StraysGrow(books.strays, after.strays, before, trace, start);
    if result.Declined? {
      StrayStore(view, base, staged, books.writes, books.strays, after.strays, books.entries, after.entries);
    }
  }

  /** A declined or failed attempt adds at most a stray. */
  lemma StrayStore(view: View, base: Entries, staged: map<Key, Account>, writes: seq<Account>, strays: set<Account>, more: set<Account>, entries: Entries, after: Entries)
    requires StoreDone(view, base, staged, writes, strays, entries)
    requires Extends(after, entries) && strays <= more && forall a :: a in after ==> a in entries || a in writes || a in more
    requires forall a :: a in more ==> a in strays || (a !in entries && a in after)
    ensures StoreDone(view, base, staged, writes, more, after)
  {
    ExtendsTransitive(after, entries, base);
  }

  lemma StagedVisit(view: View, staged: map<Key, Account>, done: set<Key>, seen: set<Account>, declined: map<Key, nat>, trace: seq<Step>, start: nat, key: Key, account: Account)
    requires view.WellFormed() && key in view.secrets && key !in done && view.NeedsAccount(key) && key !in staged
    requires DoomedDone(view, staged, done, view.states.Keys, seen)
    requires DeclinesDone(view, staged, done, declined, trace, start)
    ensures DeclinesDone(view, staged[key := account], done + {key}, declined, trace, start)
    ensures var doomed := key in view.states && view.states[key].Deletable() && view.states[key].account != Some(account);
            DoomedDone(view, staged[key := account], done + {key}, view.states.Keys,
              seen + (if doomed && view.states[key].account.Some? then {view.states[key].account.value} else {}))
  {
  }

  function Accounts(deletes: seq<PendingDelete>): set<Account> {
    set i | 0 <= i < |deletes| :: deletes[i].account
  }

  lemma AccountsStep(deletes: seq<PendingDelete>, i: nat)
    requires i < |deletes|
    ensures Accounts(deletes[..i + 1]) == Accounts(deletes[..i]) + {deletes[i].account}
    ensures Accounts(deletes[..i + 1]) <= Accounts(deletes)
  {
    assert deletes[..i + 1] == deletes[..i] + [deletes[i]];
  }

  lemma ListedOnce(seen: set<Account>, deletes: seq<PendingDelete>)
    requires Listed(seen, deletes)
    ensures forall i, j :: 0 <= i < j < |deletes| ==> deletes[i].account != deletes[j].account
  {
  }

  lemma WithinAll(deletes: seq<PendingDelete>, count: nat)
    requires count <= |deletes|
    ensures Accounts(deletes[..count]) <= Accounts(deletes)
    ensures forall i :: 0 <= i < count ==> deletes[i].account in Accounts(deletes[..count])
  {
    forall i | 0 <= i < count ensures deletes[i].account in Accounts(deletes[..count]) {
      assert deletes[..count][i] == deletes[i];
    }
  }

  lemma NoAccounts(deletes: seq<PendingDelete>)
    ensures Accounts(deletes[..0]) == {}
  {
  }

  lemma ListedAccounts(seen: set<Account>, deletes: seq<PendingDelete>)
    requires Listed(seen, deletes)
    ensures Accounts(deletes) == seen && deletes[..|deletes|] == deletes
  {
  }

  /** Anything the keychain holds beyond `base` survived a delete that reported an
      error, or was stored by a Set that reported one. */
  ghost predicate Explained(entries: Entries, base: Entries, trace: seq<Step>, from: nat) {
    forall a :: a in entries && a !in base ==> LeftBehind(trace, from, a) || StoredAllTheSame(trace, from, a)
  }

  /** The keychain kept `base`, and what else it holds is explained. */
  ghost predicate Withdrawn(entries: Entries, base: Entries, trace: seq<Step>, from: nat) {
    Extends(entries, base) && Explained(entries, base, trace, from)
  }

  /** Since `from`, only doomed accounts moved, and neither file image did. */
  ghost predicate OnlyDoomedMoved(trace: seq<Step>, from: nat, base: Entries, doomed: set<Account>, visible: Image, durable: Image) {
    forall i :: from <= i < |trace| ==>
      trace[i].visible == visible && trace[i].durable == durable && AgreeOutside(trace[i].entries, base, doomed)
  }

  lemma ExplainedAtLast(base: Entries, writes: seq<Account>, strays: set<Account>, before: Entries, after: Entries, trace: seq<Step>, from: nat, mark: nat)
    requires forall a :: a in before ==> a in base || a in writes || a in strays
    requires StraysKnown(strays, trace, from) && from <= mark <= |trace|
    requires forall a :: a in after ==> a in before && after[a] == before[a]
    requires forall a :: a in after && a in writes ==> LeftBehind(trace, mark, a)
    ensures Explained(after, base, trace, from)
  {
    forall a | a in after && a !in base ensures LeftBehind(trace, from, a) || StoredAllTheSame(trace, from, a) {
      assert a in writes ==> LeftBehind(trace, mark, a);
    }
  }

  /** What a configuration knows about the file it was computed from. */
  datatype Origin = Revision(document: Document) | NoFile | Unstated

  /** The configuration object a write works on. */
  class Config {
    var source: string
    var body: string
    var secrets: Secrets
    var states: map<Key, FieldState>
    var mutations: set<Key>
    var origin: Origin

    constructor (source: string, body: string, secrets: Secrets, states: map<Key, FieldState>, mutations: set<Key>, origin: Origin)
      ensures this.source == source && this.body == body && this.secrets == secrets && this.states == states
      ensures this.mutations == mutations && this.origin == origin
    {
      this.source, this.body, this.secrets, this.states := source, body, secrets, states;
      this.mutations, this.origin := mutations, origin;
    }

    function Snapshot(): View
      reads this
    {
      View(secrets, states, mutations)
    }

    method SetText(key: Key, text: Text)
      requires key in secrets
      modifies this`secrets
      ensures secrets == old(secrets)[key := old(secrets)[key].(text := text)]
    {
      secrets := secrets[key := secrets[key].(text := text)];
    }
  }

  class Transaction {
    const world: World
    const config: Config
    /** The random source does not fail. */
    const steady: bool
    var swaps: seq<Swap>
    var writes: seq<Account>
    var deletes: seq<PendingDelete>
    var seen: set<Account>
    var plaintextFallback: bool
    var fallback: Option<StoreError>
    var abandonedGeneration: bool

    /** The write's starting point, and which fields got an account or were
        declined (with the length of the trace that declined them). */
    ghost const view: View
    ghost const base: Entries
    ghost const start: nat
    ghost var staged: map<Key, Account>
    ghost var declined: map<Key, nat>
    /** Accounts stored by a Set that reported an error; no record keeps them. */
    ghost var strays: set<Account>

    constructor (world: World, config: Config, steady: bool)
      ensures this.world == world && this.config == config && this.steady == steady
      ensures swaps == [] && writes == [] && deletes == [] && seen == {}
      ensures !plaintextFallback && fallback.None? && !abandonedGeneration
      ensures view == config.Snapshot() && base == world.entries && start == |world.trace|
      ensures staged == map[] && declined == map[] && strays == {}
    {
      this.world, this.config, this.steady := world, config, steady;
      swaps, writes, deletes, seen := [], [], [], {};
      plaintextFallback, fallback, abandonedGeneration := false, None, false;
      view, base, start := config.Snapshot(), world.entries, |world.trace|;
      staged, declined, strays := map[], map[], {};
    }

    /** The staging half of a write, as far as `done` and `orphans` go. */
    ghost predicate Progress(done: set<Key>, orphans: set<Key>)
      reads this, world, config
    {
      && view.WellFormed() && (forall k :: k in view.secrets ==> !view.Refuses(k))
      && config.states == view.states && config.mutations == view.mutations
      && start <= |world.trace|
      && Calm(world.trace, start, base, world.visible, world.durable)
      && MemoryDone(view, staged, done, config.secrets, swaps)
      && StagedDone(view, base, staged, done)
      && StoreDone(view, base, staged, writes, strays, world.entries)
      && StraysKnown(strays, world.trace, start) && StraysAll(strays, world.trace, start)
      && DoomedDone(view, staged, done, orphans, seen)
      && Listed(seen, deletes)
      && DeclinesDone(view, staged, done, declined, world.trace, start)
      && FlagsDone(view, declined, plaintextFallback, abandonedGeneration)
    }

    /** Enough to abandon the write: memory and keychain can both be undone. */
    ghost predicate Abandonable()
      reads this, world, config
    {
      && start <= |world.trace|
      && Calm(world.trace, start, base, world.visible, world.durable)
      && Undoable(view, config.secrets, swaps)
      && Withdrawable(base, writes, strays, world.entries) && StraysKnown(strays, world.trace, start)
    }

    method SwapIn(key: Key, text: Text)
      requires key in config.secrets
      modifies this`swaps, config`secrets
      ensures swaps == old(swaps) + [Swap(key, old(config.secrets)[key].text)]
      ensures config.secrets == old(config.secrets)[key := old(config.secrets)[key].(text := text)]
    {
      swaps := swaps + [Swap(key, config.secrets[key].text)];
      config.SetText(key, text);
    }

    method Restore()
      requires Undoable(view, config.secrets, swaps)
      modifies config`secrets
      ensures config.secrets == view.secrets
    {
      for i := 0 to |swaps|
        invariant config.secrets.Keys == view.secrets.Keys
        invariant forall k :: k in view.secrets ==> config.secrets[k].destination == view.secrets[k].destination
        invariant forall k :: k in view.secrets && config.secrets[k].text != view.secrets[k].text ==>
                    Swap(k, view.secrets[k].text) in swaps[i..]
      {
        config.SetText(swaps[i].key, swaps[i].text);
      }
    }

    method DeferDelete(account: Option<Account>)
      modifies this`seen, this`deletes
      ensures seen == old(seen) + (if account.Some? then {account.value} else {})
      ensures Listed(old(seen), old(deletes)) ==> Listed(seen, deletes)
    {
      if account.None? || account.value in seen {
        return;
      }
      seen := seen + {account.value};
      deletes := deletes + [PendingDelete(account.value, Empty, false)];
      if Listed(old(seen), old(deletes)) {
        forall a | a in seen ensures exists i :: 0 <= i < |deletes| && deletes[i].account == a {
          if a == account.value {
            assert deletes[|deletes| - 1].account == a;
          } else {
            var i :| 0 <= i < |old(deletes)| && old(deletes)[i].account == a;
            assert deletes[i].account == a;
          }
        }
      }
    }

    /** Deletes the newest staged account. The record is kept unless the store
        confirmed that the account is gone. */
    method DiscardLastStagedWrite() returns (error: Option<StoreError>)
      modifies this`writes, world`entries, world`trace
      ensures |old(writes)| == 0 ==>
                error == Some(OtherFailure) && writes == [] && world.entries == old(world.entries) && world.trace == old(world.trace)
      ensures |old(writes)| > 0 ==>
              var last := old(writes)[|old(writes)| - 1];
              && world.trace == old(world.trace) + [Step(Removed(last, error), world.entries, world.visible, world.durable)]
              && (world.entries == old(world.entries) || world.entries == old(world.entries) - {last})
              && (if error.None? || error == Some(NotFound)
                  then last !in world.entries && writes == old(writes)[..|old(writes)| - 1]
                  else writes == old(writes))
    {
      if |writes| == 0 {
        return Some(OtherFailure);
      }
      var last := writes[|writes| - 1];
      error := world.Delete(last);
      if error.None? || error.value.NotFound? {
        writes := writes[..|writes| - 1];
      }
    }

    /** Creates one generation of `binding` holding `value` and reads it back. */
    method StageBoundSet(binding: Binding, value: Text) returns (result: Staging)
      requires fallback.None?
      modifies this`writes, this`fallback, this`strays, world`entries, world`trace
      ensures StagingSteps(binding, value, result)
      ensures steady && binding.Valid() ==> result != Failed(NoReference)
      ensures result == Failed(NoFreshGeneration) ==>
                |world.trace| == |old(world.trace)| + 4 && forall i :: |old(world.trace)| <= i < |world.trace| ==> FoundTaken(world.trace[i], binding)
    {
      hide Attempted, Calm, NoneRefused, Follows, Extends;
      ghost var from, books := |world.trace|, Books();
      CalmStart(world.trace, world.entries, world.visible, world.durable);
      for attempt := 0 to 4
        invariant fallback.None? && old(world.trace) <= world.trace
        invariant world.entries == old(world.entries) && writes == old(writes) && strays == old(strays)
        invariant Calm(world.trace, |old(world.trace)|, old(world.entries), world.visible, world.durable)
        invariant NoneRefused(world.trace, |old(world.trace)|) && |world.trace| == |old(world.trace)| + attempt
        invariant forall i :: |old(world.trace)| <= i < |world.trace| ==> FoundTaken(world.trace[i], binding)
      {
        var entropy: bool := *;
        if !binding.Valid() || !(entropy || steady) {
          ReadOnlyAttempt(binding, value, Failed(NoReference), books, world.trace, from, fallback);
          return Failed(NoReference);
        }
        ghost var before := world.trace;
        var generation: nat := *;
        var account := Account(binding, generation);
        var _, inspected := world.Get(account);
        assert Extends(world.entries, old(world.entries)) by { ExtendsItself(world.entries); }
        CalmOne(before, world.trace, from, old(world.entries), world.visible, world.durable);
        if inspected.None? {
          continue;
        }
        if inspected.value.NotFound? {
          before := world.trace;
          result := StoreAndVerify(account, value);
          AttemptSince(binding, value, result, old(Books()), Books(), before, world.trace, |old(world.trace)|, fallback);
          assert Extends(old(world.entries), old(world.entries)) by { ExtendsItself(old(world.entries)); }
          CalmExtended(before, world.trace, from, old(world.entries), old(world.entries), world.visible, world.durable);
          return;
        }
        if inspected.value.IsUnavailable() {
          fallback := inspected;
          ReadOnlyAttempt(binding, value, Declined, books, world.trace, from, fallback);
          return Declined;
        }
        ReadOnlyAttempt(binding, value, Failed(NotInspected(inspected.value)), books, world.trace, from, fallback);
        return Failed(NotInspected(inspected.value));
      }
      ReadOnlyAttempt(binding, value, Failed(NoFreshGeneration), books, world.trace, from, fallback);
      return Failed(NoFreshGeneration);
    }

    ghost function Books(): Ledger
      reads this, world
    {
      Ledger(world.entries, writes, strays)
    }

    /** What a staging attempt may have done, whatever its result. */
    twostate predicate StagingSteps(binding: Binding, value: Text, result: Staging)
      reads this, world
    {
      && old(world.trace) <= world.trace
      && Calm(world.trace, |old(world.trace)|, old(world.entries), world.visible, world.durable)
      && Attempted(binding, value, result, old(Books()), Books(), world.trace, |old(world.trace)|, fallback)
    }

    /** The part of staging that follows the discovery of a free generation. A Set
        that is refused leaves no record, even when it stored the value. */
    method StoreAndVerify(account: Account, value: Text) returns (result: Staging)
      requires fallback.None? && account !in world.entries && account.binding.Valid()
      modifies this`writes, this`strays, world`entries, world`trace
      ensures StagingSteps(account.binding, value, result)
      ensures result != Failed(NoReference) && result != Failed(NoFreshGeneration)
    {
      hide Follows, Attempted, DeclinedBy, Extends, Smooth, Faulty, Calm, NoneRefused;
      ghost var before, from := Books(), |world.trace|;
      CalmStart(world.trace, world.entries, world.visible, world.durable);
      var refused := world.Set(account, value);
      ExtendsButOne(world.entries, old(world.entries), account);
      CalmOne(old(world.trace), world.trace, from, old(world.entries), world.visible, world.durable);
      if refused.Some? {
        if account in world.entries {
          strays := strays + {account};
        }
        RefusedAttempt(account, value, before, Books(), world.trace, from);
        return if refused.value.IsUnavailable() then Declined else Failed(NotStored(refused.value));
      }
      writes := writes + [account];
      ghost var put := world.trace;
      var stored, unreadable := world.Get(account);
      CalmOne(put, world.trace, from, old(world.entries), world.visible, world.durable);
      FirstPutKept(world.trace, from);
      if unreadable.None? && stored == value {
        KeptAttempt(account, value, before, Books(), world.trace, from, fallback);
        return Staged(account);
      }
      ghost var read := world.trace;
      UnverifiedIsFaulty(account, value, stored, unreadable, world.entries, put, read, from);
      var failure := DiscardLastStagedWrite();
      FaultStays(read, world.trace, from, from);
      ExtendsButOne(world.entries, old(world.entries), account);
      CalmOne(read, world.trace, from, old(world.entries), world.visible, world.durable);
      FirstPutKept(world.trace, from);
      if failure.Some? && !failure.value.NotFound? {
        UncleanAttempt(account, value, before, Books(), world.trace, from, fallback);
        return Failed(NotCleanedUp);
      }
      CleanAttempt(account, value, unreadable, before, Books(), world.trace, from);
      return if unreadable.Some? && (unreadable.value.IsUnavailable() || unreadable.value.NotFound?) then Declined else Failed(NotVerified);
    }

    /** Withdraws the staged accounts, newest first, as far as the store lets it. */
    method Rollback()
      modifies world`entries, world`trace
      ensures old(world.trace) <= world.trace
      ensures Calm(world.trace, |old(world.trace)|, old(world.entries) - (set a | a in writes), world.visible, world.durable)
      ensures Shrinks(world.trace, |old(world.trace)|, old(world.entries))
      ensures forall a :: a in old(world.entries) && a !in writes ==> a in world.entries
      ensures forall a :: a in world.entries ==> a in old(world.entries) && world.entries[a] == old(world.entries)[a]
      ensures forall a :: a in world.entries && a in writes ==> LeftBehind(world.trace, |old(world.trace)|, a)
    {
      var i := |writes|;
      ghost var from := |old(world.trace)|;
      while i > 0
        invariant 0 <= i <= |writes|
        invariant old(world.trace) <= world.trace
        invariant Calm(world.trace, from, old(world.entries) - (set a | a in writes), world.visible, world.durable)
        invariant Shrinks(world.trace, from, old(world.entries))
        invariant forall a :: a in old(world.entries) && a !in writes ==> a in world.entries
        invariant forall a :: a in world.entries ==> a in old(world.entries) && world.entries[a] == old(world.entries)[a]
        invariant forall j :: i <= j < |writes| && writes[j] in world.entries ==> LeftBehind(world.trace, from, writes[j])
      {
        i := i - 1;
        ghost var before := world.trace;
        var error := world.Delete(writes[i]);
        assert world.trace[|before|].event == Removed(writes[i], error);
        forall j | i <= j < |writes| && writes[j] in world.entries
          ensures LeftBehind(world.trace, from, writes[j])
        {
          if writes[j] != writes[i] {
            var p :| from <= p < |before| && before[p].event.Removed? && before[p].event.account == writes[j] && before[p].event.error.Some?;
            assert world.trace[p] == before[p];
          }
        }
      }
    }

    /** Reads every account about to be deleted, so that it can be put back. */
    method PreflightDeletes() returns (ready: bool)
      requires Listed(seen, deletes)
      modifies this`deletes, world`trace
      ensures Listed(seen, deletes) && old(world.trace) <= world.trace
      ensures Calm(world.trace, |old(world.trace)|, world.entries, world.visible, world.durable)
      ensures NoneRefused(world.trace, |old(world.trace)|)
      ensures if ready then Captured() else !Smooth(world.trace, |old(world.trace)|)
    {
      for i := 0 to |deletes|
        invariant |deletes| == |old(deletes)|
        invariant forall j :: 0 <= j < |deletes| ==> deletes[j].account == old(deletes)[j].account
        invariant forall j :: 0 <= j < i ==> Captures(deletes[j], world.entries)
        invariant old(world.trace) <= world.trace
        invariant Calm(world.trace, |old(world.trace)|, world.entries, world.visible, world.durable)
        invariant NoneRefused(world.trace, |old(world.trace)|)
      {
        var account := deletes[i].account;
        var value, error := world.Get(account);
        if error.None? {
          deletes := deletes[i := PendingDelete(account, value, true)];
        } else if !error.value.NotFound? {
          assert Faulty(world.trace[|world.trace| - 1]);
          assert Listed(seen, deletes) by { ListingKept(old(deletes), deletes, seen); }
          return false;
        } else {
          deletes := deletes[i := PendingDelete(account, Empty, false)];
        }
      }
      assert Listed(seen, deletes) by { ListingKept(old(deletes), deletes, seen); }
      return true;
    }

    /** Fields that vanished from the configuration lose their accounts. */
    method RetireOrphans()
      requires Progress({}, {})
      modifies this`seen, this`deletes
      ensures Progress({}, view.states.Keys)
    {
      hide MemoryDone, StagedDone, StoreDone, DoomedDone, Listed, DeclinesDone, FlagsDone, Calm, View.WellFormed, View.Refuses;
      Domain(view, staged, {}, config.secrets, swaps);
      var remaining := config.states.Keys;
      ghost var visited: set<Key> := {};
      while remaining != {}
        invariant visited + remaining == view.states.Keys && visited !! remaining
        invariant Progress({}, visited)
      {
        var key :| key in remaining;
        remaining := remaining - {key};
        OrphanStep(view, staged, visited, seen, key);
        if key !in config.secrets && config.states[key].Deletable() {
          DeferDelete(config.states[key].account);
        } else {
          assert seen == seen + {};
        }
        visited := visited + {key};
      }
      assert visited == view.states.Keys;
    }

    /** An untouched field is written back as its reference. */
    method CarrySlot(key: Key, ghost done: set<Key>)
      requires Progress(done, view.states.Keys) && key in config.secrets && key !in done && view.Carried(key)
      modifies this`swaps, config`secrets
      ensures Progress(done + {key}, view.states.Keys)
    {
      CarryStep(view, staged, done, config.secrets, swaps, key);
      VisitQuietly(view, base, staged, done, seen, declined, world.trace, start, key);
      SwapIn(key, config.states[key].sentinel);
    }

    /** A cleared field gives up its account; a reference kept in memory stays. */
    method PassSlot(key: Key, ghost done: set<Key>)
      requires Progress(done, view.states.Keys) && key in config.secrets && key !in done
      requires !view.Carried(key) && !view.secrets[key].text.Plain?
      modifies this`seen, this`deletes
      ensures Progress(done + {key}, view.states.Keys)
    {
      PassStep(view, staged, done, config.secrets, swaps, key);
      VisitQuietly(view, base, staged, done, seen, declined, world.trace, start, key);
      if config.secrets[key].text.Empty? && key in config.states && config.states[key].Deletable() {
        DeferDelete(config.states[key].account);
      }
    }

    /** Plaintext gets a fresh account, or stays where the store lets it stay. */
    method StageSlot(key: Key, ghost done: set<Key>) returns (refusal: Option<Refusal>)
      requires Progress(done, view.states.Keys)
      requires key in view.secrets && key !in done && view.NeedsAccount(key)
      modifies this, config`secrets, world`entries, world`trace
      ensures old(world.trace) <= world.trace
      ensures refusal.None? ==> Progress(done + {key}, view.states.Keys)
      ensures refusal.Some? ==> Abandonable() && !refusal.value.UnwritableField?
      ensures refusal.Some? ==> Caused(refusal.value, steady, world.trace, |old(world.trace)|)
    {
      hide MemoryDone, StagedDone, StoreDone, DoomedDone, Listed, DeclinesDone, FlagsDone, View.WellFormed, View.Refuses, DeclinedBy,
        Attempted, Withdrawable, StraysKnown, StraysAll, Smooth, Faulty;
      NeedsBinding(view, key);
      refusal := None;
      fallback := None;
      ghost var before, books := world.trace, Books();
      Unvisited(view, staged, done, config.secrets, swaps, key);
      StoreExtends(view, base, staged, done, writes, strays, world.entries);
      var result := StageBoundSet(BindingAt(config.secrets, key), config.secrets[key].text);
      CalmExtended(before, world.trace, start, base, old(world.entries), world.visible, world.durable);
      DeclinesKept(view, staged, done, declined, before, world.trace, start);
      AttemptKeepsBooks(view, base, staged, books, Books(), before, world.trace, start, result, BindingAt(view.secrets, key), view.secrets[key].text, fallback);
      match result
      case Failed(why) =>
        refusal := Some(why);
      case Declined =>
        if key in config.states && fallback != Some(Disabled) {
          refusal := Some(ReferenceProtected);
        } else {
          RecordDecline(key, done);
        }
      case Staged(account) =>
        StagedStore(view, base, staged, done, old(writes), strays, old(world.entries), key, account);
        RecordStaged(key, account, done);
    }

    method RecordDecline(key: Key, ghost done: set<Key>)
      requires Progress(done, view.states.Keys) && key in view.secrets && key !in done && view.NeedsAccount(key)
      requires |world.trace| > start && DeclinedBy(world.trace, BindingAt(view.secrets, key), fallback)
      requires key in config.states ==> fallback == Some(Disabled)
      modifies this`abandonedGeneration, this`plaintextFallback, this`declined
      ensures Progress(done + {key}, view.states.Keys)
    {
      hide MemoryDone, StagedDone, StoreDone, DoomedDone, Listed, DeclinesDone, Calm, View.WellFormed, View.Refuses, DeclinedBy, FlagsDone;
      assert key !in staged by { StagedOnlyVisited(view, base, staged, done); }
      PassStep(view, staged, done, config.secrets, swaps, key);
      DeclineStep(view, base, staged, done, seen, declined, world.trace, start, key, fallback);
      FlagsStep(view, declined, plaintextFallback, abandonedGeneration, key, |world.trace|);
      abandonedGeneration := abandonedGeneration || key in config.states;
      plaintextFallback := true;
      declined := declined[key := |world.trace|];
    }

    method RecordStaged(key: Key, account: Account, ghost done: set<Key>)
      requires view.WellFormed() && (forall k :: k in view.secrets ==> !view.Refuses(k))
      requires config.states == view.states && config.mutations == view.mutations
      requires start <= |world.trace| && Calm(world.trace, start, base, world.visible, world.durable)
      requires key in view.secrets && key !in done && key !in staged && view.NeedsAccount(key) && key in config.secrets
      requires MemoryDone(view, staged, done, config.secrets, swaps)
      requires DoomedDone(view, staged, done, view.states.Keys, seen) && Listed(seen, deletes)
      requires DeclinesDone(view, staged, done, declined, world.trace, start)
      requires FlagsDone(view, declined, plaintextFallback, abandonedGeneration)
      requires StagedDone(view, base, staged[key := account], done + {key})
      requires StoreDone(view, base, staged[key := account], writes, strays, world.entries)
      requires StraysKnown(strays, world.trace, start) && StraysAll(strays, world.trace, start)
      modifies this`staged, this`seen, this`deletes, this`swaps, config`secrets
      ensures Progress(done + {key}, view.states.Keys)
    {
      hide MemoryDone, StagedDone, StoreDone, DoomedDone, Listed, DeclinesDone, FlagsDone, Calm, View.WellFormed, View.Refuses;
      StagedMemory(view, staged, done, config.secrets, swaps, key, account);
      StagedVisit(view, staged, done, seen, declined, world.trace, start, key, account);
      staged := staged[key := account];
      if key in config.states && config.states[key].Deletable() && config.states[key].account != Some(account) {
        DeferDelete(config.states[key].account);
      } else {
        assert seen == seen + {};
      }
      SwapIn(key, Bound(account));
    }

    /** Reconciles every field of the configuration. */
    method StageAll() returns (refusal: Option<Refusal>)
      requires Progress({}, view.states.Keys)
      modifies this, config`secrets, world`entries, world`trace
      ensures old(world.trace) <= world.trace
      ensures refusal.None? ==> Progress(view.secrets.Keys, view.states.Keys)
      ensures refusal.Some? ==> Abandonable() && !refusal.value.UnwritableField?
      ensures refusal.Some? ==> Caused(refusal.value, steady, world.trace, |old(world.trace)|)
    {
      hide MemoryDone, StagedDone, StoreDone, DoomedDone, Listed, DeclinesDone, FlagsDone, Calm, View.WellFormed, View.Refuses, Smooth;
      ghost var visited: set<Key> := {};
      assert config.secrets.Keys == view.secrets.Keys by { Domain(view, staged, {}, config.secrets, swaps); }
      var remaining := config.secrets.Keys;
      while remaining != {}
        invariant old(world.trace) <= world.trace
        invariant visited !! remaining && visited + remaining == view.secrets.Keys
        invariant Progress(visited, view.states.Keys)
      {
        var key :| key in remaining;
        remaining := remaining - {key};
        Unvisited(view, staged, visited, config.secrets, swaps, key);
        var text := config.secrets[key].text;
        var dirty := key in config.mutations || (key in config.states && text != config.states[key].plaintext);
        if key in config.states && !dirty {
          CarrySlot(key, visited);
        } else if !text.Plain? {
          PassSlot(key, visited);
        } else {
          ghost var mark := |world.trace|;
          refusal := StageSlot(key, visited);
          if refusal.Some? {
            if !Smooth(world.trace, mark) {
              FaultStays(world.trace, world.trace, mark, |old(world.trace)|);
            }
            return;
          }
        }
        visited := visited + {key};
      }
      assert visited == view.secrets.Keys;
      refusal := None;
    }

    /** Undoes the in-memory swaps and withdraws the staged accounts. */
    method Abandon()
      requires Abandonable()
      modifies config`secrets, world`entries, world`trace
      ensures old(world.trace) <= world.trace
      ensures config.secrets == view.secrets
      ensures Withdrawn(world.entries, base, world.trace, start)
      ensures Calm(world.trace, start, base, world.visible, world.durable)
    {
      Restore();
      ghost var before, mark := world.entries, |world.trace|;
      Rollback();
      StraysKept(strays, strays, old(world.trace), world.trace, start);
      ExplainedAtLast(base, writes, strays, before, world.entries, world.trace, start, mark);
      assert Extends(before - (set a | a in writes), base);
      CalmExtended(old(world.trace), world.trace, start, base, before - (set a | a in writes), world.visible, world.durable);
    }

    /** Deletes the doomed accounts. When a delete fails, every account that was
        captured is put back, newest first, and nothing is read back. `removals` counts
        the deletes that were attempted. */
    method Commit() returns (outcome: CommitOutcome, ghost removals: nat)
      requires Listed(seen, deletes) && Captured()
      modifies world`entries, world`trace
      ensures old(world.trace) <= world.trace
      ensures CommitRun(deletes, world.trace, |old(world.trace)|, removals, outcome)
      ensures OnlyDoomedMoved(world.trace, |old(world.trace)|, old(world.entries), seen, world.visible, world.durable)
      ensures AgreeOutside(world.entries, old(world.entries), seen)
      ensures forall a :: a in world.entries ==> a in old(world.entries)
      ensures deletes == [] ==> outcome.Committed?
      ensures !outcome.Committed? ==> !Smooth(world.trace, |old(world.trace)|)
      ensures outcome.Committed? ==> world.entries == old(world.entries) - seen && NoneRefused(world.trace, |old(world.trace)|)
      ensures outcome.RolledBack? ==> AsRestored(world.entries, old(world.entries), world.trace, |old(world.trace)|)
    {
      hide Listed, Accounts, Follows, Restores, AgreeOutside, OnlyDoomedMoved, PutBackFrom, AsRestored, Captures, PutsInOrder, CommitRun;
      ListedAccounts(seen, deletes);
      ListedOnce(seen, deletes);
      ghost var original, from := world.entries, |world.trace|;
      NoAccounts(deletes);
      NothingMoved(world.trace, from, original, seen, world.visible, world.durable);
      for i := 0 to |deletes|
        invariant old(world.trace) <= world.trace && |world.trace| == from + i
        invariant OnlyDoomedMoved(world.trace, from, original, seen, world.visible, world.durable)
        invariant world.entries == original - Accounts(deletes[..i])
        invariant forall t :: from <= t < from + i ==> IsRemoval(world.trace[t], deletes[t - from]) && !Fails(world.trace[t])
      {
        AccountsStep(deletes, i);
        ghost var before := world.trace;
        var error := world.Delete(deletes[i].account);
        AgreeAfterDelete(world.entries, original, Accounts(deletes[..i]), deletes[i].account, Accounts(deletes[..i + 1]), seen);
        MovedOne(before, world.trace, from, original, seen, world.visible, world.durable);
        if error.Some? && !error.value.NotFound? {
          before := world.trace;
          NotPutBackYet(deletes, world.entries, original, before, from, i + 1);
          var complete := PutBack(i + 1, original, from);
          MovesJoin(before, world.trace, from, original, seen, world.visible, world.durable);
          assert Faulty(world.trace[from + i]);
          removals := i + 1;
          outcome := if complete then RolledBack else Unrestored;
          CommitRunIs(deletes, before, world.trace, from, removals, outcome);
          return;
        }
      }
      AgreeAfterAll(world.entries, original, seen);
      outcome, removals := Committed, |deletes|;
      CommitRunIs(deletes, world.trace, world.trace, from, removals, outcome);
    }

    method PutBack(count: nat, ghost original: Entries, ghost from: nat) returns (complete: bool)
      requires count <= |deletes| && Accounts(deletes) == seen && from + count == |world.trace|
      requires forall i :: 0 <= i < |deletes| ==> Captures(deletes[i], original)
      requires forall i, j :: 0 <= i < j < |deletes| ==> deletes[i].account != deletes[j].account
      requires AgreeOutside(world.entries, original, Accounts(deletes[..count]))
      requires PutBackFrom(deletes, count, count, true, world.entries, original, world.trace, from)
      requires forall a :: a in world.entries ==> a in original
      modifies world`entries, world`trace
      ensures old(world.trace) <= world.trace
      ensures OnlyDoomedMoved(world.trace, |old(world.trace)|, original, seen, world.visible, world.durable)
      ensures AgreeOutside(world.entries, original, seen) && forall a :: a in world.entries ==> a in original
      ensures PutsInOrder(deletes, count, world.trace, |old(world.trace)|, complete)
      ensures complete ==> AsRestored(world.entries, original, world.trace, from)
    {
      hide Accounts, Follows, Captures, AgreeOutside, OnlyDoomedMoved, PutBackFrom, AsRestored, Asked, Restores;
      complete := true;
      ghost var mark := |world.trace|;
      AskedNothing(deletes, count, world.trace, mark);
      WithinAll(deletes, count);
      NothingMoved(world.trace, mark, original, seen, world.visible, world.durable);
      var i := count;
      while i > 0
        invariant 0 <= i <= count && old(world.trace) <= world.trace
        invariant Asked(deletes, i, count, world.trace, mark, complete)
        invariant AgreeOutside(world.entries, original, Accounts(deletes[..count]))
        invariant forall a :: a in world.entries ==> a in original
        invariant PutBackFrom(deletes, i, count, complete, world.entries, original, world.trace, from)
        invariant OnlyDoomedMoved(world.trace, mark, original, seen, world.visible, world.durable)
      {
        i := i - 1;
        ghost var entries, before, was := world.entries, world.trace, complete;
        if deletes[i].existed {
          var error := world.Set(deletes[i].account, deletes[i].previous);
          complete := complete && error.None?;
          PutOne(deletes, i, count, was, entries, world.entries, original, before, world.trace, from, error);
          AskedOne(deletes, i, count, before, world.trace, mark, was, error);
          AgreeAfterSet(entries, world.entries, original, deletes, count, i);
          AgreeOutsideMore(world.entries, original, Accounts(deletes[..count]), seen);
          MovedOne(before, world.trace, mark, original, seen, world.visible, world.durable);
        } else {
          SkipOne(deletes, i, count, complete, world.entries, original, world.trace, from);
          AskedSkips(deletes, i, count, world.trace, mark, complete);
        }
      }
      AskedAll(deletes, count, world.trace, mark, complete);
      AllPutBack(deletes, count, complete, world.entries, original, world.trace, from);
    }

    ghost predicate Captured()
      reads this`deletes, world`entries
    {
      forall i :: 0 <= i < |deletes| ==> Captures(deletes[i], world.entries)
    }
  }

  /** Brings keychain and memory into agreement for one encode of the file. On a
      refusal both are as they were, up to deletes the store refused. */
  method Reconcile(config: Config, world: World, steady: bool) returns (transaction: Transaction, refusal: Option<Refusal>)
    requires config.Snapshot().WellFormed()
    modifies config`secrets, world`entries, world`trace
    ensures old(world.trace) <= world.trace
    ensures fresh(transaction) && transaction.world == world && transaction.config == config && transaction.steady == steady
    ensures refusal.Some? ==> refusal.value.UnwritableField? || Caused(refusal.value, steady, world.trace, |old(world.trace)|)
    ensures transaction.view == old(config.Snapshot()) && transaction.base == old(world.entries)
    ensures transaction.start == |old(world.trace)|
    ensures refusal == Some(UnwritableField) <==> exists key :: key in old(config.secrets) && transaction.view.Unwritable(key)
    ensures refusal == Some(UnwritableField) ==> world.trace == old(world.trace)
    ensures refusal.None? ==> transaction.Progress(transaction.view.secrets.Keys, transaction.view.states.Keys)
    ensures refusal.Some? ==>
              && config.secrets == old(config.secrets)
              && Withdrawn(world.entries, old(world.entries), world.trace, |old(world.trace)|)
              && Calm(world.trace, |old(world.trace)|, old(world.entries), world.visible, world.durable)
  {
    hide View.Refuses, View.Unwritable, View.WellFormed, MemoryDone, StagedDone, StoreDone, DoomedDone, Listed, DeclinesDone, FlagsDone, StraysKnown, StraysAll, Smooth;
    transaction := new Transaction(world, config, steady);
    var writable := AllWritable(config.Snapshot());
    forall key | key in config.secrets ensures config.Snapshot().Refuses(key) <==> config.Snapshot().Unwritable(key) {
      config.Snapshot().RefusesExactly(key);
    }
    if !writable {
      return transaction, Some(UnwritableField);
    }
    Started(transaction);
    transaction.RetireOrphans();
    refusal := transaction.StageAll();
    if refusal.Some? {
      ghost var staged := world.trace;
      transaction.Abandon();
      if !Smooth(staged, |old(world.trace)|) {
        FaultStays(staged, world.trace, |old(world.trace)|, |old(world.trace)|);
      }
    }
  }

  lemma Started(transaction: Transaction)
    requires transaction.view.WellFormed() && (forall k :: k in transaction.view.secrets ==> !transaction.view.Refuses(k))
    requires transaction.view == transaction.config.Snapshot() && transaction.base == transaction.world.entries
    requires transaction.start == |transaction.world.trace|
    requires transaction.swaps == [] && transaction.writes == [] && transaction.deletes == [] && transaction.seen == {}
    requires transaction.staged == map[] && transaction.declined == map[] && transaction.strays == {}
    requires !transaction.plaintextFallback && !transaction.abandonedGeneration
    ensures transaction.Progress({}, {})
  {
    hide View.Refuses, View.WellFormed, View.DiskText;
  }

  /** The first pass: a field that must not be written stops everything. */
  method AllWritable(view: View) returns (writable: bool)
    ensures !writable <==> exists key :: key in view.secrets && view.Refuses(key)
  {
    hide View.Refuses;
    var remaining := view.secrets.Keys;
    while remaining != {}
      invariant remaining <= view.secrets.Keys
      invariant forall key :: key in view.secrets && key !in remaining ==> !view.Refuses(key)
    {
      var key :| key in remaining;
      remaining := remaining - {key};
      if view.Refuses(key) {
        return false;
      }
    }
    writable := true;
  }

  /** The store already holds the account. */
  predicate FoundTaken(step: Step, binding: Binding) {
    step.event.Got? && step.event.account.binding == binding && step.event.error.None?
  }

  predicate IsRemoval(step: Step, pending: PendingDelete) {
    step.event.Removed? && step.event.account == pending.account
  }

  predicate Fails(step: Step) {
    step.event.Removed? && step.event.error.Some? && !step.event.error.value.NotFound?
  }

  predicate Acknowledged(step: Step) {
    step.event.Put? && step.event.error.None?
  }

  predicate IsPut(step: Step, pending: PendingDelete) {
    step.event.Put? && step.event.account == pending.account && step.event.value == pending.previous
  }

  /** The captured accounts among the first `count`, newest first. */
  function Restores(deletes: seq<PendingDelete>, count: nat): seq<PendingDelete>
    requires count <= |deletes|
  {
    if count == 0 then [] else (if deletes[count - 1].existed then [deletes[count - 1]] else []) + Restores(deletes, count - 1)
  }

  ghost predicate PutsInOrder(deletes: seq<PendingDelete>, count: nat, trace: seq<Step>, from: nat, acknowledged: bool)
    requires count <= |deletes|
  {
    var puts := Restores(deletes, count);
    && |trace| == from + |puts|
    && (forall t :: from <= t < |trace| ==> IsPut(trace[t], puts[t - from]))
    && (acknowledged <==> forall t :: from <= t < |trace| ==> Acknowledged(trace[t]))
  }

  /** What a commit asks of the store since `from`: deletes in order up to the first
      failure, then the restores; its outcome goes by what the store reports. */
  ghost predicate CommitRun(deletes: seq<PendingDelete>, trace: seq<Step>, from: nat, removals: nat, outcome: CommitOutcome) {
    && removals <= |deletes| && from + removals <= |trace|
    && (forall t :: from <= t < from + removals ==> IsRemoval(trace[t], deletes[t - from]))
    && (forall t :: from <= t < from + removals - 1 ==> !Fails(trace[t]))
    && if outcome.Committed? then
         removals == |deletes| && |trace| == from + removals && (removals > 0 ==> !Fails(trace[from + removals - 1]))
       else
         removals > 0 && Fails(trace[from + removals - 1])
         && PutsInOrder(deletes, removals, trace, from + removals, outcome.RolledBack?)
  }

  lemma CommitRunIs(deletes: seq<PendingDelete>, before: seq<Step>, trace: seq<Step>, from: nat, removals: nat, outcome: CommitOutcome)
    requires removals <= |deletes| && |before| == from + removals && before <= trace
    requires forall t :: from <= t < from + removals ==> IsRemoval(before[t], deletes[t - from])
    requires forall t :: from <= t < from + removals - 1 ==> !Fails(before[t])
    requires if outcome.Committed? then removals == |deletes| && trace == before && (removals > 0 ==> !Fails(before[from + removals - 1]))
             else removals > 0 && Fails(before[from + removals - 1]) && PutsInOrder(deletes, removals, trace, from + removals, outcome.RolledBack?)
    ensures CommitRun(deletes, trace, from, removals, outcome)
  {
    assert forall t :: 0 <= t < |before| ==> trace[t] == before[t];
  }

  ghost predicate Unasked(trace: seq<Step>, from: nat, account: Account) {
    forall i :: from <= i < |trace| && trace[i].event.Put? ==> trace[i].event.account != account
  }

  ghost predicate Intact(entries: Entries, original: Entries, account: Account) {
    account in original ==> account in entries && entries[account] == original[account]
  }

  /** Each account is what it was exactly when the store kept what it acknowledged,
      and no account appeared. */
  ghost predicate AsRestored(entries: Entries, original: Entries, trace: seq<Step>, from: nat) {
    && (forall a :: a in original ==> (Intact(entries, original, a) <==> Undamaged(trace, from, a, original[a])))
    && (forall a :: a in entries ==> a in original)
  }

  /** The restores of `deletes[i..count]` are done; the other accounts hold what they
      held, or were deleted and not asked for yet. */
  ghost predicate PutBackFrom(deletes: seq<PendingDelete>, i: nat, count: nat, complete: bool, entries: Entries, original: Entries, trace: seq<Step>, from: nat) {
    && i <= count <= |deletes|
    && (forall j :: 0 <= j < i ==> NotYet(deletes[j].account, entries, original, trace, from))
    && (complete ==> forall j :: i <= j < count ==> Done(deletes[j].account, entries, original, trace, from))
    && (forall a :: Elsewhere(deletes, count, a) ==> Unasked(trace, from, a))
  }

  ghost predicate Elsewhere(deletes: seq<PendingDelete>, count: nat, account: Account)
    requires count <= |deletes|
  {
    forall j :: 0 <= j < count ==> deletes[j].account != account
  }

  ghost predicate NotYet(account: Account, entries: Entries, original: Entries, trace: seq<Step>, from: nat) {
    Unasked(trace, from, account) && (account in entries ==> account in original && entries[account] == original[account])
  }

  ghost predicate Done(account: Account, entries: Entries, original: Entries, trace: seq<Step>, from: nat) {
    && (account in original ==> (Intact(entries, original, account) <==> Undamaged(trace, from, account, original[account])))
    && (account in entries ==> account in original)
  }

  lemma NotPutBackYet(deletes: seq<PendingDelete>, entries: Entries, original: Entries, trace: seq<Step>, from: nat, count: nat)
    requires count <= |deletes| && |trace| == from + count
    requires forall t :: from <= t < from + count ==> IsRemoval(trace[t], deletes[t - from])
    requires forall a :: a in entries ==> a in original && entries[a] == original[a]
    ensures PutBackFrom(deletes, count, count, true, entries, original, trace, from)
  {
    assert forall t :: from <= t < |trace| ==> IsRemoval(trace[t], deletes[t - from]);
  }

  lemma OthersAreAlike(account: Account, other: Account, entries: Entries, after: Entries, original: Entries, before: seq<Step>, trace: seq<Step>, from: nat)
    requires account != other && before <= trace && |trace| == |before| + 1 && from <= |before|
    requires trace[|before|].event.Put? && trace[|before|].event.account == account
    requires after - {account} == entries - {account}
    ensures Unasked(before, from, other) ==> Unasked(trace, from, other)
    ensures forall value :: Undamaged(before, from, other, value) <==> Undamaged(trace, from, other, value)
    ensures other in after <==> other in entries
    ensures other in entries ==> after[other] == entries[other]
  {
    assert other in after - {account} <==> other in entries - {account};
    assert forall i :: 0 <= i < |before| ==> trace[i] == before[i];
  }

  lemma AgreeAfterSet(entries: Entries, after: Entries, original: Entries, deletes: seq<PendingDelete>, count: nat, i: nat)
    requires i < count <= |deletes| && AgreeOutside(entries, original, Accounts(deletes[..count]))
    requires after - {deletes[i].account} == entries - {deletes[i].account}
    requires Captures(deletes[i], original) && deletes[i].existed && forall a :: a in entries ==> a in original
    ensures AgreeOutside(after, original, Accounts(deletes[..count])) && forall a :: a in after ==> a in original
  {
    var account := deletes[i].account;
    assert deletes[..count][i] == deletes[i];
    assert forall a :: a != account ==> (a in after - {account} <==> a in after) && (a in entries - {account} <==> a in entries);
    assert forall a :: a in after && a != account ==> after[a] == (after - {account})[a];
  }

  lemma AgreeOutsideMore(entries: Entries, original: Entries, doomed: set<Account>, more: set<Account>)
    requires AgreeOutside(entries, original, doomed) && doomed <= more
    ensures AgreeOutside(entries, original, more)
  {
  }

  lemma NothingMoved(trace: seq<Step>, from: nat, base: Entries, doomed: set<Account>, visible: Image, durable: Image)
    requires from == |trace|
    ensures OnlyDoomedMoved(trace, from, base, doomed, visible, durable)
  {
  }

  lemma MovedOne(before: seq<Step>, trace: seq<Step>, from: nat, base: Entries, doomed: set<Account>, visible: Image, durable: Image)
    requires before <= trace && |trace| == |before| + 1 && OnlyDoomedMoved(before, from, base, doomed, visible, durable)
    requires trace[|before|].visible == visible && trace[|before|].durable == durable && AgreeOutside(trace[|before|].entries, base, doomed)
    ensures OnlyDoomedMoved(trace, from, base, doomed, visible, durable)
  {
  }

  lemma MovesJoin(before: seq<Step>, trace: seq<Step>, from: nat, base: Entries, doomed: set<Account>, visible: Image, durable: Image)
    requires before <= trace && OnlyDoomedMoved(before, from, base, doomed, visible, durable)
    requires OnlyDoomedMoved(trace, |before|, base, doomed, visible, durable)
    ensures OnlyDoomedMoved(trace, from, base, doomed, visible, durable)
  {
  }

  lemma AgreeAfterDelete(after: Entries, original: Entries, gone: set<Account>, account: Account, more: set<Account>, seen: set<Account>)
    requires after == original - gone || after == original - gone - {account}
    requires more == gone + {account} <= seen
    ensures AgreeOutside(after, original, more) && AgreeOutside(after, original, seen)
    ensures account !in after ==> after == original - more
    ensures forall a :: a in after ==> a in original && after[a] == original[a]
  {
  }

  lemma AgreeAfterAll(after: Entries, original: Entries, seen: set<Account>)
    requires after == original - seen
    ensures AgreeOutside(after, original, seen)
  {
  }

  /** The restores down to `i` were asked for, in order. */
  ghost predicate Asked(deletes: seq<PendingDelete>, i: nat, count: nat, trace: seq<Step>, from: nat, acknowledged: bool) {
    && i <= count <= |deletes| && from <= |trace|
    && (exists puts :: AskedWith(deletes, i, count, trace, from, puts))
    && (acknowledged <==> forall t :: from <= t < |trace| ==> Acknowledged(trace[t]))
  }

  ghost predicate AskedWith(deletes: seq<PendingDelete>, i: nat, count: nat, trace: seq<Step>, from: nat, puts: seq<PendingDelete>)
    requires i <= count <= |deletes|
  {
    puts + Restores(deletes, i) == Restores(deletes, count) && ArePuts(trace, from, puts)
  }

  ghost predicate ArePuts(trace: seq<Step>, from: nat, puts: seq<PendingDelete>) {
    |trace| == from + |puts| && forall t :: from <= t < |trace| ==> IsPut(trace[t], puts[t - from])
  }

  lemma AskedNothing(deletes: seq<PendingDelete>, count: nat, trace: seq<Step>, from: nat)
    requires count <= |deletes| && from == |trace|
    ensures Asked(deletes, count, count, trace, from, true)
  {
    assert [] + Restores(deletes, count) == Restores(deletes, count);
    assert AskedWith(deletes, count, count, trace, from, []);
  }

  lemma AskedOneWith(deletes: seq<PendingDelete>, i: nat, count: nat, before: seq<Step>, trace: seq<Step>, from: nat, puts: seq<PendingDelete>)
    requires i < count <= |deletes| && AskedWith(deletes, i + 1, count, before, from, puts) && deletes[i].existed
    requires before <= trace && |trace| == |before| + 1 && IsPut(trace[|before|], deletes[i])
    ensures AskedWith(deletes, i, count, trace, from, puts + [deletes[i]])
  {
    RestoresStep(deletes, i);
    hide Restores, IsPut;
    assert (puts + [deletes[i]]) + Restores(deletes, i) == puts + ([deletes[i]] + Restores(deletes, i));
    assert forall t :: from <= t < |before| ==> trace[t] == before[t] && (puts + [deletes[i]])[t - from] == puts[t - from];
  }

  lemma AskedOne(deletes: seq<PendingDelete>, i: nat, count: nat, before: seq<Step>, trace: seq<Step>, from: nat, acknowledged: bool, error: Option<StoreError>)
    requires i < count && Asked(deletes, i + 1, count, before, from, acknowledged) && deletes[i].existed
    requires before <= trace && |trace| == |before| + 1 && trace[|before|].event == Put(deletes[i].account, deletes[i].previous, error)
    ensures Asked(deletes, i, count, trace, from, acknowledged && error.None?)
  {
    var puts :| AskedWith(deletes, i + 1, count, before, from, puts);
    AskedOneWith(deletes, i, count, before, trace, from, puts);
    hide AskedWith;
    assert forall t :: from <= t < |before| ==> trace[t] == before[t];
  }

  lemma RestoresStep(deletes: seq<PendingDelete>, i: nat)
    requires i < |deletes|
    ensures Restores(deletes, i + 1) == (if deletes[i].existed then [deletes[i]] else []) + Restores(deletes, i)
    ensures Restores(deletes, 0) == []
  {
  }

  lemma AskedSkips(deletes: seq<PendingDelete>, i: nat, count: nat, trace: seq<Step>, from: nat, acknowledged: bool)
    requires i < count && Asked(deletes, i + 1, count, trace, from, acknowledged) && !deletes[i].existed
    ensures Asked(deletes, i, count, trace, from, acknowledged)
  {
    RestoresStep(deletes, i);
    assert [] + Restores(deletes, i) == Restores(deletes, i);
    var puts :| AskedWith(deletes, i + 1, count, trace, from, puts);
    assert AskedWith(deletes, i, count, trace, from, puts);
  }

  lemma AskedAll(deletes: seq<PendingDelete>, count: nat, trace: seq<Step>, from: nat, acknowledged: bool)
    requires Asked(deletes, 0, count, trace, from, acknowledged)
    ensures PutsInOrder(deletes, count, trace, from, acknowledged)
  {
    var puts :| AskedWith(deletes, 0, count, trace, from, puts);
    assert puts + [] == puts;
  }

  lemma PutOne(deletes: seq<PendingDelete>, i: nat, count: nat, complete: bool, entries: Entries, after: Entries, original: Entries, before: seq<Step>, trace: seq<Step>, from: nat, error: Option<StoreError>)
    requires i < count <= |deletes| && from <= |before| && PutBackFrom(deletes, i + 1, count, complete, entries, original, before, from)
    requires forall j, k :: 0 <= j < k < |deletes| ==> deletes[j].account != deletes[k].account
    requires Captures(deletes[i], original) && deletes[i].existed
    requires before <= trace && |trace| == |before| + 1
    requires trace[|before|].event == Put(deletes[i].account, deletes[i].previous, error) && trace[|before|].entries == after
    requires after - {deletes[i].account} == entries - {deletes[i].account}
    ensures PutBackFrom(deletes, i, count, complete && error.None?, after, original, trace, from)
  {
    var account := deletes[i].account;
    forall j | 0 <= j < i ensures NotYet(deletes[j].account, after, original, trace, from) {
      OthersAreAlike(account, deletes[j].account, entries, after, original, before, trace, from);
    }
    forall a | Elsewhere(deletes, count, a) ensures Unasked(trace, from, a) {
      OthersAreAlike(account, a, entries, after, original, before, trace, from);
    }
    if complete && error.None? {
      assert NotYet(account, entries, original, before, from);
      assert forall k :: from <= k < |before| ==> trace[k] == before[k];
      forall j | i <= j < count ensures Done(deletes[j].account, after, original, trace, from) {
        if j > i {
          OthersAreAlike(account, deletes[j].account, entries, after, original, before, trace, from);
        }
      }
    }
  }

  lemma SkipOne(deletes: seq<PendingDelete>, i: nat, count: nat, complete: bool, entries: Entries, original: Entries, trace: seq<Step>, from: nat)
    requires i < count <= |deletes| && PutBackFrom(deletes, i + 1, count, complete, entries, original, trace, from)
    requires Captures(deletes[i], original) && !deletes[i].existed
    ensures PutBackFrom(deletes, i, count, complete, entries, original, trace, from)
  {
    assert NotYet(deletes[i].account, entries, original, trace, from);
  }

  lemma AllPutBack(deletes: seq<PendingDelete>, count: nat, complete: bool, entries: Entries, original: Entries, trace: seq<Step>, from: nat)
    requires PutBackFrom(deletes, 0, count, complete, entries, original, trace, from)
    requires AgreeOutside(entries, original, Accounts(deletes[..count]))
    ensures complete ==> AsRestored(entries, original, trace, from)
    ensures AgreeOutside(entries, original, Accounts(deletes))
  {
    forall a ensures a in Accounts(deletes[..count]) <==> !Elsewhere(deletes, count, a) {
      if !Elsewhere(deletes, count, a) {
        var j :| 0 <= j < count && deletes[j].account == a;
        assert deletes[..count][j] == deletes[j];
      }
    }
    WithinAll(deletes, count);
    if complete {
      forall a | a in original || a in entries ensures Done(a, entries, original, trace, from) {
        if Elsewhere(deletes, count, a) {
          assert Unasked(trace, from, a);
        }
      }
    }
  }

  ghost predicate Captures(pending: PendingDelete, entries: Entries) {
    && (pending.existed <==> pending.account in entries)
    && (pending.existed ==> entries[pending.account] == pending.previous)
  }

  lemma ListingKept(before: seq<PendingDelete>, after: seq<PendingDelete>, seen: set<Account>)
    requires |before| == |after| && forall j :: 0 <= j < |before| ==> before[j].account == after[j].account
    requires forall a :: a in seen ==> exists i :: 0 <= i < |before| && before[i].account == a
    ensures forall a :: a in seen ==> exists i :: 0 <= i < |after| && after[i].account == a
  {
    forall a | a in seen ensures exists i :: 0 <= i < |after| && after[i].account == a {
      var i :| 0 <= i < |before| && before[i].account == a;
      assert after[i].account == a;
    }
  }
}
