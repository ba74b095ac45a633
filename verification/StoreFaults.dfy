/** Runs of the stores that the write cannot notice (internal/config/keychain.go): it
    reads a fresh account back, but neither a restored account nor one whose store
    was refused. Each run obeys the law of the stores. */
module StoreFaults {
  import opened Credentials
  import opened Keychain
  import opened Persistence
  import opened Wrappers
  import opened WriteConfig

  /** An acknowledged restore that is lost: the commit reports a complete rollback, the
      old file is put back, and a credential it resolved is gone. */
  lemma LostRestore(plan: Plan, key: Key) returns (trace: seq<Step>)
    requires plan.before.File? && plan.before != File(plan.after)
    requires Resolution(plan.before.document.secrets, plan.base, key).Some?
    ensures |trace| == 4
    ensures var account := plan.before.document.secrets[key].text.account;
            var deletes := [PendingDelete(account, plan.base[account], true)];
            && Lawful(plan.base, File(plan.after), File(plan.after), trace)
            && CommitRun(deletes, trace[..2], 0, 1, RolledBack)
            && trace[2].event == Installed(true) && trace[3].event == Synced(true)
            && trace[3].visible == plan.before == trace[3].durable
            && Resolution(plan.before.document.secrets, trace[3].entries, key).None?
            && !CrashSafe(plan, trace[3]) && !KeptFor(plan.before, plan.base, trace, 0)
  {
    var account := plan.before.document.secrets[key].text.account;
    var value := plan.base[account];
    var installed, gone := File(plan.after), plan.base - {account};
    var deletes := [PendingDelete(account, value, true)];
    trace := [
      Step(Removed(account, Some(OtherFailure)), gone, installed, installed),
      Step(Put(account, value, None), gone, installed, installed),
      Step(Installed(true), gone, plan.before, installed),
      Step(Synced(true), gone, plan.before, plan.before)];
    assert gone - {account} == gone;
    assert Follows(plan.base, installed, installed, trace[0]);
    assert Follows(gone, installed, installed, trace[1]);
    assert Follows(gone, installed, installed, trace[2]);
    assert Follows(gone, plan.before, installed, trace[3]);
    assert Restores(deletes, 1) == [deletes[0]] + Restores(deletes, 0) == deletes;
    assert PutsInOrder(deletes, 1, trace[..2], 1, true);
    assert !KeepsImage(plan.before, plan.base, gone);
    assert !Undamaged(trace, 0, account, value) by {
      assert trace[1].event.Put?;
    }
  }

  /** A refused store that happened all the same: the attempt ends after one inspection
      and one Set, and the account stays behind without any record. */
  lemma RefusedButStored(entries: Entries, image: Image, account: Account, value: Text, error: StoreError) returns (trace: seq<Step>)
    requires account !in entries && account.binding.Valid()
    ensures Lawful(entries, image, image, trace)
    ensures |trace| == 2 && trace[0].event == Got(account, Some(NotFound)) && trace[1].event == Put(account, value, Some(error))
    ensures trace[1].entries == entries[account := value] && StoredAllTheSame(trace, 0, account) && !LeftBehind(trace, 0, account)
    ensures Attempted(account.binding, value, if error.IsUnavailable() then Declined else Failed(NotStored(error)),
              Ledger(entries, [], {}), Ledger(entries[account := value], [], {account}), trace, 0, None)
  {
    var after := entries[account := value];
    trace := [
      Step(Got(account, Some(NotFound)), entries, image, image),
      Step(Put(account, value, Some(error)), after, image, image)];
    assert after - {account} == entries - {account};
    assert Follows(entries, image, image, trace[0]);
    assert Follows(entries, image, image, trace[1]);
    assert StoredAllTheSame(trace, 0, account) by {
      assert trace[1].event.Put?;
    }
  }
}
