/** The two stores that one config write spans and that cannot commit together:
    an OS keychain and a config file replaced by rename. Every primitive may
    fail, and every primitive appends a step to a ghost trace, so that a contract
    can speak about each state in which the process may die. */
module Persistence {
  import opened Credentials
  import opened Wrappers

  type Entries = map<Account, Text>

  datatype Document = Document(body: string, secrets: Secrets)

  datatype Image = Absent | File(document: Document)

  datatype Event =
    | Got(account: Account, error: Option<StoreError>)
    | Put(account: Account, value: Text, error: Option<StoreError>)
    | Removed(account: Account, error: Option<StoreError>)
    | Installed(done: bool)
    | Synced(done: bool)

  /** What a crash right after an event may leave behind. */
  datatype Step = Step(event: Event, entries: Entries, visible: Image, durable: Image)

  /** The law of both stores, for one event. A read answers NotFound only for an
      absent account. A Set and a failed Delete are ambiguous: whatever they report,
      the account may hold anything afterwards, or be gone. */
  ghost predicate Follows(entries: Entries, visible: Image, durable: Image, next: Step) {
    match next.event
    case Got(account, error) =>
      && next.entries == entries && next.visible == visible && next.durable == durable
      && (error.None? ==> account in entries) && (error == Some(NotFound) ==> account !in entries)
    case Put(account, _, _) =>
      next.entries - {account} == entries - {account} && next.visible == visible && next.durable == durable
    case Removed(account, error) =>
      && (next.entries == entries || next.entries == entries - {account}) && next.visible == visible && next.durable == durable
      && (error.None? || error == Some(NotFound) ==> account !in next.entries)
      && (error == Some(NotFound) ==> account !in entries)
    case Installed(done) =>
      && next.entries == entries && next.durable == durable
      && (if done then next.visible.File? else next.visible == visible)
    case Synced(done) =>
      && next.entries == entries && next.visible == visible
      && (next.durable == visible || (!done && next.durable == durable))
  }

  /** A history in which every event obeys the law. */
  ghost predicate Lawful(entries: Entries, visible: Image, durable: Image, trace: seq<Step>) {
    forall i :: 0 <= i < |trace| ==>
      if i == 0 then Follows(entries, visible, durable, trace[0])
      else Follows(trace[i - 1].entries, trace[i - 1].visible, trace[i - 1].durable, trace[i])
  }

  /** The step shows a fault of the store or of the disk: an error other than the absence
      of an account, or an acknowledged Set that did not store its value. */
  ghost predicate Faulty(step: Step) {
    match step.event
    case Got(_, error) => error.Some? && !error.value.NotFound?
    case Put(account, value, error) => error.Some? || !(account in step.entries && step.entries[account] == value)
    case Removed(_, error) => error.Some? && !error.value.NotFound?
    case Installed(done) => !done
    case Synced(done) => !done
  }

  ghost predicate Smooth(trace: seq<Step>, from: nat) {
    forall i :: from <= i < |trace| ==> !Faulty(trace[i])
  }

  /** A fault is never taken back. */
  lemma FaultStays(before: seq<Step>, after: seq<Step>, mark: nat, from: nat)
    requires before <= after && from <= mark && !Smooth(before, mark)
    ensures !Smooth(after, from)
  {
    var i :| mark <= i < |before| && Faulty(before[i]);
    assert after[i] == before[i];
  }

  lemma SmoothParts(before: seq<Step>, after: seq<Step>, from: nat)
    requires before <= after && from <= |before|
    ensures Smooth(after, from) ==> Smooth(before, from) && Smooth(after, |before|)
  {
    assert forall i :: 0 <= i < |before| ==> before[i] == after[i];
  }

  /** After every acknowledged Set of `account` since `from` it held `value`. */
  ghost predicate Undamaged(trace: seq<Step>, from: nat, account: Account, value: Text) {
    forall i :: from <= i < |trace| && trace[i].event.Put? && trace[i].event.account == account && trace[i].event.error.None? ==>
      account in trace[i].entries && trace[i].entries[account] == value
  }

  /** A Set of `account` reported an error after `from` and stored something all the
      same. */
  ghost predicate StoredAllTheSame(trace: seq<Step>, from: nat, account: Account) {
    exists i :: from <= i < |trace| && trace[i].event.Put? && trace[i].event.account == account
                && trace[i].event.error.Some? && account in trace[i].entries
  }

  /** What loading `secrets` under `entries` reads for a field: a value only when
      the reference matches the field's own binding and its account exists. */
  function Resolution(secrets: Secrets, entries: Entries, key: Key): Option<Text> {
    if key in secrets && secrets[key].text.Matches(BindingAt(secrets, key)) && secrets[key].text.account in entries then
      Some(entries[secrets[key].text.account])
    else
      None
  }

  ghost predicate Extends(entries: Entries, base: Entries) {
    forall a :: a in base ==> a in entries && entries[a] == base[a]
  }

  /** The entries agree with `base` on every account outside `doomed`. */
  ghost predicate AgreeOutside(entries: Entries, base: Entries, doomed: set<Account>) {
    && (forall a :: a in base && a !in doomed ==> a in entries)
    && (forall a :: a in entries && a !in doomed ==> a in base && entries[a] == base[a])
  }

  class World {
    var entries: Entries
    var visible: Image
    var durable: Image
    ghost var trace: seq<Step>

    constructor (entries: Entries, image: Image)
      ensures this.entries == entries && visible == durable == image && trace == []
    {
      this.entries, visible, durable := entries, image, image;
      trace := [];
    }

    /** A read is honest: it answers NotFound only for an absent account. */
    method Get(account: Account) returns (value: Text, error: Option<StoreError>)
      modifies this`trace
      ensures |trace| == |old(trace)| + 1 && Follows(old(entries), old(visible), old(durable), trace[|trace| - 1])
      ensures trace == old(trace) + [Step(Got(account, error), entries, visible, durable)]
      ensures error.None? ==> account in entries && value == entries[account]
      ensures error == Some(NotFound) ==> account !in entries
    {
      var fault: Option<StoreError> := *;
      if fault.Some? && !fault.value.NotFound? {
        value, error := Empty, fault;
      } else if account in entries {
        value, error := entries[account], None;
      } else {
        value, error := Empty, Some(NotFound);
      }
      trace := trace + [Step(Got(account, error), entries, visible, durable)];
    }

    /** Whatever a Set reports, the account may hold anything afterwards. */
    method Set(account: Account, value: Text) returns (error: Option<StoreError>)
      modifies this`trace, this`entries
      ensures |trace| == |old(trace)| + 1 && Follows(old(entries), old(visible), old(durable), trace[|trace| - 1])
      ensures trace == old(trace) + [Step(Put(account, value, error), entries, visible, durable)]
      ensures entries - {account} == old(entries) - {account}
    {
      error := *;
      var kept: Option<Text> := *;
      entries := if kept.Some? then entries[account := kept.value] else entries - {account};
      trace := trace + [Step(Put(account, value, error), entries, visible, durable)];
    }

    /** A failed Delete is ambiguous: the account may be gone all the same. */
    method Delete(account: Account) returns (error: Option<StoreError>)
      modifies this`trace, this`entries
      ensures |trace| == |old(trace)| + 1 && Follows(old(entries), old(visible), old(durable), trace[|trace| - 1])
      ensures trace == old(trace) + [Step(Removed(account, error), entries, visible, durable)]
      ensures entries == old(entries) || entries == old(entries) - {account}
      ensures error.None? || error == Some(NotFound) ==> account !in entries
      ensures error == Some(NotFound) ==> account !in old(entries)
    {
      var fault: Option<StoreError> := *;
      if fault.Some? && !fault.value.NotFound? {
        error := fault;
        if * {
          entries := entries - {account};
        }
      } else if account in entries {
        error := None;
        entries := entries - {account};
      } else {
        error := Some(NotFound);
      }
      trace := trace + [Step(Removed(account, error), entries, visible, durable)];
    }

    /** Renames a synced temporary file into place. When `exclusive`, the file is
        linked instead and an existing document is never replaced. */
    method Install(document: Document, exclusive: bool) returns (done: bool)
      modifies this`trace, this`visible
      ensures |trace| == |old(trace)| + 1 && Follows(old(entries), old(visible), old(durable), trace[|trace| - 1])
      ensures trace == old(trace) + [Step(Installed(done), entries, visible, durable)]
      ensures visible == if done then File(document) else old(visible)
      ensures done && exclusive ==> old(visible).Absent?
    {
      done := *;
      if exclusive && visible.File? {
        done := false;
      }
      if done {
        visible := File(document);
      }
      trace := trace + [Step(Installed(done), entries, visible, durable)];
    }

    /** The directory barrier. Even a failed barrier may have reached the disk. */
    method Sync() returns (done: bool)
      modifies this`trace, this`durable
      ensures |trace| == |old(trace)| + 1 && Follows(old(entries), old(visible), old(durable), trace[|trace| - 1])
      ensures trace == old(trace) + [Step(Synced(done), entries, visible, durable)]
      ensures durable == visible || (!done && durable == old(durable))
    {
      done := *;
      if done {
        durable := visible;
      } else if * {
        durable := visible;
      }
      trace := trace + [Step(Synced(done), entries, visible, durable)];
    }
  }
}
