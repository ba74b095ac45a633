/** One config write across the file and the keychain (internal/config/loader.go):
    stage, preflight, rename, directory barrier, deferred deletes, and the
    compensation at each point of failure. */
module WriteConfig {
  import opened Credentials
  import opened Keychain
  import opened Persistence
  import opened Wrappers

  /** What one write set out to do. `before` is the file it read, `stale` what the
      disk held at that time (older when an earlier barrier failed). */
  datatype Plan = Plan(
    before: Image,
    stale: Image,
    after: Document,
    base: Entries,
    view: View,
    staged: map<Key, Account>,
    strays: set<Account>)
  {
    /** The new document gives each field its disk text, and every staged account
        is new and belongs to its own field. */
    ghost predicate Sound() {
      && view.WellFormed()
      && after.secrets.Keys == view.secrets.Keys
      && (forall k :: k in view.secrets ==>
            && !view.Refuses(k)
            && after.secrets[k] == Slot(view.DiskText(staged, k), view.secrets[k].destination))
      && StagedDone(view, base, staged, view.secrets.Keys)
    }

    predicate Doomed(account: Account) {
      view.Doomed(staged, view.secrets.Keys, view.states.Keys, account)
    }

    predicate IsStaged(account: Account) {
      account.binding.key in staged && staged[account.binding.key] == account
    }

    /** The value each field of the new document is meant to resolve to. */
    function Intended(key: Key): Option<Text>
    {
      if key in staged && key in view.secrets then Some(view.secrets[key].text)
      else Resolution(after.secrets, base, key)
    }

    /** Nothing but old entries, staged ones and strays. */
    ghost predicate NothingElse(entries: Entries) {
      forall a :: a in entries ==> a in base || IsStaged(a) || a in strays
    }

    /** Exactly the old entries, the staged ones and the strays. */
    ghost predicate Full(entries: Entries) {
      && Extends(entries, base) && NothingElse(entries)
      && (forall a :: a in strays ==> a in entries && a !in base && !IsStaged(a))
      && (forall k :: k in staged ==>
            staged[k] in entries && k in view.secrets && entries[staged[k]] == view.secrets[k].text)
    }
  }

  ghost predicate KeepsImage(image: Image, base: Entries, entries: Entries) {
    image.File? ==>
      forall k :: Resolution(image.document.secrets, base, k).Some? ==>
        Resolution(image.document.secrets, entries, k) == Resolution(image.document.secrets, base, k)
  }

  ghost predicate KeepsNew(plan: Plan, entries: Entries) {
    forall k :: plan.Intended(k).Some? ==> Resolution(plan.after.secrets, entries, k) == plan.Intended(k)
  }

  /** A crash that leaves `image` behind loses no credential: what an old image
      could resolve it still resolves, and what the new one is meant to resolve it
      resolves. */
  ghost predicate ImageSafe(plan: Plan, image: Image, entries: Entries) {
    && (image == plan.before || image == plan.stale ==> KeepsImage(image, plan.base, entries))
    && (image != plan.before && image != plan.stale ==> KeepsNew(plan, entries))
  }

  ghost predicate CrashSafe(plan: Plan, step: Step) {
    ImageSafe(plan, step.visible, step.entries) && ImageSafe(plan, step.durable, step.entries)
  }

  /** The store kept each restore that it acknowledged of an account `image` resolves.
      Nothing in the program checks this. */
  ghost predicate KeptFor(image: Image, base: Entries, trace: seq<Step>, from: nat) {
    image.File? ==>
      forall k :: Resolution(image.document.secrets, base, k).Some? ==>
        Undamaged(trace, from, image.document.secrets[k].text.account, base[image.document.secrets[k].text.account])
  }

  /** Each old entry is what it was exactly when the store kept the restores of it
      that it acknowledged. */
  ghost predicate KeptExactly(base: Entries, entries: Entries, trace: seq<Step>, from: nat) {
    forall a :: a in base ==> (Intact(entries, base, a) <==> Undamaged(trace, from, a, base[a]))
  }

  /** An old file loses a credential exactly when the store lost a restore of an
      account that this file resolves; what else it lost does not matter. */
  lemma ImageKeptExactly(image: Image, base: Entries, entries: Entries, trace: seq<Step>, from: nat)
    requires KeptExactly(base, entries, trace, from)
    ensures KeepsImage(image, base, entries) <==> KeptFor(image, base, trace, from)
  {
  }

  /** Each step leaves one of the three documents, and a crash there loses a
      credential exactly when an old one is left and the store has lost a restore of an
      account that it resolves. */
  ghost predicate SafeRun(plan: Plan, trace: seq<Step>, from: nat) {
    forall i :: from <= i < |trace| ==> SafeAt(plan, trace, from, i)
  }

  ghost predicate SafeAt(plan: Plan, trace: seq<Step>, from: nat, i: nat)
    requires i < |trace|
  {
    && SafeImage(plan, trace[i].visible, trace[i].entries, trace[..i + 1], from)
    && SafeImage(plan, trace[i].durable, trace[i].entries, trace[..i + 1], from)
  }

  ghost predicate SafeImage(plan: Plan, image: Image, entries: Entries, trace: seq<Step>, from: nat) {
    && Known(plan, image)
    && (ImageSafe(plan, image, entries) <==> image == File(plan.after) || KeptFor(image, plan.base, trace, from))
  }

  predicate Known(plan: Plan, image: Image) {
    image == plan.before || image == plan.stale || image == File(plan.after)
  }

  /** A state whose old entries are accounted for is as safe as can be. */
  lemma SettledIsSafe(plan: Plan, trace: seq<Step>, from: nat, i: nat)
    requires i < |trace| && Known(plan, trace[i].visible) && Known(plan, trace[i].durable)
    requires KeptExactly(plan.base, trace[i].entries, trace[..i + 1], from)
    requires File(plan.after) == trace[i].visible || File(plan.after) == trace[i].durable ==>
               ImageSafe(plan, File(plan.after), trace[i].entries)
    ensures SafeAt(plan, trace, from, i)
  {
    hide KeptExactly, KeepsImage, KeepsNew, KeptFor;
    ImageKeptExactly(trace[i].visible, plan.base, trace[i].entries, trace[..i + 1], from);
    ImageKeptExactly(trace[i].durable, plan.base, trace[i].entries, trace[..i + 1], from);
  }

  /** Steps that store nothing damage nothing. */
  lemma UndamagedStill(before: seq<Step>, after: seq<Step>, from: nat)
    requires before <= after && forall i :: |before| <= i < |after| ==> !after[i].event.Put?
    ensures forall a, value :: Undamaged(before, from, a, value) <==> Undamaged(after, from, a, value)
  {
    assert forall i :: 0 <= i < |before| ==> before[i] == after[i];
  }

  lemma StillKept(base: Entries, entries: Entries, before: seq<Step>, after: seq<Step>, from: nat)
    requires before <= after && forall i :: |before| <= i < |after| ==> !after[i].event.Put?
    requires KeptExactly(base, entries, before, from)
    ensures KeptExactly(base, entries, after, from)
  {
    UndamagedStill(before, after, from);
    hide Undamaged;
  }

  lemma CalmKeeps(base: Entries, entries: Entries, trace: seq<Step>, from: nat, visible: Image, durable: Image)
    requires Calm(trace, from, base, visible, durable) && Extends(entries, base)
    ensures KeptExactly(base, entries, trace, from)
  {
    forall a | a in base ensures Intact(entries, base, a) && Undamaged(trace, from, a, base[a]) {
      assert forall i :: from <= i < |trace| ==> Extends(trace[i].entries, base);
    }
  }

  /** A commit that was rolled back leaves each old entry what it was exactly when the
      store kept the restores of it that it acknowledged. */
  lemma RestoredExactly(base: Entries, full: Entries, entries: Entries, before: seq<Step>, trace: seq<Step>, from: nat)
    requires before <= trace && from <= |before|
    requires Extends(full, base) && KeptExactly(base, full, before, from) && AsRestored(entries, full, trace, |before|)
    ensures KeptExactly(base, entries, trace, from)
  {
    assert forall i :: from <= i < |before| ==> trace[i] == before[i];
  }

  /** No deferred delete names an account that the new document can resolve. */
  lemma DoomedIsUnreferenced(plan: Plan, key: Key)
    requires plan.Sound() && key in plan.after.secrets
    requires plan.after.secrets[key].text.Matches(BindingAt(plan.after.secrets, key))
    ensures !plan.Doomed(plan.after.secrets[key].text.account)
  {
    var account := plan.after.secrets[key].text.account;
    assert account.binding.key == key;
    assert key in plan.view.states ==> LoadedState(key, plan.view.states[key]);
  }

  /** As long as the keychain keeps the old entries, the old images are safe. */
  lemma OldImagesSurvive(plan: Plan, entries: Entries)
    requires Extends(entries, plan.base)
    ensures ImageSafe(plan, plan.before, entries) && ImageSafe(plan, plan.stale, entries)
  {
  }

  /** Deleting doomed accounts, some or all, costs the new document nothing. */
  lemma NewImageSurvives(plan: Plan, full: Entries, entries: Entries, doomed: set<Account>)
    requires plan.Sound() && plan.Full(full) && AgreeOutside(entries, full, doomed)
    requires forall a :: a in doomed ==> plan.Doomed(a)
    ensures KeepsNew(plan, entries)
    ensures ImageSafe(plan, File(plan.after), entries)
  {
    forall k | plan.Intended(k).Some?
      ensures Resolution(plan.after.secrets, entries, k) == plan.Intended(k)
    {
      if k in plan.staged && k in plan.view.secrets {
        assert !plan.view.Refuses(k);
      }
      DoomedIsUnreferenced(plan, k);
    }
    NewKeepsOld(plan, entries);
  }

  lemma NewKeepsOld(plan: Plan, entries: Entries)
    requires plan.Sound() && KeepsNew(plan, entries)
    ensures KeepsImage(File(plan.after), plan.base, entries)
  {
    forall k | Resolution(plan.after.secrets, plan.base, k).Some?
      ensures Resolution(plan.after.secrets, entries, k) == Resolution(plan.after.secrets, plan.base, k)
    {
      assert k !in plan.staged;
      assert plan.Intended(k).Some?;
    }
  }

  lemma CalmIsSafe(plan: Plan, trace: seq<Step>, from: nat)
    requires Calm(trace, from, plan.base, plan.before, plan.stale)
    ensures SafeRun(plan, trace, from)
  {
    forall i | from <= i < |trace| ensures SafeAt(plan, trace, from, i) {
      OldImagesSurvive(plan, trace[i].entries);
      assert Calm(trace[..i + 1], from, plan.base, plan.before, plan.stale);
      CalmKeeps(plan.base, trace[i].entries, trace[..i + 1], from, plan.before, plan.stale);
      SettledIsSafe(plan, trace, from, i);
    }
  }

  lemma DeletesAreSafe(plan: Plan, full: Entries, trace: seq<Step>, from: nat, mark: nat, doomed: set<Account>)
    requires plan.Sound() && plan.Full(full)
    requires OnlyDoomedMoved(trace, mark, full, doomed, File(plan.after), File(plan.after))
    requires forall a :: a in doomed ==> plan.Doomed(a)
    ensures forall i :: mark <= i < |trace| ==> SafeAt(plan, trace, from, i)
  {
    forall i | mark <= i < |trace| ensures SafeAt(plan, trace, from, i) {
      NewImageSurvives(plan, full, trace[i].entries, doomed);
    }
  }

  lemma RunsJoin(plan: Plan, before: seq<Step>, after: seq<Step>, from: nat)
    requires before <= after && from <= |before| && SafeRun(plan, before, from)
    requires forall i :: |before| <= i < |after| ==> SafeAt(plan, after, from, i)
    ensures SafeRun(plan, after, from)
  {
    forall i | from <= i < |after| ensures SafeAt(plan, after, from, i) {
      if i < |before| {
        assert SafeAt(plan, before, from, i);
        assert before[..i + 1] == after[..i + 1];
      }
    }
  }

  /** A file event is safe where the old entries are accounted for. */
  lemma StepIsSafe(plan: Plan, before: seq<Step>, after: seq<Step>, from: nat, entries: Entries)
    requires before <= after && |after| == |before| + 1 && from <= |before| && SafeRun(plan, before, from)
    requires KeptExactly(plan.base, entries, before, from) && ImageSafe(plan, File(plan.after), entries)
    requires after[|before|].entries == entries && !after[|before|].event.Put?
    requires Known(plan, after[|before|].visible) && Known(plan, after[|before|].durable)
    ensures SafeRun(plan, after, from) && KeptExactly(plan.base, entries, after, from)
  {
    hide KeptExactly, ImageSafe, SafeRun, SafeAt;
    StillKept(plan.base, entries, before, after, from);
    assert after[..|before| + 1] == after;
    SettledIsSafe(plan, after, from, |before|);
    RunsJoin(plan, before, after, from);
  }

  datatype WriteError =
    | SourceChanged
    | Refused(why: Refusal)
    | DeletesNotReady
    | FileFailed
    | NotSynced
    | OldGenerationLost
    | RestoreFailed
    | CleanupReverted

  /** The write stopped before the file moved, or was taken back completely. */
  ghost predicate LeftOld(plan: Plan, world: World, durable: Image, from: nat)
    reads world
  {
    && world.visible == plan.before && world.durable == durable
    && Withdrawn(world.entries, plan.base, world.trace, from)
  }

  /** A configuration may be written only over the document it came from. */
  method ValidateSnapshot(config: Config, world: World, steady: bool) returns (ok: bool)
    ensures ok ==> CameFrom(config.origin, world.visible) && StillReferenced(config.source, config.states, world.visible)
    ensures steady && CameFrom(config.origin, world.visible) && StillReferenced(config.source, config.states, world.visible) ==> ok
  {
    var unreadable: bool := *;
    if unreadable && !steady {
      return false;
    }
    match world.visible
    case Absent =>
      return !config.origin.Revision?;
    case File(disk) =>
      if config.origin.NoFile? || (config.origin.Revision? && config.origin.document != disk) {
        return false;
      }
      var remaining := config.states.Keys;
      while remaining != {}
        invariant remaining <= config.states.Keys
        invariant forall k :: k in config.states && k !in remaining && k.source == config.source ==>
                    k in disk.secrets && disk.secrets[k].text == config.states[k].sentinel
      {
        var k :| k in remaining;
        remaining := remaining - {k};
        if k.source == config.source && (k !in disk.secrets || disk.secrets[k].text != config.states[k].sentinel) {
          return false;
        }
      }
      return true;
  }

  /** Every reference that was loaded from this file is still in it. */
  predicate StillReferenced(source: string, states: map<Key, FieldState>, image: Image) {
    image.File? ==>
      forall k :: k in states && k.source == source ==> k in image.document.secrets && image.document.secrets[k].text == states[k].sentinel
  }

  predicate CameFrom(origin: Origin, image: Image) {
    match origin
    case Revision(document) => image == File(document)
    case NoFile => image.Absent?
    case Unstated => true
  }

  /** The write is complete: both images are the new document, the keychain is the
      old one minus the doomed accounts plus the staged ones. A stray is there unless it
      is doomed. */
  ghost predicate Written(plan: Plan, world: World)
    reads world
  {
    && plan.Sound()
    && world.visible == world.durable == File(plan.after)
    && (forall a :: a in plan.strays ==>
          a !in plan.base && !plan.IsStaged(a) && (a in world.entries <==> !plan.Doomed(a)))
    && (forall a :: a !in plan.strays ==> (a in world.entries <==> !plan.Doomed(a) && (a in plan.base || plan.IsStaged(a))))
    && (forall a :: !plan.Doomed(a) && (a in plan.base || plan.IsStaged(a)) ==> a in world.entries)
    && (forall a :: a in world.entries && a in plan.base ==> world.entries[a] == plan.base[a])
    && (forall k :: k in plan.staged ==>
          HoldsStaged(plan, world.entries, k))
  }

  ghost predicate HoldsStaged(plan: Plan, entries: Entries, key: Key) {
    && key in plan.staged && key in plan.view.secrets
    && plan.staged[key] in entries && entries[plan.staged[key]] == plan.view.secrets[key].text
  }

  /** Which fields stay in plaintext, and why: the keychain was unreachable, or
      lost what it had just acknowledged. A field that already had a reference
      stays in plaintext only when the keychain is switched off. */
  ghost predicate Excuses(plan: Plan, trace: seq<Step>, from: nat) {
    forall k :: k in plan.view.secrets && plan.view.NeedsAccount(k) && k !in plan.staged ==>
      exists at :: from < at <= |trace| && Excused(plan.view, k, trace[..at])
  }

  lemma ExcusesKept(plan: Plan, before: seq<Step>, after: seq<Step>, from: nat)
    requires before <= after && Excuses(plan, before, from)
    ensures Excuses(plan, after, from)
  {
    forall k | k in plan.view.secrets && plan.view.NeedsAccount(k) && k !in plan.staged
      ensures exists at :: from < at <= |after| && Excused(plan.view, k, after[..at])
    {
      var at :| from < at <= |before| && Excused(plan.view, k, before[..at]);
      assert after[..at] == before[..at];
    }
  }

  ghost function PlanOf(transaction: Transaction, before: Image, stale: Image, body: string): Plan
    reads transaction`staged, transaction`strays, transaction.config`secrets
  {
    Plan(before, stale, Document(body, transaction.config.secrets), transaction.base, transaction.view, transaction.staged, transaction.strays)
  }

  /** What reconciliation leaves behind is a sound plan and a full keychain. */
  lemma PlanIsSound(transaction: Transaction, plan: Plan, body: string)
    requires transaction.Progress(transaction.view.secrets.Keys, transaction.view.states.Keys)
    requires plan == PlanOf(transaction, transaction.world.visible, transaction.world.durable, body)
    ensures plan.Sound() && plan.Full(transaction.world.entries)
    ensures forall a :: a in transaction.writes <==> plan.IsStaged(a)
    ensures forall a :: a in transaction.seen <==> plan.Doomed(a)
    ensures Excuses(plan, transaction.world.trace, transaction.start)
    ensures StraysKnown(plan.strays, transaction.world.trace, transaction.start)
    ensures StraysAll(plan.strays, transaction.world.trace, transaction.start)
    ensures transaction.Abandonable() && Listed(transaction.seen, transaction.deletes)
  {
    forall k | k in plan.view.secrets && plan.view.NeedsAccount(k) && k !in plan.staged
      ensures exists at :: transaction.start < at <= |transaction.world.trace| && Excused(plan.view, k, transaction.world.trace[..at])
    {
      assert Excused(plan.view, k, transaction.world.trace[..transaction.declined[k]]);
    }
  }

  lemma StagedIsNotDoomed(plan: Plan, account: Account)
    requires plan.Sound() && plan.IsStaged(account)
    ensures !plan.Doomed(account)
  {
  }

  /** Renames the old bytes back over the new document. */
  method RestoreContents(world: World, contents: Image, ghost plan: Plan, ghost full: Entries, ghost seen: set<Account>, ghost from: nat, steady: bool) returns (ok: bool)
    requires contents.File? && contents == plan.before && from <= |world.trace|
    requires world.visible == world.durable == File(plan.after)
    requires plan.Sound() && plan.Full(full) && AgreeOutside(world.entries, full, seen)
    requires forall a :: a in seen ==> plan.Doomed(a)
    requires SafeRun(plan, world.trace, from) && KeptExactly(plan.base, world.entries, world.trace, from)
    modifies world`visible, world`durable, world`trace
    ensures old(world.trace) <= world.trace
    ensures SafeRun(plan, world.trace, from) && KeptExactly(plan.base, world.entries, world.trace, from)
    ensures ok ==> world.visible == world.durable == plan.before
    ensures !ok ==> !steady || (|world.trace| > |old(world.trace)| && Faulty(world.trace[|world.trace| - 1]))
    ensures !ok ==> world.visible in {plan.before, File(plan.after)} && world.durable in {plan.before, File(plan.after)}
  {
    hide Plan.Sound, Plan.Full, AgreeOutside, SafeRun, KeptExactly, KeepsNew, ImageSafe, Follows;
    NewImageSurvives(plan, full, world.entries, seen);
    var prepared: bool := *;
    if !prepared && !steady {
      return false;
    }
    ghost var t0 := world.trace;
    ok := world.Install(contents.document, false);
    StepIsSafe(plan, t0, world.trace, from, world.entries);
    if ok {
      ghost var t1 := world.trace;
      ok := world.Sync();
      StepIsSafe(plan, t1, world.trace, from, world.entries);
    }
  }

  /** What the keychain and the file look like, by outcome, once the new document
      has been put in place. */
  ghost predicate AfterInstall(plan: Plan, world: World, error: Option<WriteError>, from: nat)
    reads world
  {
    match error
    case None => Written(plan, world) && StraysAll(plan.strays, world.trace, from)
    case Some(FileFailed) => LeftOld(plan, world, plan.stale, from)
    case Some(NotSynced) =>
      && world.visible == File(plan.after) && world.durable in {plan.stale, File(plan.after)}
      && plan.Full(world.entries)
    case Some(OldGenerationLost) =>
      && world.visible == world.durable == File(plan.after)
      && KeepsNew(plan, world.entries) && plan.NothingElse(world.entries)
      && (forall k :: k in plan.staged ==> HoldsStaged(plan, world.entries, k))
      && (forall a :: a in plan.base && !plan.Doomed(a) ==> a in world.entries && world.entries[a] == plan.base[a])
    case Some(RestoreFailed) =>
      && world.visible in {plan.before, File(plan.after)} && world.durable in {plan.before, File(plan.after)}
      && KeepsNew(plan, world.entries) && plan.NothingElse(world.entries)
      && (forall k :: k in plan.staged ==> HoldsStaged(plan, world.entries, k))
      && KeptExactly(plan.base, world.entries, world.trace, from)
    case Some(CleanupReverted) =>
      && world.visible == world.durable == plan.before
      && Explained(world.entries, plan.base, world.trace, from)
      && KeptExactly(plan.base, world.entries, world.trace, from)
    case Some(_) => false
  }

  method InstallAndCommit(transaction: Transaction, world: World, document: Document, exclusive: bool, previous: Image, ghost plan: Plan, ghost from: nat)
    returns (error: Option<WriteError>)
    requires world == transaction.world && from == transaction.start
    requires transaction.Abandonable() && transaction.base == plan.base && transaction.config.secrets == document.secrets
    requires StraysAll(plan.strays, world.trace, from)
    requires transaction.Captured() && Listed(transaction.seen, transaction.deletes)
    requires plan.Sound() && plan.Full(world.entries) && document == plan.after && plan.strays == transaction.strays
    requires plan.before == world.visible && plan.stale == world.durable
    requires forall a :: a in transaction.writes <==> plan.IsStaged(a)
    requires forall a :: a in transaction.seen <==> plan.Doomed(a)
    requires transaction.deletes != [] ==> previous.File? && previous == plan.before
    modifies world, transaction.config`secrets
    ensures old(world.trace) <= world.trace
    ensures SafeRun(plan, world.trace, from)
    ensures AfterInstall(plan, world, error, from)
    ensures transaction.config.secrets == transaction.view.secrets
    ensures error.None? && exclusive ==> plan.before.Absent?
    ensures error.Some? ==> !Smooth(world.trace, |old(world.trace)|)
  {
    hide Smooth, Faulty, Follows, SafeRun, Plan.Sound, Plan.Full, KeptExactly, ImageSafe, Withdrawable, Undoable, StraysKnown, StraysAll, Written, KeepsNew;
    CalmIsSafe(plan, world.trace, from);
    FullBounds(plan, world.entries, world.entries, transaction.writes);
    CalmKeeps(plan.base, world.entries, world.trace, from, world.visible, world.durable);
    NewImageSurvives(plan, world.entries, world.entries, {});
    ghost var t0 := world.trace;
    var installed := world.Install(document, exclusive);
    StepIsSafe(plan, t0, world.trace, from, world.entries);
    LastIsFaulty(world.trace, |t0|);
    if !installed {
      ghost var refused := world.trace;
      StraysKept(transaction.strays, transaction.strays, t0, world.trace, from);
      transaction.Abandon();
      FaultStays(refused, world.trace, |t0|, |t0|);
      CalmIsSafe(plan, world.trace, from);
      return Some(FileFailed);
    }
    ghost var t1 := world.trace;
    var synced := world.Sync();
    StepIsSafe(plan, t1, world.trace, from, world.entries);
    if !synced {
      LastIsFaulty(world.trace, |t0|);
      transaction.Restore();
      return Some(NotSynced);
    }
    ghost var mark := |world.trace|;
    StraysKept(transaction.strays, transaction.strays, t0, world.trace, from);
    StraysStay(plan.strays, t0, world.trace, from);
    error := CommitOrRevert(transaction, world, previous, plan, from);
    if !Smooth(world.trace, mark) {
      FaultStays(world.trace, world.trace, mark, |t0|);
    }
  }

  lemma LastIsFaulty(trace: seq<Step>, from: nat)
    requires from < |trace|
    ensures Faulty(trace[|trace| - 1]) ==> !Smooth(trace, from)
    ensures trace[|trace| - 1].event in {Installed(false), Synced(false)} ==> Faulty(trace[|trace| - 1])
  {
  }

  lemma CommittedIsWritten(plan: Plan, full: Entries, entries: Entries, seen: set<Account>)
    requires plan.Sound() && plan.Full(full) && entries == full - seen
    requires forall a :: a in seen <==> plan.Doomed(a)
    ensures forall a :: a in plan.strays ==> a !in plan.base && !plan.IsStaged(a) && (a in entries <==> !plan.Doomed(a))
    ensures forall a :: a !in plan.strays ==> (a in entries <==> !plan.Doomed(a) && (a in plan.base || plan.IsStaged(a)))
    ensures forall a :: !plan.Doomed(a) && (a in plan.base || plan.IsStaged(a)) ==> a in entries
    ensures forall a :: a in entries && a in plan.base ==> entries[a] == plan.base[a]
    ensures forall k :: k in plan.staged ==> HoldsStaged(plan, entries, k)
  {
    forall k | k in plan.staged ensures HoldsStaged(plan, entries, k) {
      StagedIsNotDoomed(plan, plan.staged[k]);
    }
  }

  lemma UndoneKeepsStaged(plan: Plan, full: Entries, entries: Entries, seen: set<Account>)
    requires plan.Sound() && plan.Full(full) && AgreeOutside(entries, full, seen)
    requires forall a :: a in seen <==> plan.Doomed(a)
    ensures forall k :: k in plan.staged ==> HoldsStaged(plan, entries, k)
    ensures forall a :: a in plan.base && !plan.Doomed(a) ==> a in entries && entries[a] == plan.base[a]
  {
    forall k | k in plan.staged ensures HoldsStaged(plan, entries, k) {
      StagedIsNotDoomed(plan, plan.staged[k]);
    }
  }

  lemma WritesAreNew(base: Entries, writes: seq<Account>, strays: set<Account>, entries: Entries)
    requires Withdrawable(base, writes, strays, entries)
    ensures forall a :: a in writes ==> a !in base
  {
  }

  lemma FullBounds(plan: Plan, full: Entries, entries: Entries, writes: seq<Account>)
    requires plan.Full(full) && forall a :: a in entries ==> a in full
    requires forall a :: a in writes <==> plan.IsStaged(a)
    ensures Extends(full, plan.base) && plan.NothingElse(entries)
    ensures forall a :: a in entries ==> a in plan.base || a in writes || a in plan.strays
  {
  }

  method CommitOrRevert(transaction: Transaction, world: World, previous: Image, ghost plan: Plan, ghost from: nat)
    returns (error: Option<WriteError>)
    requires world == transaction.world && from == transaction.start && from <= |world.trace|
    requires transaction.base == plan.base && transaction.strays == plan.strays
    requires StraysKnown(plan.strays, world.trace, from) && StraysAll(plan.strays, world.trace, from)
    requires Undoable(transaction.view, transaction.config.secrets, transaction.swaps)
    requires Withdrawable(plan.base, transaction.writes, transaction.strays, world.entries)
    requires transaction.Captured() && Listed(transaction.seen, transaction.deletes)
    requires plan.Sound() && plan.Full(world.entries) && SafeRun(plan, world.trace, from)
    requires KeptExactly(plan.base, world.entries, world.trace, from)
    requires world.visible == world.durable == File(plan.after)
    requires forall a :: a in transaction.writes <==> plan.IsStaged(a)
    requires forall a :: a in transaction.seen <==> plan.Doomed(a)
    requires transaction.deletes != [] ==> previous.File? && previous == plan.before
    modifies world, transaction.config`secrets
    ensures old(world.trace) <= world.trace
    ensures SafeRun(plan, world.trace, from)
    ensures error.None? || error == Some(OldGenerationLost) || error == Some(RestoreFailed) || error == Some(CleanupReverted)
    ensures AfterInstall(plan, world, error, from)
    ensures transaction.config.secrets == transaction.view.secrets
    ensures error.Some? ==> !Smooth(world.trace, |old(world.trace)|)
  {
    hide Smooth, Faulty, Plan.Sound, SafeRun, SafeAt, Plan.Full, Withdrawable, Undoable, KeepsNew, OnlyDoomedMoved, AgreeOutside, HoldsStaged, Plan.Doomed,
      KeptExactly, AsRestored, CommitRun, StraysKnown, StraysAll, NoneRefused, Explained, Plan.NothingElse;
    ghost var full, before := world.entries, world.trace;
    WritesAreNew(plan.base, transaction.writes, transaction.strays, world.entries);
    var outcome, _ := transaction.Commit();
    ghost var committed := world.trace;
    DeletesAreSafe(plan, full, world.trace, from, |before|, transaction.seen);
    RunsJoin(plan, before, world.trace, from);
    StraysKept(plan.strays, plan.strays, before, world.trace, from);
    UndoneKeepsStaged(plan, full, world.entries, transaction.seen);
    NewImageSurvives(plan, full, world.entries, transaction.seen);
    FullBounds(plan, full, world.entries, transaction.writes);
    match outcome
    case Committed =>
      CommittedIsWritten(plan, full, world.entries, transaction.seen);
      StraysStay(plan.strays, before, world.trace, from);
      transaction.Restore();
      error := None;
    case Unrestored =>
      transaction.Restore();
      error := Some(OldGenerationLost);
    case RolledBack =>
      RestoredExactly(plan.base, full, world.entries, before, world.trace, from);
      ghost var undone := world.trace;
      var restored := RestoreContents(world, previous, plan, full, transaction.seen, from, transaction.steady);
      transaction.Restore();
      FaultStays(committed, world.trace, |before|, |before|);
      if !restored {
        return Some(RestoreFailed);
      }
      StraysKept(plan.strays, plan.strays, undone, world.trace, from);
      Withdraw(transaction, world, plan, from);
      FaultStays(committed, world.trace, |before|, |before|);
      error := Some(CleanupReverted);
  }

  /** Withdraws the staged accounts once the old document is durable again. */
  method Withdraw(transaction: Transaction, world: World, ghost plan: Plan, ghost from: nat)
    requires world == transaction.world && from <= |world.trace|
    requires KeptExactly(plan.base, world.entries, world.trace, from) && SafeRun(plan, world.trace, from)
    requires StraysKnown(plan.strays, world.trace, from)
    requires forall a :: a in world.entries ==> a in plan.base || a in transaction.writes || a in plan.strays
    requires forall a :: a in transaction.writes ==> a !in plan.base
    requires world.visible == world.durable == plan.before
    requires plan.before == File(plan.after) ==> ImageSafe(plan, plan.before, world.entries)
    modifies world`entries, world`trace
    ensures old(world.trace) <= world.trace
    ensures SafeRun(plan, world.trace, from) && KeptExactly(plan.base, world.entries, world.trace, from)
    ensures Explained(world.entries, plan.base, world.trace, from)
  {
    hide StraysKnown, SafeRun, KeptExactly, ImageSafe;
    ghost var entries, before := world.entries, world.trace;
    transaction.Rollback();
    StraysKept(plan.strays, plan.strays, before, world.trace, from);
    ExplainedAtLast(plan.base, transaction.writes, plan.strays, entries, world.entries, world.trace, from, |before|);
    WithdrawalIsSafe(plan, before, entries, entries - (set a | a in transaction.writes), world.trace, from);
    assert KeptExactly(plan.base, world.entries, before, from) by {
      SameOldEntries(plan.base, entries, world.entries, before, from);
    }
    StillKept(plan.base, world.entries, before, world.trace, from);
  }

  lemma SameOldEntries(base: Entries, entries: Entries, after: Entries, trace: seq<Step>, from: nat)
    requires KeptExactly(base, entries, trace, from) && Extends(entries, after)
    requires forall a :: a in base && a in entries ==> a in after
    ensures KeptExactly(base, after, trace, from)
    ensures forall image :: KeepsImage(image, base, entries) ==> KeepsImage(image, base, after)
  {
    hide Undamaged;
    forall a | a in base ensures Intact(entries, base, a) <==> Intact(after, base, a) {
    }
  }

  /** Taking the staged accounts away costs the old document nothing. */
  lemma WithdrawalIsSafe(plan: Plan, before: seq<Step>, entries: Entries, kept: Entries, trace: seq<Step>, from: nat)
    requires before <= trace && from <= |before| && SafeRun(plan, before, from)
    requires KeptExactly(plan.base, entries, before, from)
    requires plan.before == File(plan.after) ==> ImageSafe(plan, plan.before, entries)
    requires forall a :: a in plan.base && a in entries ==> a in kept
    requires Calm(trace, |before|, kept, plan.before, plan.before) && Shrinks(trace, |before|, entries)
    ensures SafeRun(plan, trace, from)
  {
    forall i | |before| <= i < |trace| ensures SafeAt(plan, trace, from, i) {
      SameOldEntries(plan.base, entries, trace[i].entries, before, from);
      StillKept(plan.base, trace[i].entries, before, trace[..i + 1], from);
      SettledIsSafe(plan, trace, from, i);
    }
    RunsJoin(plan, before, trace, from);
  }

  /** Reading accounts after reconciliation does not spoil the way back. */
  lemma StillAbandonable(transaction: Transaction, before: seq<Step>)
    requires transaction.start <= |before| && before <= transaction.world.trace
    requires Calm(before, transaction.start, transaction.base, transaction.world.visible, transaction.world.durable)
    requires Calm(transaction.world.trace, |before|, transaction.world.entries, transaction.world.visible, transaction.world.durable)
    requires Undoable(transaction.view, transaction.config.secrets, transaction.swaps)
    requires Withdrawable(transaction.base, transaction.writes, transaction.strays, transaction.world.entries)
    requires StraysKnown(transaction.strays, before, transaction.start)
    ensures transaction.Abandonable()
  {
    CalmExtended(before, transaction.world.trace, transaction.start, transaction.base, transaction.world.entries,
      transaction.world.visible, transaction.world.durable);
    StraysKept(transaction.strays, transaction.strays, before, transaction.world.trace, transaction.start);
  }

  /** The write got as far as putting the new document in place, or trying to. */
  predicate Reaches(error: Option<WriteError>, migrationOnly: bool, count: nat) {
    if error.None? then !(migrationOnly && count == 0)
    else error.value in {FileFailed, NotSynced, OldGenerationLost, RestoreFailed, CleanupReverted}
  }

  /** After a successful write the keychain is the old one minus the doomed accounts
      plus the staged ones, exactly when each account that a refused Set stored all the
      same was doomed as well. */
  lemma WrittenExactly(plan: Plan, world: World, from: nat)
    requires Written(plan, world) && StraysKnown(plan.strays, world.trace, from) && StraysAll(plan.strays, world.trace, from)
    ensures (forall a :: a in world.entries <==> !plan.Doomed(a) && (a in plan.base || plan.IsStaged(a)))
            <==> (forall a :: StoredAllTheSame(world.trace, from, a) ==> plan.Doomed(a))
  {
  }

  /** The write as a whole. Its contract reads in five parts: what a crash at any
      step leaves behind, the outcome each error stands for, why a credential may
      stay in plaintext, that only the document the configuration came from is ever
      replaced, and that a write which meets no fault succeeds. `steady` says that the
      random source and the preparation of files do not fail; without it they may. */
  method WriteConfig(config: Config, world: World, migrationOnly: bool, steady: bool)
    returns (count: nat, error: Option<WriteError>, ghost plan: Plan)
    requires config.Snapshot().WellFormed()
    modifies world
    ensures old(world.trace) <= world.trace
    ensures plan.before == old(world.visible) && plan.stale == old(world.durable)
    ensures plan.base == old(world.entries) && plan.view == config.Snapshot()
    ensures SafeRun(plan, world.trace, |old(world.trace)|)
    ensures match error
            case None =>
              if migrationOnly && count == 0 then LeftOld(plan, world, plan.stale, |old(world.trace)|)
              else Written(plan, world) && StraysAll(plan.strays, world.trace, |old(world.trace)|)
            case Some(SourceChanged) => world.trace == old(world.trace) && LeftOld(plan, world, plan.stale, |old(world.trace)|)
            case Some(Refused(_)) => LeftOld(plan, world, plan.stale, |old(world.trace)|)
            case Some(DeletesNotReady) => LeftOld(plan, world, plan.stale, |old(world.trace)|)
            case Some(_) => AfterInstall(plan, world, error, |old(world.trace)|)
    ensures error == Some(Refused(UnwritableField)) ==> exists k :: k in config.secrets && plan.view.Unwritable(k)
    ensures (exists k :: k in config.secrets && plan.view.Unwritable(k)) ==> error.Some? && world.trace == old(world.trace)
    ensures Reaches(error, migrationOnly, count) ==>
              && plan.Sound() && plan.after.body == config.body
              && Excuses(plan, world.trace, |old(world.trace)|) && StraysKnown(plan.strays, world.trace, |old(world.trace)|)
    ensures steady && Smooth(world.trace, |old(world.trace)|) && CameFrom(config.origin, plan.before)
            && StillReferenced(config.source, config.states, plan.before) && (forall k :: k in config.secrets ==> !plan.view.Unwritable(k))
            && (plan.before.File? || forall a :: !plan.Doomed(a)) ==>
              error.None? || error == Some(Refused(NoFreshGeneration))
    ensures !plan.view.HasSecrets() ==> NeverOpened(world.trace, |old(world.trace)|)
    ensures world.visible != plan.before || (error.None? && !(migrationOnly && count == 0)) ==> CameFrom(config.origin, plan.before)
  {
    hide Smooth, Plan.Doomed, StillReferenced, View.WellFormed, View.HasSecrets, View.Refuses, View.Unwritable, Plan.Sound, SafeRun, SafeAt, Written, StraysKnown, StraysAll, Excuses, KeptExactly, Plan.Full, KeepsNew, ImageSafe;
    ghost var from := |world.trace|;
    plan := Plan(world.visible, world.durable, Document(config.body, map[]), world.entries, config.Snapshot(), map[], {});
    var draft := new Config(config.source, config.body, config.secrets, config.states, config.mutations, config.origin);
    var valid := ValidateSnapshot(draft, world, steady);
    CalmIsSafe(plan, world.trace, from);
    if !valid {
      return 0, Some(SourceChanged), plan;
    }
    if !draft.Snapshot().HasSecrets() {
      plan := plan.(after := Document(config.body, config.secrets));
      NothingUnwritable(plan.view);
      if !migrationOnly {
        FileOnlyIsSound(plan, world.trace, from);
        error := WriteFileOnly(world, Document(config.body, config.secrets), config.origin.NoFile?, plan, steady);
        FileOnlyIsSound(plan, world.trace, from);
        return 0, error, plan;
      }
      CalmIsSafe(plan, world.trace, from);
      return 0, None, plan;
    }
    var transaction, refusal := Reconcile(draft, world, steady);
    if refusal.Some? {
      CalmIsSafe(plan, world.trace, from);
      return 0, Some(Refused(refusal.value)), plan;
    }
    ghost var reconciled := |world.trace|;
    count, error, plan := WriteReconciled(transaction, draft, world, migrationOnly);
    if !Smooth(world.trace, reconciled) {
      FaultStays(world.trace, world.trace, reconciled, from);
    }
  }

  /** Nothing but file events since `from`. */
  ghost predicate NeverOpened(trace: seq<Step>, from: nat) {
    forall i :: from <= i < |trace| ==> trace[i].event.Installed? || trace[i].event.Synced?
  }

  /** A plan that changes the file alone. */
  ghost predicate FileOnly(plan: Plan) {
    !plan.view.HasSecrets() && plan.after.secrets == plan.view.secrets && plan.staged == map[] && plan.strays == {}
  }

  lemma FileOnlyIsSound(plan: Plan, trace: seq<Step>, from: nat)
    requires FileOnly(plan)
    ensures plan.Sound() && plan.Full(plan.base) && KeepsNew(plan, plan.base)
    ensures ImageSafe(plan, File(plan.after), plan.base)
    ensures Excuses(plan, trace, from) && StraysKnown(plan.strays, trace, from)
    ensures forall a :: !plan.Doomed(a) && !plan.IsStaged(a)
  {
    forall k | k in plan.view.secrets ensures plan.view.secrets[k].text.Empty? && !plan.view.Refuses(k) {
    }
  }

  lemma NothingUnwritable(view: View)
    requires !view.HasSecrets()
    ensures forall k :: k in view.secrets ==> !view.Unwritable(k)
  {
  }

  /** The write of a configuration without secrets. */
  method WriteFileOnly(world: World, document: Document, exclusive: bool, ghost plan: Plan, steady: bool) returns (error: Option<WriteError>)
    requires FileOnly(plan) && plan.before == world.visible && plan.stale == world.durable && plan.base == world.entries
    requires document == plan.after
    modifies world`visible, world`durable, world`trace
    ensures old(world.trace) <= world.trace && NeverOpened(world.trace, |old(world.trace)|)
    ensures SafeRun(plan, world.trace, |old(world.trace)|) && AfterInstall(plan, world, error, |old(world.trace)|)
    ensures error.None? || error == Some(FileFailed) || error == Some(NotSynced)
    ensures error.Some? ==> !steady || !Smooth(world.trace, |old(world.trace)|)
    ensures error.None? && exclusive ==> plan.before.Absent?
  {
    hide Plan.Sound, Plan.Full, SafeRun, KeptExactly, KeepsNew, ImageSafe, Follows, Plan.Doomed, Plan.IsStaged, FileOnly;
    ghost var from := |world.trace|;
    FileOnlyIsSound(plan, world.trace, from);
    CalmIsSafe(plan, world.trace, from);
    CalmKeeps(plan.base, plan.base, world.trace, from, plan.before, plan.stale);
    var prepared: bool := *;
    if !prepared && !steady {
      return Some(FileFailed);
    }
    ghost var t0 := world.trace;
    var installed := world.Install(document, exclusive);
    StepIsSafe(plan, t0, world.trace, from, plan.base);
    LastIsFaulty(world.trace, from);
    if !installed {
      return Some(FileFailed);
    }
    ghost var t1 := world.trace;
    var synced := world.Sync();
    StepIsSafe(plan, t1, world.trace, from, plan.base);
    LastIsFaulty(world.trace, from);
    if !synced {
      return Some(NotSynced);
    }
    FileOnlyIsWritten(plan, world, from);
    error := None;
  }

  lemma FileOnlyIsWritten(plan: Plan, world: World, from: nat)
    requires FileOnly(plan) && world.visible == world.durable == File(plan.after) && world.entries == plan.base
    requires NeverOpened(world.trace, from)
    ensures Written(plan, world) && StraysAll(plan.strays, world.trace, from)
  {
    FileOnlyIsSound(plan, world.trace, from);
    NothingStored(world.trace, from);
  }

  method WriteReconciled(transaction: Transaction, draft: Config, world: World, migrationOnly: bool)
    returns (count: nat, error: Option<WriteError>, ghost plan: Plan)
    requires world == transaction.world && draft == transaction.config
    requires transaction.Progress(transaction.view.secrets.Keys, transaction.view.states.Keys)
    modifies world, transaction, draft`secrets
    ensures old(world.trace) <= world.trace
    ensures plan.before == old(world.visible) && plan.stale == old(world.durable)
    ensures plan.base == transaction.base && plan.view == transaction.view
    ensures SafeRun(plan, world.trace, transaction.start)
    ensures error.None? && migrationOnly && count == 0 ==> LeftOld(plan, world, plan.stale, transaction.start)
    ensures error == Some(DeletesNotReady) ==> LeftOld(plan, world, plan.stale, transaction.start)
    ensures !(error.None? && migrationOnly && count == 0) && error != Some(DeletesNotReady) ==>
              && AfterInstall(plan, world, error, transaction.start) && plan.Sound()
              && plan.after.body == draft.body && Excuses(plan, world.trace, transaction.start)
              && StraysKnown(plan.strays, world.trace, transaction.start)
              && (error.None? ==> draft.origin.NoFile? ==> plan.before.Absent?)
    ensures error.Some? ==>
              !transaction.steady || !Smooth(world.trace, |old(world.trace)|) || (old(world.visible).Absent? && exists a :: plan.Doomed(a))
    ensures error.None? || error == Some(DeletesNotReady) || error == Some(FileFailed) || error == Some(NotSynced)
         || error == Some(OldGenerationLost) || error == Some(RestoreFailed) || error == Some(CleanupReverted)
  {
    hide Plan.Sound, SafeRun, Plan.Full, Withdrawable, Undoable, OnlyDoomedMoved, Excuses, Calm, StraysKnown, StraysAll, NoneRefused, Smooth;
    ghost var from := transaction.start;
    plan := PlanOf(transaction, world.visible, world.durable, draft.body);
    PlanIsSound(transaction, plan, draft.body);
    CalmIsSafe(plan, world.trace, from);
    count := |transaction.writes|;
    if migrationOnly && count == 0 {
      transaction.Abandon();
      CalmIsSafe(plan, world.trace, from);
      return count, None, plan;
    }
    ghost var before := world.trace;
    var ready := transaction.PreflightDeletes();
    StillAbandonable(transaction, before);
    StraysStay(plan.strays, before, world.trace, from);
    ghost var inspected := world.trace;
    if !ready {
      transaction.Abandon();
      FaultStays(inspected, world.trace, |before|, |before|);
      CalmIsSafe(plan, world.trace, from);
      return 0, Some(DeletesNotReady), plan;
    }
    var previous := world.visible;
    var prepared: bool := *;
    if (transaction.deletes != [] && previous.Absent?) || (!prepared && !transaction.steady) {
      if transaction.deletes != [] {
        assert plan.Doomed(transaction.deletes[0].account);
      }
      transaction.Abandon();
      CalmIsSafe(plan, world.trace, from);
      ExcusesKept(plan, before, world.trace, from);
      StraysKept(plan.strays, plan.strays, before, world.trace, from);
      return 0, Some(FileFailed), plan;
    }
    error := InstallAndCommit(transaction, world, Document(draft.body, draft.secrets), draft.origin.NoFile?, previous, plan, from);
    if !Smooth(world.trace, |inspected|) {
      FaultStays(world.trace, world.trace, |inspected|, |before|);
    }
    ExcusesKept(plan, before, world.trace, from);
    StraysKept(plan.strays, plan.strays, before, world.trace, from);
  }
}
