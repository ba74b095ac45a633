/** Writers of one configuration file, each a load followed by a guarded write under
    the file's lock, interleaved with one another (internal/config/loader.go). */
module LostUpdate {
  import opened Wrappers

  type Content = string

  /** What a load remembers: the hash of the bytes it read, or that there were none. */
  datatype Snapshot = NoFile | Revision(hash: nat)

  datatype Phase =
    | Idle
    | Loaded
    | Locked
    | Checked
    | Installed(previous: Option<Content>)

  datatype Writer = Writer(phase: Phase, read: Option<Content>, origin: Snapshot)

  /** A document put in place, with the content it was computed from. */
  datatype Update = Update(computedFrom: Option<Content>, content: Content)

  datatype System = System(
    file: Option<Content>,
    lock: Option<nat>,
    writers: map<nat, Writer>,
    initial: Option<Content>,
    history: seq<Update>)

  datatype Event =
    | Load(writer: nat)
    | Lock(writer: nat)
    | Check(writer: nat)
    | Install(writer: nat, content: Content)
    | Revert(writer: nat)
    | Release(writer: nat)

  function OriginOf(hash: Content -> nat, file: Option<Content>): Snapshot {
    if file.None? then NoFile else Revision(hash(file.value))
  }

  function Set(s: System, w: nat, phase: Phase): System
    requires w in s.writers
  {
    s.(writers := s.writers[w := s.writers[w].(phase := phase)])
  }

  /** Giving up, finishing and crashing all free the lock. */
  function Free(s: System, w: nat): System
    requires w in s.writers
  {
    Set(s, w, Idle).(lock := None)
  }

  /** The snapshot validation: the file must be what the writer loaded. */
  predicate SnapshotValid(hash: Content -> nat, origin: Snapshot, file: Option<Content>) {
    match origin
    case NoFile => file.None?
    case Revision(h) => file.Some? && hash(file.value) == h
  }

  function Apply(hash: Content -> nat, s: System, e: Event): System {
    var w := e.writer;
    if w !in s.writers then s
    else
      var phase := s.writers[w].phase;
      match e
      case Load(_) =>
        if phase.Idle? || phase.Loaded? then s.(writers := s.writers[w := Writer(Loaded, s.file, OriginOf(hash, s.file))]) else s
      case Lock(_) =>
        if phase.Loaded? && s.lock.None? then Set(s, w, Locked).(lock := Some(w)) else s
      case Check(_) =>
        if !phase.Locked? then s
        else if SnapshotValid(hash, s.writers[w].origin, s.file) then Set(s, w, Checked)
        else Free(s, w)
      case Install(_, content) =>
        if !phase.Checked? then s
        else if s.writers[w].origin.NoFile? && s.file.Some? then Free(s, w)
        else Set(s, w, Installed(s.file)).(
               file := Some(content), history := s.history + [Update(s.writers[w].read, content)])
      case Revert(_) =>
        if phase.Installed? && phase.previous.Some? && s.history != []
        then Free(s, w).(file := phase.previous, history := s.history[..|s.history| - 1])
        else s
      case Release(_) =>
        if phase.Locked? || phase.Checked? || phase.Installed? then Free(s, w) else s
  }

  function Before(s: System, i: int): Option<Content>
    requires 0 <= i <= |s.history|
  {
    if i == 0 then s.initial else Some(s.history[i - 1].content)
  }

  /** Each document in force was computed from exactly the content it replaced, and
      the last of them is the file. */
  ghost predicate Chain(s: System) {
    && (forall i :: 0 <= i < |s.history| ==> s.history[i].computedFrom == Before(s, i))
    && s.file == Before(s, |s.history|)
  }

  predicate Holding(phase: Phase) {
    phase.Locked? || phase.Checked? || phase.Installed?
  }

  ghost predicate LockHeld(s: System) {
    forall w :: w in s.writers ==> (Holding(s.writers[w].phase) <==> s.lock == Some(w))
  }

  ghost predicate Remembered(hash: Content -> nat, s: System) {
    forall w :: w in s.writers && !s.writers[w].phase.Idle? ==> s.writers[w].origin == OriginOf(hash, s.writers[w].read)
  }

  predicate GuardedAt(s: System, writer: Writer) {
    match writer.phase
    case Checked => s.file == writer.read
    case Installed(previous) => s.history != [] && previous == Before(s, |s.history| - 1)
    case _ => true
  }

  ghost predicate Guarded(s: System) {
    forall w :: w in s.writers ==> GuardedAt(s, s.writers[w])
  }

  ghost predicate Inv(hash: Content -> nat, s: System) {
    Chain(s) && LockHeld(s) && Remembered(hash, s) && Guarded(s)
  }

  ghost predicate Injective(hash: Content -> nat) {
    forall a, b :: hash(a) == hash(b) ==> a == b
  }

  predicate Initial(s: System) {
    s.history == [] && s.file == s.initial && s.lock == None && forall w :: w in s.writers ==> s.writers[w].phase.Idle?
  }

  lemma ValidMeansRead(hash: Content -> nat, read: Option<Content>, file: Option<Content>)
    requires Injective(hash)
    ensures SnapshotValid(hash, OriginOf(hash, read), file) <==> file == read
  {
  }

  lemma StepKeepsLock(hash: Content -> nat, s: System, e: Event)
    requires LockHeld(s)
    ensures LockHeld(Apply(hash, s, e))
  {
  }

  lemma StepKeepsRemembered(hash: Content -> nat, s: System, e: Event)
    requires Remembered(hash, s)
    ensures Remembered(hash, Apply(hash, s, e))
  {
  }

  lemma BeforeAlone(s: System, t: System)
    requires Chain(s) && t.history == s.history && t.initial == s.initial && t.file == s.file
    ensures Chain(t)
  {
    assert forall i :: 0 <= i <= |s.history| ==> Before(t, i) == Before(s, i);
  }

  lemma AppendingKeepsChain(s: System, t: System, content: Content)
    requires Chain(s) && t.initial == s.initial && t.history == s.history + [Update(s.file, content)] && t.file == Some(content)
    ensures Chain(t)
  {
    forall i | 0 <= i < |t.history| ensures t.history[i].computedFrom == Before(t, i) {
      assert i < |s.history| ==> Before(t, i) == Before(s, i);
    }
  }

  lemma DroppingKeepsChain(s: System, t: System)
    requires Chain(s) && s.history != [] && t.initial == s.initial && t.history == s.history[..|s.history| - 1]
    requires t.file == Before(s, |s.history| - 1)
    ensures Chain(t)
  {
    forall i | 0 <= i < |t.history| ensures t.history[i].computedFrom == Before(t, i) {
      assert t.history[i] == s.history[i] && s.history[i].computedFrom == Before(s, i);
    }
  }

  lemma StepKeepsChain(hash: Content -> nat, s: System, e: Event)
    requires Inv(hash, s)
    ensures Chain(Apply(hash, s, e))
  {
    hide Remembered, LockHeld, SnapshotValid, OriginOf, Before, Chain;
    var t := Apply(hash, s, e);
    if e.writer in s.writers {
      assert GuardedAt(s, s.writers[e.writer]);
      hide Guarded;
      if e.Install? && t.history != s.history {
        AppendingKeepsChain(s, t, e.content);
      } else if e.Revert? && t != s {
        DroppingKeepsChain(s, t);
      } else {
        BeforeAlone(s, t);
      }
    }
  }

  lemma OthersStandStill(hash: Content -> nat, s: System, e: Event, x: nat)
    requires LockHeld(s) && x in s.writers && x != e.writer && Holding(s.writers[x].phase)
    ensures var t := Apply(hash, s, e);
            x in t.writers && t.writers[x] == s.writers[x] && t.file == s.file && t.history == s.history && t.initial == s.initial
  {
  }

  lemma OwnStepIsGuarded(hash: Content -> nat, s: System, e: Event)
    requires Injective(hash) && Inv(hash, s) && e.writer in s.writers
    ensures var t := Apply(hash, s, e);
            e.writer in t.writers && GuardedAt(t, t.writers[e.writer])
  {
    hide LockHeld, Chain;
    var w, t := e.writer, Apply(hash, s, e);
    ValidMeansRead(hash, s.writers[w].read, s.file);
    assert GuardedAt(s, s.writers[w]);
    hide Injective, Guarded, SnapshotValid;
    match e
    case Load(_) =>
    case Lock(_) =>
    case Check(_) =>
    case Install(_, _) =>
      if s.history != t.history {
        assert t.history[..|t.history| - 1] == s.history && Before(t, |t.history| - 1) == Before(s, |s.history|);
        assert s.file == Before(s, |s.history|) by { ChainEnd(s); }
      }
    case Revert(_) =>
    case Release(_) =>
  }

  lemma ChainEnd(s: System)
    requires Chain(s)
    ensures s.file == Before(s, |s.history|)
  {
  }

  lemma StepKeepsGuarded(hash: Content -> nat, s: System, e: Event)
    requires Injective(hash) && Inv(hash, s)
    ensures Guarded(Apply(hash, s, e))
  {
    hide Chain, Remembered, LockHeld, Before, SnapshotValid, OriginOf;
    var t := Apply(hash, s, e);
    forall x | x in t.writers ensures GuardedAt(t, t.writers[x]) {
      if x == e.writer {
        OwnStepIsGuarded(hash, s, e);
      } else if Holding(s.writers[x].phase) {
        OthersStandStill(hash, s, e, x);
        SameGuard(s, t, s.writers[x]);
      }
    }
  }

  lemma SameGuard(s: System, t: System, writer: Writer)
    requires GuardedAt(s, writer) && t.file == s.file && t.history == s.history && t.initial == s.initial
    ensures GuardedAt(t, writer)
  {
  }

  lemma StepKeepsInv(hash: Content -> nat, s: System, e: Event)
    requires Injective(hash) && Inv(hash, s)
    ensures Inv(hash, Apply(hash, s, e))
  {
    hide Apply, Chain, LockHeld, Remembered, Guarded;
    StepKeepsLock(hash, s, e);
    StepKeepsRemembered(hash, s, e);
    StepKeepsChain(hash, s, e);
    StepKeepsGuarded(hash, s, e);
  }

  function Run(hash: Content -> nat, s: System, events: seq<Event>): System {
    if events == [] then s else Apply(hash, Run(hash, s, events[..|events| - 1]), events[|events| - 1])
  }

  /** No update is lost: in every interleaving, each document in force was computed
      from exactly the content before it. */
  lemma {:induction false} NoUpdateIsLost(hash: Content -> nat, s: System, events: seq<Event>)
    requires Injective(hash) && Initial(s)
    ensures Inv(hash, Run(hash, s, events)) && Run(hash, s, events).initial == s.initial
  {
    if events != [] {
      NoUpdateIsLost(hash, s, events[..|events| - 1]);
      StepKeepsInv(hash, Run(hash, s, events[..|events| - 1]), events[|events| - 1]);
    }
  }

  /** Over every run: a document computed from no file is the first one, and then there
      was no file to begin with. */
  lemma FirstDocumentReplacesNothing(hash: Content -> nat, s: System, events: seq<Event>, i: nat)
    requires Injective(hash) && Initial(s) && i < |Run(hash, s, events).history|
    ensures Run(hash, s, events).history[i].computedFrom.None? <==> i == 0 && s.initial.None?
  {
    NoUpdateIsLost(hash, s, events);
    assert Run(hash, s, events).history[i].computedFrom == Before(Run(hash, s, events), i);
  }

  /** The writer still goes by what it read. */
  predicate GoesBy(hash: Content -> nat, s: System, w: nat, read: Option<Content>) {
    w in s.writers && (s.writers[w].phase.Idle? || (s.writers[w].read == read && s.writers[w].origin == OriginOf(hash, read)))
  }

  lemma {:induction false} ReadsOnlyByLoading(hash: Content -> nat, s: System, events: seq<Event>, w: nat, read: Option<Content>)
    requires GoesBy(hash, s, w, read) && forall e :: e in events ==> e != Load(w)
    ensures GoesBy(hash, Run(hash, s, events), w, read)
  {
    if events != [] {
      var front, last := events[..|events| - 1], events[|events| - 1];
      assert events == front + [last] && last in events && forall e :: e in front ==> e in events;
      ReadsOnlyByLoading(hash, s, front, w, read);
      StepGoesBy(hash, Run(hash, s, front), last, w, read);
    }
  }

  lemma StepGoesBy(hash: Content -> nat, s: System, e: Event, w: nat, read: Option<Content>)
    requires GoesBy(hash, s, w, read) && e != Load(w)
    ensures GoesBy(hash, Apply(hash, s, e), w, read)
  {
    hide SnapshotValid, OriginOf;
  }

  lemma {:induction false} RunKeepsInv(hash: Content -> nat, s: System, events: seq<Event>)
    requires Injective(hash) && Inv(hash, s)
    ensures Inv(hash, Run(hash, s, events))
  {
    if events != [] {
      RunKeepsInv(hash, s, events[..|events| - 1]);
      StepKeepsInv(hash, Run(hash, s, events[..|events| - 1]), events[|events| - 1]);
    }
  }

  /** A writer that loaded `read` and did not load again, after any events of any
      writers: it installs only over `read`, and when it is checked against anything
      else it is turned away with the file as it was. So of two writers that loaded
      the same content, the second is rejected once the first replaced it. */
  lemma StaleWriterIsTurnedAway(hash: Content -> nat, s: System, events: seq<Event>, w: nat, e: Event)
    requires Injective(hash) && Inv(hash, s) && w in s.writers && s.writers[w].phase.Loaded?
    requires (forall x :: x in events ==> x != Load(w)) && e.writer == w && e != Load(w)
    ensures var t := Run(hash, s, events);
            var after := Apply(hash, t, e);
            && w in t.writers
            && (e.Install? && after.history != t.history ==> t.file == s.writers[w].read)
            && (e.Check? && t.writers[w].phase.Locked? ==>
                  if t.file == s.writers[w].read then after.writers[w].phase.Checked?
                  else after.writers[w].phase.Idle? && after.lock == None && after.file == t.file && after.history == t.history)
  {
    var t, read := Run(hash, s, events), s.writers[w].read;
    LoadedGoesBy(hash, s, w);
    ReadsOnlyByLoading(hash, s, events, w, read);
    RunKeepsInv(hash, s, events);
    CheckedHasRead(hash, t, w);
    ValidMeansRead(hash, read, t.file);
    hide Inv, Chain, Remembered, Guarded, LockHeld, SnapshotValid, OriginOf;
  }

  lemma LoadedGoesBy(hash: Content -> nat, s: System, w: nat)
    requires Inv(hash, s) && w in s.writers && s.writers[w].phase.Loaded?
    ensures GoesBy(hash, s, w, s.writers[w].read)
  {
  }

  lemma CheckedHasRead(hash: Content -> nat, s: System, w: nat)
    requires Inv(hash, s) && w in s.writers
    ensures s.writers[w].phase.Checked? ==> s.file == s.writers[w].read
  {
    assert GuardedAt(s, s.writers[w]);
  }

  /** A writer that nobody disturbs gets its document in place: a load, the lock, the
      check and the install, from any state with a free lock. */
  lemma UndisturbedWriterSucceeds(hash: Content -> nat, s: System, w: nat, content: Content)
    requires w in s.writers && s.lock.None? && (s.writers[w].phase.Idle? || s.writers[w].phase.Loaded?)
    ensures var t := Run(hash, s, [Load(w), Lock(w), Check(w), Install(w, content)]);
            && t.file == Some(content) && t.history == s.history + [Update(s.file, content)]
            && t.lock == Some(w) && Apply(hash, t, Release(w)).lock.None? && Apply(hash, t, Release(w)).file == Some(content)
  {
    var events := [Load(w), Lock(w), Check(w), Install(w, content)];
    assert events[..3] == [Load(w), Lock(w), Check(w)] && events[..3][..2] == [Load(w), Lock(w)];
    assert events[..3][..2][..1] == [Load(w)] && events[..3][..2][..1][..0] == [];
    var loaded := Apply(hash, s, Load(w));
    assert Run(hash, s, [Load(w)]) == loaded by {
      assert [Load(w)][..0] == [];
    }
    var locked := Apply(hash, loaded, Lock(w));
    assert Run(hash, s, [Load(w), Lock(w)]) == locked by {
      assert [Load(w), Lock(w)][..1] == [Load(w)];
    }
    var checked := Apply(hash, locked, Check(w));
    assert Run(hash, s, [Load(w), Lock(w), Check(w)]) == checked by {
      assert [Load(w), Lock(w), Check(w)][..2] == [Load(w), Lock(w)];
    }
  }
}
