/** Any number of processes that share one config file and refresh its rotating
    token (internal/config/rest.go and the locked part of internal/auth/transport.go).
    The server numbers the refresh tokens it issues; a login or a refresh gets the
    next number. */
module TokenFile {
  import opened Wrappers

  /** A rotated generation: `next` was issued in exchange for `previous`. */
  datatype Debt = Debt(previous: nat, next: nat)

  datatype Phase =
    | Outside
    | Locked
    | Ready(presents: nat)
    | Owing
    | Leaving

  /** `owed` outlives the lock: a failed persist keeps it for the next call. */
  datatype Process = Process(phase: Phase, owed: Option<Debt>)

  datatype State = State(
    file: nat,
    lock: Option<nat>,
    processes: map<nat, Process>,
    issued: nat,
    answered: seq<nat>,
    lost: set<nat>)

  datatype Outcome = Written | Unverifiable | NotWritten | WrittenButReported

  datatype Action =
    | Acquire
    | ReloadFails
    | FreshEnough
    | Reload
    | ServerRefuses
    | ServerRotates
    | ServerGarbles
    | Persist(outcome: Outcome)
    | Release
    | Crash
    | Login

  datatype Label = Label(process: nat, action: Action)

  function Put(s: State, p: nat, next: Process): State {
    s.(processes := s.processes[p := next])
  }

  predicate Enabled(s: State, l: Label) {
    && l.process in s.processes
    && var p := s.processes[l.process];
    match l.action
    case Acquire => s.lock.None? && p.phase.Outside?
    case ReloadFails => p.phase.Locked? && p.owed.None?
    case FreshEnough => p.phase.Locked? && p.owed.None?
    case Reload => p.phase.Locked? && p.owed.None?
    case ServerRefuses => p.phase.Ready?
    case ServerRotates => p.phase.Ready?
    case ServerGarbles => p.phase.Ready?
    case Persist(_) => (p.phase.Locked? || p.phase.Owing?) && p.owed.Some?
    case Release => p.phase.Leaving?
    case Crash => true
    case Login => s.lock.None?
  }

  function Step(s: State, l: Label): State
    requires Enabled(s, l)
  {
    var g, p := l.process, s.processes[l.process];
    match l.action
    case Acquire => Put(s.(lock := Some(g)), g, p.(phase := Locked))
    case ReloadFails => Put(s, g, p.(phase := Leaving))
    case FreshEnough => Put(s, g, p.(phase := Leaving))
    case Reload => Put(s, g, p.(phase := Ready(s.file)))
    case ServerRefuses => Put(s, g, p.(phase := Leaving))
    case ServerRotates =>
      Put(s.(answered := s.answered + [p.phase.presents], issued := s.issued + 1), g,
          Process(Owing, Some(Debt(p.phase.presents, s.issued))))
    case ServerGarbles =>
      Put(s.(answered := s.answered + [p.phase.presents], lost := s.lost + {p.phase.presents}), g, Process(Leaving, None))
    case Persist(outcome) => PersistStep(s, g, p.owed.value, outcome)
    case Release => Put(s.(lock := None), g, p.(phase := Outside))
    case Crash =>
      Put(s.(lock := if s.lock == Some(g) then None else s.lock,
             lost := s.lost + (if p.owed.Some? then {p.owed.value.previous} else {})), g, Process(Outside, None))
    case Login => s.(file := s.issued, issued := s.issued + 1)
  }

  /** The persistence callback: idempotent success, an unreadable generation, a lost
      compare-and-swap, or a write. */
  function PersistStep(s: State, g: nat, debt: Debt, outcome: Outcome): State
    requires g in s.processes
  {
    if s.file == debt.next then Put(s, g, Process(Leaving, None))
    else if outcome.Unverifiable? then Put(s.(lost := s.lost + {debt.previous}), g, Process(Leaving, Some(debt)))
    else if s.file != debt.previous then Put(s, g, Process(Leaving, None))
    else match outcome
      case Written => Put(s.(file := debt.next), g, Process(Leaving, None))
      case WrittenButReported => Put(s.(file := debt.next, lost := s.lost + {debt.previous}), g, Process(Leaving, Some(debt)))
      case _ => Put(s.(lost := s.lost + {debt.previous}), g, Process(Leaving, Some(debt)))
  }

  ghost predicate Initial(s: State) {
    && s.file < s.issued && s.lock.None? && s.answered == [] && s.lost == {}
    && forall g :: g in s.processes ==> s.processes[g] == Process(Outside, None)
  }

  ghost predicate LockOwned(s: State) {
    forall g :: g in s.processes ==> (s.lock == Some(g) <==> !s.processes[g].phase.Outside?)
  }

  /** Issue order: an answered token has been in the file, and a debt points
      forward. */
  ghost predicate Ordered(s: State) {
    && s.file < s.issued
    && (forall t :: t in s.answered ==> t <= s.file)
    && (forall g :: g in s.processes && s.processes[g].owed.Some? ==>
          s.processes[g].owed.value.previous < s.processes[g].owed.value.next < s.issued)
  }

  /** A used-up token stays in the file only while its exchange is being persisted,
      unless that persistence failed or its process died. */
  ghost predicate Accounted(s: State) {
    && (s.file in s.answered && s.file !in s.lost ==>
          s.lock.Some? && s.lock.value in s.processes
          && s.processes[s.lock.value].phase.Owing?
          && s.processes[s.lock.value].owed.Some? && s.processes[s.lock.value].owed.value.previous == s.file)
    && (forall g :: g in s.processes && s.processes[g].phase.Ready? ==> s.processes[g].phase.presents == s.file)
    && (forall g :: g in s.processes && s.processes[g].phase.Owing? ==> s.processes[g].owed.Some?)
  }

  ghost predicate NoneTwice(s: State) {
    forall i, j :: 0 <= i < j < |s.answered| && s.answered[i] == s.answered[j] ==> s.answered[i] in s.lost
  }

  ghost predicate Inv(s: State) {
    LockOwned(s) && Ordered(s) && Accounted(s) && NoneTwice(s)
  }

  lemma StepKeepsLock(s: State, l: Label)
    requires LockOwned(s) && Enabled(s, l)
    ensures LockOwned(Step(s, l))
  {
  }

  lemma StepKeepsOrder(s: State, l: Label)
    requires Ordered(s) && Accounted(s) && Enabled(s, l)
    ensures Ordered(Step(s, l))
  {
  }

  lemma StepKeepsAccounts(s: State, l: Label)
    requires LockOwned(s) && Ordered(s) && Accounted(s) && Enabled(s, l)
    ensures Accounted(Step(s, l))
  {
    var t := Step(s, l);
    forall g | g in t.processes && t.processes[g].phase.Ready?
      ensures t.processes[g].phase.presents == t.file
    {
      assert g in s.processes;
      assert s.lock == Some(g) || l == Label(g, Reload);
    }
  }

  lemma StepKeepsNoneTwice(s: State, l: Label)
    requires LockOwned(s) && Accounted(s) && NoneTwice(s) && Enabled(s, l)
    ensures NoneTwice(Step(s, l))
  {
    if l.action.ServerRotates? || l.action.ServerGarbles? {
      var t := s.processes[l.process].phase.presents;
      assert s.lock == Some(l.process);
      assert t in s.answered ==> t in s.lost;
    }
  }

  lemma StepKeepsInv(s: State, l: Label)
    requires Inv(s) && Enabled(s, l)
    ensures Inv(Step(s, l))
  {
    hide Step;
    StepKeepsLock(s, l);
    StepKeepsOrder(s, l);
    StepKeepsAccounts(s, l);
    StepKeepsNoneTwice(s, l);
  }

  /** The file moves only by a login, or by a process that puts exactly the
      generation it was given in exchange for the one in the file. It never goes
      back: a newer login or refresh is never overwritten. */
  lemma PersistReplacesItsOwnGeneration(s: State, l: Label)
    requires Inv(s) && Enabled(s, l)
    ensures var t := Step(s, l);
            && s.file <= t.file
            && (t.file != s.file && !l.action.Login? ==>
                  && l.action.Persist?
                  && s.processes[l.process].owed == Some(Debt(s.file, t.file))
                  && t.file !in s.answered)
            && (l.action.Login? ==> t.file !in s.answered && s.file < t.file)
  {
  }

  /** A rotated generation that lost the race is dropped, and only then. */
  lemma SupersededDebtIsDropped(s: State, l: Label)
    requires Inv(s) && Enabled(s, l) && l.action.Persist?
    ensures var p, t := s.processes[l.process], Step(s, l);
            var settled := t.processes[l.process].owed.None?;
            && (settled ==> t.file == p.owed.value.next || (t.file == s.file && s.file != p.owed.value.previous))
            && (!settled ==> p.owed.value.previous in t.lost)
  {
  }

  ghost predicate Schedule(s: State, labels: seq<Label>)
    decreases |labels|
  {
    labels != [] ==> Enabled(s, labels[0]) && Schedule(Step(s, labels[0]), labels[1..])
  }

  ghost function Run(s: State, labels: seq<Label>): State
    requires Schedule(s, labels)
    decreases |labels|
  {
    if labels == [] then s else Run(Step(s, labels[0]), labels[1..])
  }

  lemma {:induction false} RunKeepsInv(s: State, labels: seq<Label>)
    requires Inv(s) && Schedule(s, labels)
    ensures Inv(Run(s, labels)) && s.file <= Run(s, labels).file
    decreases |labels|
  {
    if labels != [] {
      StepKeepsInv(s, labels[0]);
      PersistReplacesItsOwnGeneration(s, labels[0]);
      RunKeepsInv(Step(s, labels[0]), labels[1..]);
    }
  }

  /** A step that loses a generation: a persist that fails while the exchange is still
      due, a 200 answer without a usable replacement, or the crash of a process that
      owes one. */
  predicate Loses(s: State, l: Label)
    requires Enabled(s, l)
  {
    var owed := s.processes[l.process].owed;
    match l.action
    case Crash => owed.Some?
    case ServerGarbles => true
    case Persist(outcome) =>
      s.file != owed.value.next && (outcome.Unverifiable? || (s.file == owed.value.previous && !outcome.Written?))
    case _ => false
  }

  lemma LossesExactly(s: State, l: Label)
    requires Enabled(s, l)
    ensures !Loses(s, l) ==> Step(s, l).lost == s.lost
    ensures Loses(s, l) ==> Step(s, l).lost == s.lost + {if l.action.ServerGarbles? then s.processes[l.process].phase.presents
                                                        else s.processes[l.process].owed.value.previous}
  {
  }

  ghost predicate Lossless(s: State, labels: seq<Label>)
    requires Schedule(s, labels)
    decreases |labels|
  {
    labels != [] ==> !Loses(s, labels[0]) && Lossless(Step(s, labels[0]), labels[1..])
  }

  lemma {:induction false} LostForGood(s: State, labels: seq<Label>)
    requires Schedule(s, labels)
    ensures s.lost <= Run(s, labels).lost
    decreases |labels|
  {
    if labels != [] {
      LossesExactly(s, labels[0]);
      LostForGood(Step(s, labels[0]), labels[1..]);
    }
  }

  /** Nothing is ever lost in a run exactly when no step of it loses a generation. */
  lemma {:induction false} LossNeedsACause(s: State, labels: seq<Label>)
    requires Schedule(s, labels)
    ensures Lossless(s, labels) ==> Run(s, labels).lost == s.lost
    ensures s.lost == {} ==> (Run(s, labels).lost == {} <==> Lossless(s, labels))
    decreases |labels|
  {
    if labels != [] {
      LossesExactly(s, labels[0]);
      LostForGood(Step(s, labels[0]), labels[1..]);
      LossNeedsACause(Step(s, labels[0]), labels[1..]);
    }
  }

  /** Across any number of processes and logins: a token answered 200 twice is one
      whose exchange was lost, by a step of the run that loses one. */
  lemma AnsweredTwiceWasLost(s: State, labels: seq<Label>, i: nat, j: nat)
    requires Initial(s) && Schedule(s, labels)
    requires i < j < |Run(s, labels).answered| && Run(s, labels).answered[i] == Run(s, labels).answered[j]
    ensures Run(s, labels).answered[i] in Run(s, labels).lost
    ensures !Lossless(s, labels)
  {
    RunKeepsInv(s, labels);
    LossNeedsACause(s, labels);
  }

  /** A refresh that nobody disturbs puts the next generation in the file, frees the lock
      and owes nothing. */
  lemma UndisturbedRefreshSucceeds(s: State, p: nat)
    requires Inv(s) && p in s.processes && s.lock.None? && s.processes[p] == Process(Outside, None)
    ensures var labels := [Label(p, Acquire), Label(p, Reload), Label(p, ServerRotates), Label(p, Persist(Written)), Label(p, Release)];
            && Schedule(s, labels)
            && Run(s, labels) == s.(file := s.issued, issued := s.issued + 1, answered := s.answered + [s.file], processes := Run(s, labels).processes)
            && Run(s, labels).processes == s.processes
  {
    var a := Step(s, Label(p, Acquire));
    var b := Step(a, Label(p, Reload));
    var c := Step(b, Label(p, ServerRotates));
    var d := Step(c, Label(p, Persist(Written)));
    var e := Step(d, Label(p, Release));
    assert e.processes == s.processes;
    assert Schedule(e, []) && Run(e, []) == e;
    Unroll(d, Label(p, Release), []);
    Unroll(c, Label(p, Persist(Written)), [Label(p, Release)]);
    Unroll(b, Label(p, ServerRotates), [Label(p, Persist(Written)), Label(p, Release)]);
    Unroll(a, Label(p, Reload), [Label(p, ServerRotates), Label(p, Persist(Written)), Label(p, Release)]);
    Unroll(s, Label(p, Acquire), [Label(p, Reload), Label(p, ServerRotates), Label(p, Persist(Written)), Label(p, Release)]);
  }

  lemma Unroll(s: State, l: Label, rest: seq<Label>)
    requires Enabled(s, l) && Schedule(Step(s, l), rest)
    ensures Schedule(s, [l] + rest) && Run(s, [l] + rest) == Run(Step(s, l), rest)
  {
    assert ([l] + rest)[1..] == rest;
  }
}
