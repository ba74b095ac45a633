/** The refresh transport under every interleaving of its callers
    (internal/auth/transport.go). One step is one critical section of one
    goroutine, or one of its calls to lock, reload, network or persistence. */
module SingleFlight {
  import opened RefreshTransport
  import opened TokenStates
  import opened Wrappers

  datatype Wiring = Wiring(hasLock: bool, hasReload: bool, hasOnRefresh: bool)

  datatype Stage =
    | Starting
    | Locking(hasPending: bool)
    | Locked(hasPending: bool)
    | Reloaded(adopted: bool)
    | Due
    | Calling(presented: string)
    | Received(presented: string, answer: Answer)
    | Persisting
    | Finishing(error: Option<Error>)

  datatype Goroutine =
    | Idle
    | Waiting(flight: nat)
    | Leading(flight: nat, stage: Stage)
    | Returned(joined: Option<nat>, error: Option<Error>)

  datatype Flight = Flight(done: bool, error: Option<Error>, refreshes: nat)

  datatype System = System(
    tokens: TokenState,
    inflight: Option<nat>,
    flights: seq<Flight>,
    goroutines: map<nat, Goroutine>,
    ledger: seq<Event>)

  /** What one step learns from outside. */
  datatype Choice = Choice(now: int, cancelled: bool, locked: bool, reload: Reload, answer: Answer, persist: PersistOutcome)

  datatype Label = Label(goroutine: nat, choice: Choice)

  function Become(s: System, g: nat, next: Goroutine): System {
    s.(goroutines := s.goroutines[g := next])
  }

  function Recorded(presented: string, answer: Answer): Event {
    match answer
    case NoAnswer => Event.Refused(presented)
    case NotDecodable => Event.Undecodable(presented)
    case Decoded(result) => Event.Answered(presented, result)
  }

  function Step(w: Wiring, s: System, g: nat, c: Choice): System
    requires WellShaped(s) && g in s.goroutines
  {
    match s.goroutines[g]
    case Idle =>
      (match Enter(s.tokens, c.now, c.cancelled)
       case Usable => Become(s, g, Returned(None, None))
       case Fails(error) => Become(s, g, Returned(None, Some(error)))
       case Flies =>
         if s.inflight.Some? then Become(s, g, Waiting(s.inflight.value))
         else Become(s.(inflight := Some(|s.flights|), flights := s.flights + [Flight(false, None, 0)]),
                     g, Leading(|s.flights|, Starting)))
    case Waiting(f) =>
      if c.cancelled then Become(s, g, Returned(None, Some(Cancelled)))
      else if s.flights[f].done then Become(s, g, Returned(Some(f), s.flights[f].error))
      else s
    case Leading(f, stage) => Lead(w, s, g, f, stage, c)
    case Returned(_, _) => Become(s, g, Idle)
  }

  function Lead(w: Wiring, s: System, g: nat, f: nat, stage: Stage, c: Choice): System
    requires f < |s.flights|
  {
    match stage
    case Starting => Become(s, g, Leading(f, Locking(s.tokens.pending.Some?)))
    case Locking(hasPending) =>
      if w.hasLock && !c.locked then Become(s, g, Leading(f, Finishing(Some(LockFailed))))
      else Become(s, g, Leading(f, Stage.Locked(hasPending)))
    case Locked(hasPending) =>
      if hasPending then Become(s, g, Leading(f, if s.tokens.pending.Some? then Persisting else Finishing(None)))
      else if c.cancelled then Become(s, g, Leading(f, Finishing(Some(Cancelled))))
      else LeadReload(w, s, g, f, c)
    case Reloaded(adopted) =>
      Become(s, g, Leading(f, if c.cancelled then Finishing(Some(Cancelled)) else if adopted then Finishing(None) else Due))
    case Due =>
      var error :=
        if s.tokens.refreshToken == "" then Some(MissingAfterReload)
        else if Expired(s.tokens.refreshExpiresAt, c.now) then Some(TokenExpired)
        else if c.cancelled then Some(Cancelled)
        else None;
      Become(s, g, Leading(f, if error.Some? then Finishing(error) else Calling(s.tokens.refreshToken)))
    case Calling(presented) =>
      Become(s.(ledger := s.ledger + [Recorded(presented, c.answer)],
                flights := s.flights[f := s.flights[f].(refreshes := s.flights[f].refreshes + 1)]),
             g, Leading(f, Received(presented, c.answer)))
    case Received(presented, answer) =>
      (match answer
       case NoAnswer => Become(s, g, Leading(f, Finishing(Some(RefreshFailed))))
       case NotDecodable =>
         Become(s.(tokens := Consume(s.tokens, InvalidResponse)), g, Leading(f, Finishing(Some(InvalidResponse))))
       case Decoded(result) =>
         var tokens := Apply(s.tokens, presented, result, w.hasOnRefresh);
         Become(s.(tokens := tokens), g, Leading(f, if tokens.pending.Some? then Persisting else Finishing(Validate(result)))))
    case Persisting => LeadPersist(s, g, f, c)
    case Finishing(error) =>
      Become(s.(inflight := if s.inflight == Some(f) then None else s.inflight,
                flights := s.flights[f := s.flights[f].(done := true, error := error)]),
             g, Returned(Some(f), error))
  }

  function LeadReload(w: Wiring, s: System, g: nat, f: nat, c: Choice): System {
    if w.hasReload && c.reload.ReloadError? then Become(s, g, Leading(f, Finishing(Some(ReloadFailed))))
    else if w.hasReload && c.reload.Found? && c.reload.stored.refreshToken != "" then
      var stored := c.reload.stored;
      Become(s.(tokens := Adopt(s.tokens, stored), ledger := s.ledger + [Event.Reloaded(stored.refreshToken)]), g,
             Leading(f, Stage.Reloaded(Adopted(s.tokens, stored, c.now))))
    else Become(s, g, Leading(f, Stage.Reloaded(false)))
  }

  function LeadPersist(s: System, g: nat, f: nat, c: Choice): System {
    if s.tokens.pending.None? then Become(s, g, Leading(f, Finishing(None)))
    else
      var p := s.tokens.pending.value;
      match c.persist
      case Durable =>
        Become(s.(tokens := Persisted(s.tokens), ledger := s.ledger + [Event.Stored(p.previousRefreshToken, p.refreshToken)]),
               g, Leading(f, Finishing(p.afterPersist)))
      case Changed => Become(s.(tokens := Superseded(s.tokens)), g, Leading(f, Finishing(Some(GenerationChanged))))
      case NotPersisted => Become(s, g, Leading(f, Finishing(Some(PersistFailed))))
  }

  /** Every flight a goroutine refers to exists. */
  ghost predicate WellShaped(s: System) {
    && (s.inflight.Some? ==> s.inflight.value < |s.flights|)
    && (forall g :: g in s.goroutines ==>
          && (s.goroutines[g].Waiting? ==> s.goroutines[g].flight < |s.flights|)
          && (s.goroutines[g].Leading? ==> s.goroutines[g].flight < |s.flights|))
  }

  /** `inflight` names the flight of the only leader, and there is none exactly when
      nobody leads. Whoever returned the result of a flight returned its error. */
  ghost predicate OneLeader(s: System) {
    && WellShaped(s)
    && (forall g :: g in s.goroutines && s.goroutines[g].Leading? ==> s.inflight == Some(s.goroutines[g].flight))
    && (forall g, h :: g in s.goroutines && h in s.goroutines && s.goroutines[g].Leading? && s.goroutines[h].Leading? ==> g == h)
    && (s.inflight.Some? ==> exists g :: g in s.goroutines && s.goroutines[g].Leading?)
    && (forall f :: 0 <= f < |s.flights| ==> (s.flights[f].done <==> s.inflight != Some(f)))
    && (forall g :: g in s.goroutines && s.goroutines[g].Returned? && s.goroutines[g].joined.Some? ==>
          var f := s.goroutines[g].joined.value;
          f < |s.flights| && s.flights[f].done && s.flights[f].error == s.goroutines[g].error)
  }

  /** How often the leader's flight has called the network by `stage`. */
  predicate CallsBy(stage: Stage, refreshes: nat) {
    match stage
    case Starting => refreshes == 0
    case Locking(_) => refreshes == 0
    case Locked(_) => refreshes == 0
    case Reloaded(_) => refreshes == 0
    case Due => refreshes == 0
    case Calling(_) => refreshes == 0
    case Received(_, _) => refreshes == 1
    case Persisting => refreshes <= 1
    case Finishing(_) => refreshes <= 1
  }

  ghost predicate CallsBounded(s: System) {
    && (forall f :: 0 <= f < |s.flights| ==> s.flights[f].refreshes <= 1)
    && (forall g :: g in s.goroutines && s.goroutines[g].Leading? && s.goroutines[g].flight < |s.flights| ==>
          CallsBy(s.goroutines[g].stage, s.flights[s.goroutines[g].flight].refreshes))
  }

  /** The tokens as the leader at `stage` may rely on them. */
  ghost predicate TokensAt(w: Wiring, s: System, stage: Stage) {
    match stage
    case Starting => Steady(w, s) && s.tokens.blocked.None?
    case Locking(hasPending) => Steady(w, s) && s.tokens.blocked.None? && hasPending == s.tokens.pending.Some?
    case Locked(hasPending) => Steady(w, s) && s.tokens.blocked.None? && hasPending == s.tokens.pending.Some?
    case Reloaded(adopted) =>
      Steady(w, s) && s.tokens.blocked.None? && s.tokens.pending.None? && (adopted ==> s.tokens.token != "")
    case Due => Steady(w, s) && s.tokens.blocked.None? && s.tokens.pending.None?
    case Calling(presented) =>
      && Steady(w, s) && s.tokens.blocked.None? && s.tokens.pending.None?
      && presented != "" && presented == s.tokens.refreshToken
    case Received(presented, answer) =>
      && |s.ledger| > 0 && s.ledger[|s.ledger| - 1] == Recorded(presented, answer)
      && Disciplined(s.ledger) && Held(s.tokens, Consumed(s.ledger[..|s.ledger| - 1]))
      && s.tokens.blocked.None? && s.tokens.pending.None?
      && presented != "" && presented == s.tokens.refreshToken
    case Persisting => Steady(w, s) && s.tokens.pending.Some?
    case Finishing(error) =>
      Steady(w, s) && (error.None? ==> s.tokens.token != "" && s.tokens.pending.None? && s.tokens.blocked.None?)
  }

  ghost predicate Steady(w: Wiring, s: System) {
    && Disciplined(s.ledger) && Held(s.tokens, Consumed(s.ledger))
    && (s.tokens.pending.Some? ==> w.hasOnRefresh)
  }

  ghost predicate TokensSafe(w: Wiring, s: System) {
    && (forall g :: g in s.goroutines && s.goroutines[g].Leading? ==> TokensAt(w, s, s.goroutines[g].stage))
    && (s.inflight.None? ==> Steady(w, s))
  }

  ghost predicate Inv(w: Wiring, s: System) {
    OneLeader(s) && CallsBounded(s) && TokensSafe(w, s)
  }

  /** What a leader's step does to everything but the tokens. */
  lemma LeadShape(w: Wiring, s: System, g: nat, f: nat, stage: Stage, c: Choice)
    requires f < |s.flights|
    ensures var t := Lead(w, s, g, f, stage, c);
            && t.goroutines == s.goroutines[g := t.goroutines[g]]
            && |t.flights| == |s.flights|
            && (forall i :: 0 <= i < |s.flights| && i != f ==> t.flights[i] == s.flights[i])
            && if stage.Finishing? then
                 && t.goroutines[g] == Returned(Some(f), stage.error)
                 && t.flights[f] == s.flights[f].(done := true, error := stage.error)
                 && t.inflight == (if s.inflight == Some(f) then None else s.inflight)
                 && t.tokens == s.tokens && t.ledger == s.ledger
               else
                 && t.goroutines[g].Leading? && t.goroutines[g].flight == f
                 && Remaining(t.goroutines[g].stage) < Remaining(stage)
                 && t.flights[f] == s.flights[f].(refreshes := t.flights[f].refreshes)
                 && t.inflight == s.inflight
  {
  }

  lemma LeaderKeepsOneLeader(w: Wiring, s: System, g: nat, c: Choice)
    requires OneLeader(s) && g in s.goroutines && s.goroutines[g].Leading?
    ensures OneLeader(Step(w, s, g, c))
  {
    hide Lead;
    LeadShape(w, s, g, s.goroutines[g].flight, s.goroutines[g].stage, c);
  }

  predicate Finished(s: System, f: nat, error: Option<Error>) {
    f < |s.flights| && s.flights[f].done && s.flights[f].error == error
  }

  lemma BecomingKeepsOneLeader(s: System, g: nat, next: Goroutine)
    requires OneLeader(s) && g in s.goroutines && !s.goroutines[g].Leading?
    requires !next.Leading? && (next.Waiting? ==> next.flight < |s.flights|)
    requires next.Returned? && next.joined.Some? ==> Finished(s, next.joined.value, next.error)
    ensures OneLeader(Become(s, g, next))
  {
    var t := Become(s, g, next);
    if s.inflight.Some? {
      var leader :| leader in s.goroutines && s.goroutines[leader].Leading?;
      assert t.goroutines[leader].Leading?;
    }
  }

  lemma OpeningKeepsOneLeader(s: System, g: nat)
    requires OneLeader(s) && g in s.goroutines && !s.goroutines[g].Leading? && s.inflight.None?
    ensures OneLeader(Become(s.(inflight := Some(|s.flights|), flights := s.flights + [Flight(false, None, 0)]), g, Leading(|s.flights|, Starting)))
  {
    var t := Become(s.(inflight := Some(|s.flights|), flights := s.flights + [Flight(false, None, 0)]), g, Leading(|s.flights|, Starting));
    assert t.goroutines[g].Leading?;
  }

  lemma FollowerKeepsOneLeader(w: Wiring, s: System, g: nat, c: Choice)
    requires OneLeader(s) && g in s.goroutines && !s.goroutines[g].Leading?
    ensures OneLeader(Step(w, s, g, c))
  {
    hide Lead, Enter;
    var t := Step(w, s, g, c);
    if t.flights == s.flights {
      if t != s {
        BecomingKeepsOneLeader(s, g, t.goroutines[g]);
      }
    } else {
      OpeningKeepsOneLeader(s, g);
    }
  }

  lemma StepKeepsOneLeader(w: Wiring, s: System, g: nat, c: Choice)
    requires OneLeader(s) && g in s.goroutines
    ensures OneLeader(Step(w, s, g, c))
  {
    if s.goroutines[g].Leading? {
      LeaderKeepsOneLeader(w, s, g, c);
    } else {
      FollowerKeepsOneLeader(w, s, g, c);
    }
  }

  /** A finished flight is never touched again. */
  lemma StepKeepsFinished(w: Wiring, s: System, g: nat, c: Choice, f: nat)
    requires OneLeader(s) && g in s.goroutines && f < |s.flights| && s.flights[f].done
    ensures f < |Step(w, s, g, c).flights| && Step(w, s, g, c).flights[f] == s.flights[f]
  {
    hide Lead, Enter;
    if s.goroutines[g].Leading? {
      LeadShape(w, s, g, s.goroutines[g].flight, s.goroutines[g].stage, c);
    }
  }

  lemma LeadBoundsCalls(w: Wiring, s: System, g: nat, f: nat, stage: Stage, c: Choice)
    requires f < |s.flights| && CallsBy(stage, s.flights[f].refreshes)
    ensures var t := Lead(w, s, g, f, stage, c);
            && t.flights[f].refreshes <= 1
            && (t.goroutines[g].Leading? ==> CallsBy(t.goroutines[g].stage, t.flights[f].refreshes))
  {
  }

  lemma StepKeepsCalls(w: Wiring, s: System, g: nat, c: Choice)
    requires OneLeader(s) && CallsBounded(s) && g in s.goroutines
    ensures CallsBounded(Step(w, s, g, c))
  {
    hide Lead, Enter, CallsBy;
    var t := Step(w, s, g, c);
    if s.goroutines[g].Leading? {
      var f, stage := s.goroutines[g].flight, s.goroutines[g].stage;
      LeadShape(w, s, g, f, stage, c);
      LeadBoundsCalls(w, s, g, f, stage, c);
      assert forall h :: h in t.goroutines && h != g ==> h in s.goroutines && t.goroutines[h] == s.goroutines[h];
    } else {
      assert CallsBy(Starting, 0) by { FreshFlightIsUncalled(); }
    }
  }

  lemma FreshFlightIsUncalled()
    ensures CallsBy(Starting, 0)
  {
  }

  lemma CallKeepsTokens(w: Wiring, s: System, g: nat, f: nat, presented: string, c: Choice)
    requires f < |s.flights| && TokensAt(w, s, Calling(presented))
    ensures var t := Lead(w, s, g, f, Calling(presented), c);
            t.goroutines[g].Leading? && TokensAt(w, t, t.goroutines[g].stage)
  {
    var e := Recorded(presented, c.answer);
    assert (s.ledger + [e])[..|s.ledger + [e]| - 1] == s.ledger;
    DisciplineStep(s.ledger, e);
  }

  lemma AnswerKeepsTokens(w: Wiring, s: System, g: nat, f: nat, presented: string, answer: Answer, c: Choice)
    requires f < |s.flights| && TokensAt(w, s, Received(presented, answer))
    ensures var t := Lead(w, s, g, f, Received(presented, answer), c);
            t.goroutines[g].Leading? && TokensAt(w, t, t.goroutines[g].stage)
  {
    var before := s.ledger[..|s.ledger| - 1];
    assert s.ledger == before + [Recorded(presented, answer)];
    ConsumedStep(before, Recorded(presented, answer));
    match answer
    case Decoded(result) =>
      hide Apply, Held, Disciplined, Consumed, Blank;
      ApplyKeepsHeld(s.tokens, before, result, w.hasOnRefresh);
      ApplyPends(s.tokens, presented, result, w.hasOnRefresh);
    case _ =>
  }

  lemma PersistKeepsTokens(w: Wiring, s: System, g: nat, f: nat, c: Choice)
    requires f < |s.flights| && TokensAt(w, s, Persisting)
    ensures var t := Lead(w, s, g, f, Persisting, c);
            t.goroutines[g].Leading? && TokensAt(w, t, t.goroutines[g].stage)
  {
    hide Enter, Apply, Validate;
    var p := s.tokens.pending.value;
    var e := Event.Stored(p.previousRefreshToken, p.refreshToken);
    DisciplineStep(s.ledger, e);
    ConsumedStep(s.ledger, e);
  }

  lemma ReloadKeepsTokens(w: Wiring, s: System, g: nat, f: nat, c: Choice)
    requires f < |s.flights| && TokensAt(w, s, Locked(false))
    ensures var t := Lead(w, s, g, f, Locked(false), c);
            t.goroutines[g].Leading? && TokensAt(w, t, t.goroutines[g].stage)
  {
    if c.reload.Found? {
      AdoptKeepsHeld(s.tokens, s.ledger, c.reload.stored);
    }
  }

  lemma LeaderKeepsTokens(w: Wiring, s: System, g: nat, f: nat, stage: Stage, c: Choice)
    requires f < |s.flights| && TokensAt(w, s, stage)
    ensures var t := Lead(w, s, g, f, stage, c);
            if stage.Finishing? then Steady(w, t) else t.goroutines[g].Leading? && TokensAt(w, t, t.goroutines[g].stage)
  {
    match stage
    case Locked(hasPending) =>
      if !hasPending {
        ReloadKeepsTokens(w, s, g, f, c);
      }
    case Calling(presented) => CallKeepsTokens(w, s, g, f, presented, c);
    case Received(presented, answer) => AnswerKeepsTokens(w, s, g, f, presented, answer, c);
    case Persisting => PersistKeepsTokens(w, s, g, f, c);
    case _ =>
  }

  /** Only a leader changes the tokens. */
  lemma FollowerKeepsTokens(w: Wiring, s: System, g: nat, c: Choice)
    requires OneLeader(s) && TokensSafe(w, s) && g in s.goroutines && !s.goroutines[g].Leading?
    ensures TokensSafe(w, Step(w, s, g, c))
  {
    hide Steady;
    var t := Step(w, s, g, c);
    SteadyDepends(w, s, t);
    forall h | h in t.goroutines && t.goroutines[h].Leading?
      ensures TokensAt(w, t, t.goroutines[h].stage)
    {
      if h != g {
        assert TokensAt(w, s, s.goroutines[h].stage);
        SameTokens(w, s, t, s.goroutines[h].stage);
      }
    }
  }

  lemma SteadyDepends(w: Wiring, s: System, t: System)
    requires s.tokens == t.tokens && s.ledger == t.ledger
    ensures Steady(w, s) == Steady(w, t)
  {
  }

  lemma SameTokens(w: Wiring, s: System, t: System, stage: Stage)
    requires s.tokens == t.tokens && s.ledger == t.ledger
    ensures TokensAt(w, s, stage) == TokensAt(w, t, stage)
  {
  }

  lemma StepKeepsTokens(w: Wiring, s: System, g: nat, c: Choice)
    requires OneLeader(s) && TokensSafe(w, s) && g in s.goroutines
    ensures TokensSafe(w, Step(w, s, g, c))
  {
    hide Lead, Steady, TokensAt;
    var t := Step(w, s, g, c);
    if s.goroutines[g].Leading? {
      LeadShape(w, s, g, s.goroutines[g].flight, s.goroutines[g].stage, c);
      LeaderKeepsTokens(w, s, g, s.goroutines[g].flight, s.goroutines[g].stage, c);
    } else {
      FollowerKeepsTokens(w, s, g, c);
    }
  }

  lemma StepKeepsInv(w: Wiring, s: System, g: nat, c: Choice)
    requires Inv(w, s) && g in s.goroutines
    ensures Inv(w, Step(w, s, g, c))
  {
    StepKeepsOneLeader(w, s, g, c);
    StepKeepsCalls(w, s, g, c);
    StepKeepsTokens(w, s, g, c);
  }

  /** A fresh transport: nobody in flight, nothing presented yet. */
  predicate Initial(s: System) {
    && s.inflight.None? && s.flights == [] && s.ledger == []
    && s.tokens.pending.None? && s.tokens.blocked.None?
    && forall g :: g in s.goroutines ==> s.goroutines[g].Idle?
  }

  /** The state after any schedule; labels of unknown goroutines do nothing. */
  ghost function Run(w: Wiring, s: System, labels: seq<Label>): System {
    if labels == [] then s
    else
      var before := Run(w, s, labels[..|labels| - 1]);
      var l := labels[|labels| - 1];
      if WellShaped(before) && l.goroutine in before.goroutines then Step(w, before, l.goroutine, l.choice) else before
  }

  /** Single flight and token discipline over every schedule. */
  lemma {:induction false} EveryRunIsSafe(w: Wiring, s: System, labels: seq<Label>)
    requires Initial(s)
    ensures Inv(w, Run(w, s, labels))
  {
    if labels != [] {
      EveryRunIsSafe(w, s, labels[..|labels| - 1]);
      var before := Run(w, s, labels[..|labels| - 1]);
      var l := labels[|labels| - 1];
      if l.goroutine in before.goroutines {
        StepKeepsInv(w, before, l.goroutine, l.choice);
      }
    }
  }

  /** In every run a token that was answered 200 is presented again only after the
      server or a reload supplied it in between. */
  lemma NoTokenPresentedTwice(w: Wiring, s: System, labels: seq<Label>, i: nat, j: nat, token: string)
    requires Initial(s)
    requires var ledger := Run(w, s, labels).ledger;
             && i < j < |ledger| && Presents(ledger[j], token)
             && (ledger[i] == Event.Undecodable(token) || (ledger[i].Answered? && ledger[i].presented == token))
    ensures exists k :: i <= k < j && Supplies(Run(w, s, labels).ledger[k], token)
  {
    EveryRunIsSafe(w, s, labels);
    var t := Run(w, s, labels);
    assert Disciplined(t.ledger) by {
      if t.inflight.Some? {
        var leader :| leader in t.goroutines && t.goroutines[leader].Leading?;
        assert TokensAt(w, t, t.goroutines[leader].stage);
      }
    }
    PresentedTwiceWasSupplied(t.ledger, i, j, token);
  }

  /** When a call succeeds on its own account, at that instant nothing is pending,
      nothing is blocked and there is a token to expose. */
  lemma SuccessIsUsable(w: Wiring, s: System, g: nat, c: Choice)
    requires Inv(w, s) && g in s.goroutines && (s.goroutines[g].Idle? || s.goroutines[g].Leading?)
    requires Step(w, s, g, c).goroutines[g].Returned? && Step(w, s, g, c).goroutines[g].error.None?
    ensures var t := Step(w, s, g, c).tokens;
            && t == s.tokens && t.token != "" && t.pending.None? && t.blocked.None?
            && (s.goroutines[g].Idle? ==> LastsFrom(t.token, t.expiresAt, c.now))
  {
    EntersExactly(s.tokens, c.now, c.cancelled);
  }

  /** A call returns success at once exactly with a token that lasts, and an adoption
      that ends a flight put such a token in place. */
  lemma NoFlightForAFreshToken(w: Wiring, s: System, g: nat, c: Choice)
    requires Inv(w, s) && g in s.goroutines
    ensures s.goroutines[g].Idle? ==>
              (Step(w, s, g, c).goroutines[g] == Returned(None, None)
               <==> s.tokens.blocked.None? && s.tokens.pending.None? && LastsFrom(s.tokens.token, s.tokens.expiresAt, c.now))
    ensures s.goroutines[g].Leading? && s.goroutines[g].stage == Stage.Locked(false) ==>
              var t := Step(w, s, g, c);
              (t.goroutines[g] == Leading(s.goroutines[g].flight, Stage.Reloaded(true)) ==> LastsFrom(t.tokens.token, t.tokens.expiresAt, c.now))
  {
    EntersExactly(s.tokens, c.now, c.cancelled);
    if c.reload.Found? && c.reload.stored.refreshToken != "" {
      AdoptsExactly(s.tokens, c.reload.stored, c.now);
    }
    hide Inv, Adopted, Adopt, Enter;
  }

  /** Under the lock a leader takes over whatever the store holds: tokens that differ from
      memory replace them, and end the flight exactly when they last. */
  lemma LeadersReadTheStore(w: Wiring, s: System, g: nat, c: Choice)
    requires Inv(w, s) && g in s.goroutines && s.goroutines[g].Leading? && s.goroutines[g].stage == Stage.Locked(false) && !c.cancelled
    ensures var t, f := Step(w, s, g, c), s.goroutines[g].flight;
            if w.hasReload && c.reload.ReloadError? then
              t.goroutines[g] == Leading(f, Finishing(Some(ReloadFailed))) && t.tokens == s.tokens && t.ledger == s.ledger
            else if w.hasReload && c.reload.Found? && c.reload.stored.refreshToken != "" then
              var stored := c.reload.stored;
              var differs := stored.refreshToken != s.tokens.refreshToken || stored.token != s.tokens.token;
              && t.ledger == s.ledger + [Event.Reloaded(stored.refreshToken)]
              && t.tokens == (if differs then TokenState(stored.token, stored.refreshToken, stored.expiresAt, stored.refreshExpiresAt,
                                               s.tokens.pending, s.tokens.blocked)
                              else s.tokens)
              && t.goroutines[g] == Leading(f, Stage.Reloaded(differs && LastsFrom(stored.token, stored.expiresAt, c.now)))
            else
              t.goroutines[g] == Leading(f, Stage.Reloaded(false)) && t.tokens == s.tokens && t.ledger == s.ledger
  {
    if c.reload.Found? && c.reload.stored.refreshToken != "" {
      AdoptsExactly(s.tokens, c.reload.stored, c.now);
    }
    hide Inv, Adopted, Adopt, LastsFrom;
  }

  /** A leader calls the network exactly with a refresh token in memory that has not run
      out, and otherwise says why not. */
  lemma OnlyLiveTokensFly(w: Wiring, s: System, g: nat, c: Choice)
    requires Inv(w, s) && g in s.goroutines && s.goroutines[g].Leading? && s.goroutines[g].stage.Due?
    ensures var next := Step(w, s, g, c).goroutines[g];
            var runOut := s.tokens.refreshExpiresAt.Some? && s.tokens.refreshExpiresAt.value < c.now;
            next == Leading(s.goroutines[g].flight,
                      if s.tokens.refreshToken == "" then Finishing(Some(MissingAfterReload))
                      else if runOut then Finishing(Some(TokenExpired))
                      else if c.cancelled then Finishing(Some(Cancelled))
                      else Calling(s.tokens.refreshToken))
  {
    hide Inv;
  }

  /** A waiter that is not cancelled returns what its leader returned. */
  lemma WaitersShareTheResult(w: Wiring, s: System, leader: nat, waiter: nat, c: Choice)
    requires OneLeader(s) && leader in s.goroutines && waiter in s.goroutines && s.goroutines[waiter].Waiting? && !c.cancelled
    requires s.goroutines[leader].Returned? && s.goroutines[leader].joined == Some(s.goroutines[waiter].flight)
    ensures Step(w, s, waiter, c).goroutines[waiter] == s.goroutines[leader]
    ensures Step(w, s, waiter, c).tokens == s.tokens
  {
  }

  /** A finished flight keeps its error for good, so late waiters read the same one. */
  lemma {:induction false} FlightErrorIsFixed(w: Wiring, s: System, labels: seq<Label>, f: nat)
    requires OneLeader(s) && f < |s.flights| && s.flights[f].done
    ensures OneLeader(Run(w, s, labels))
    ensures f < |Run(w, s, labels).flights| && Run(w, s, labels).flights[f] == s.flights[f]
  {
    if labels != [] {
      FlightErrorIsFixed(w, s, labels[..|labels| - 1], f);
      var before := Run(w, s, labels[..|labels| - 1]);
      var l := labels[|labels| - 1];
      if l.goroutine in before.goroutines {
        StepKeepsOneLeader(w, before, l.goroutine, l.choice);
        StepKeepsFinished(w, before, l.goroutine, l.choice, f);
      }
    }
  }

  /** A block is final: no later step of any schedule reaches the network or changes
      a token, except that the leader that caused it still finishes. */
  lemma {:induction false} BlockedIsFinal(w: Wiring, s: System, labels: seq<Label>)
    requires Inv(w, s) && s.tokens.blocked.Some?
    ensures var t := Run(w, s, labels);
            Inv(w, t) && t.tokens == s.tokens && t.ledger == s.ledger
  {
    if labels != [] {
      BlockedIsFinal(w, s, labels[..|labels| - 1]);
      var before := Run(w, s, labels[..|labels| - 1]);
      var l := labels[|labels| - 1];
      if l.goroutine in before.goroutines {
        StepKeepsInv(w, before, l.goroutine, l.choice);
        if before.goroutines[l.goroutine].Leading? {
          assert TokensAt(w, before, before.goroutines[l.goroutine].stage);
        }
      }
    }
  }

  /** A pending generation is never refreshed over: until its persistence ends it,
      every event that a step adds is that persistence. */
  lemma PendingIsOnlyPersisted(w: Wiring, s: System, g: nat, c: Choice)
    requires Inv(w, s) && g in s.goroutines && s.tokens.pending.Some?
    ensures var t := Step(w, s, g, c);
            var p := s.tokens.pending.value;
            || (t.tokens == s.tokens && t.ledger == s.ledger)
            || (t.tokens == Persisted(s.tokens) && t.ledger == s.ledger + [Event.Stored(p.previousRefreshToken, p.refreshToken)])
            || (t.tokens == Superseded(s.tokens) && t.ledger == s.ledger)
  {
    if s.goroutines[g].Leading? {
      assert TokensAt(w, s, s.goroutines[g].stage);
    }
  }

  function Remaining(stage: Stage): nat {
    match stage
    case Starting => 8
    case Locking(_) => 7
    case Locked(_) => 6
    case Reloaded(_) => 5
    case Due => 4
    case Calling(_) => 3
    case Received(_, _) => 2
    case Persisting => 1
    case Finishing(_) => 0
  }

  /** A leader always moves on, so a flight ends after at most nine of its steps and
      nobody waits on a flight that has no leader. */
  lemma LeaderMovesOn(w: Wiring, s: System, g: nat, c: Choice)
    requires OneLeader(s) && g in s.goroutines && s.goroutines[g].Leading?
    ensures var next := Step(w, s, g, c).goroutines[g];
            next.Returned? || (next.Leading? && Remaining(next.stage) < Remaining(s.goroutines[g].stage))
    ensures forall h :: h in s.goroutines && s.goroutines[h].Waiting? && !s.flights[s.goroutines[h].flight].done ==>
              s.goroutines[h].flight == s.goroutines[g].flight
  {
    hide Lead, Remaining;
    LeadShape(w, s, g, s.goroutines[g].flight, s.goroutines[g].stage, c);
  }

  /** The same goroutine takes `n` steps in a row. */
  ghost function Alone(w: Wiring, s: System, g: nat, c: Choice, n: nat): System {
    if n == 0 then s
    else
      var before := Alone(w, s, g, c, n - 1);
      if WellShaped(before) && g in before.goroutines then Step(w, before, g, c) else before
  }

  /** The state of a call that is alone: its stage, and what it has changed so far. */
  function Midway(s: System, g: nat, stage: Stage, tokens: TokenState, events: seq<Event>, calls: nat): System {
    s.(tokens := tokens, inflight := Some(|s.flights|), flights := s.flights + [Flight(false, None, calls)],
       goroutines := s.goroutines[g := Leading(|s.flights|, stage)], ledger := s.ledger + events)
  }

  lemma OneStep(w: Wiring, s: System, g: nat, c: Choice, n: nat, at: System, next: System)
    requires Alone(w, s, g, c, n) == at && WellShaped(at) && g in at.goroutines && Step(w, at, g, c) == next
    ensures Alone(w, s, g, c, n + 1) == next
  {
  }

  lemma MidwayIsShaped(s: System, g: nat, stage: Stage, tokens: TokenState, events: seq<Event>, calls: nat)
    requires WellShaped(s)
    ensures WellShaped(Midway(s, g, stage, tokens, events, calls))
  {
  }

  /** A stage that changes neither the tokens nor the ledger. */
  lemma QuietStage(w: Wiring, s: System, g: nat, c: Choice, n: nat, stage: Stage, next: Stage)
    requires WellShaped(s) && Alone(w, s, g, c, n) == Midway(s, g, stage, s.tokens, [], 0)
    requires match stage
             case Starting => next == Locking(s.tokens.pending.Some?)
             case Locking(pending) => c.locked && next == Stage.Locked(pending)
             case Locked(pending) => !pending && !c.cancelled && c.reload.NothingStored? && next == Stage.Reloaded(false)
             case Reloaded(adopted) => !c.cancelled && !adopted && next == Due
             case Due =>
               && s.tokens.refreshToken != "" && !c.cancelled && (s.tokens.refreshExpiresAt.Some? ==> c.now <= s.tokens.refreshExpiresAt.value)
               && next == Calling(s.tokens.refreshToken)
             case _ => false
    ensures Alone(w, s, g, c, n + 1) == Midway(s, g, next, s.tokens, [], 0)
  {
    var at := Midway(s, g, stage, s.tokens, [], 0);
    MidwayIsShaped(s, g, stage, s.tokens, [], 0);
    assert Step(w, at, g, c) == Midway(s, g, next, s.tokens, [], 0);
    OneStep(w, s, g, c, n, at, Midway(s, g, next, s.tokens, [], 0));
  }

  /** A call that nobody disturbs, with a token that does not last and a refresh token that
      does: it opens a flight, presents that refresh token once, persists what the server
      gives, and returns success with it in place. */
  lemma UndisturbedCallSucceeds(w: Wiring, s: System, g: nat, c: Choice)
    requires WellShaped(s) && g in s.goroutines && s.goroutines[g].Idle? && s.inflight.None? && w.hasOnRefresh
    requires s.tokens.blocked.None? && s.tokens.pending.None? && !LastsFrom(s.tokens.token, s.tokens.expiresAt, c.now)
    requires s.tokens.refreshToken != "" && (s.tokens.refreshExpiresAt.Some? ==> c.now <= s.tokens.refreshExpiresAt.value)
    requires !c.cancelled && c.locked && c.reload.NothingStored? && c.persist.Durable?
    requires c.answer.Decoded? && HasText(c.answer.result.token) && HasText(c.answer.result.refreshToken)
             && !c.answer.result.expiresAt.Malformed? && !c.answer.result.refreshExpiresAt.Malformed?
    ensures var t, result := Alone(w, s, g, c, 10), c.answer.result;
            && t.goroutines == s.goroutines[g := Returned(Some(|s.flights|), None)] && t.inflight.None?
            && t.tokens.token == result.token && t.tokens.refreshToken == result.refreshToken
            && t.tokens.pending.None? && t.tokens.blocked.None?
            && t.ledger == s.ledger + [Event.Answered(s.tokens.refreshToken, result), Event.Stored(s.tokens.refreshToken, result.refreshToken)]
            && t.flights == s.flights + [Flight(true, None, 1)]
  {
    var token, result := s.tokens.refreshToken, c.answer.result;
    EntersExactly(s.tokens, c.now, c.cancelled);
    assert s.ledger + [] == s.ledger;
    OneStep(w, s, g, c, 0, s, Midway(s, g, Starting, s.tokens, [], 0));
    QuietStage(w, s, g, c, 1, Starting, Locking(false));
    QuietStage(w, s, g, c, 2, Locking(false), Stage.Locked(false));
    QuietStage(w, s, g, c, 3, Stage.Locked(false), Stage.Reloaded(false));
    QuietStage(w, s, g, c, 4, Stage.Reloaded(false), Due);
    QuietStage(w, s, g, c, 5, Due, Calling(token));
    LastSteps(w, s, g, c, token, result);
  }

  lemma LastSteps(w: Wiring, s: System, g: nat, c: Choice, token: string, result: RefreshResult)
    requires WellShaped(s) && g in s.goroutines && s.inflight.None? && w.hasOnRefresh
    requires s.tokens.blocked.None? && s.tokens.pending.None? && c.persist.Durable? && c.answer == Decoded(result)
    requires HasText(result.token) && HasText(result.refreshToken) && !result.expiresAt.Malformed? && !result.refreshExpiresAt.Malformed?
    requires Alone(w, s, g, c, 6) == Midway(s, g, Calling(token), s.tokens, [], 0)
    ensures var t := Alone(w, s, g, c, 10);
            && t.goroutines == s.goroutines[g := Returned(Some(|s.flights|), None)] && t.inflight.None?
            && t.tokens.token == result.token && t.tokens.refreshToken == result.refreshToken
            && t.tokens.pending.None? && t.tokens.blocked.None?
            && t.ledger == s.ledger + [Event.Answered(token, result), Event.Stored(token, result.refreshToken)]
            && t.flights == s.flights + [Flight(true, None, 1)]
  {
    AppliesExactly(s.tokens, token, result, true);
    var applied := Apply(s.tokens, token, result, true);
    var answered, stored := Event.Answered(token, result), Event.Stored(token, result.refreshToken);
    var a := Midway(s, g, Calling(token), s.tokens, [], 0);
    var b := Midway(s, g, Received(token, c.answer), s.tokens, [answered], 1);
    var d := Midway(s, g, Persisting, applied, [answered], 1);
    var e := Midway(s, g, Finishing(None), Persisted(applied), [answered, stored], 1);
    CallStep(w, s, g, c, token, result);
    AnswerStep(w, s, g, c, token, result, [answered]);
    DurableStep(w, s, g, c, applied, answered);
    MidwayIsShaped(s, g, Calling(token), s.tokens, [], 0);
    MidwayIsShaped(s, g, Received(token, c.answer), s.tokens, [answered], 1);
    MidwayIsShaped(s, g, Persisting, applied, [answered], 1);
    MidwayIsShaped(s, g, Finishing(None), Persisted(applied), [answered, stored], 1);
    FinishStep(w, s, g, c, Persisted(applied), [answered, stored]);
    hide Step, Apply, Validate, HasText, WellShaped;
    OneStep(w, s, g, c, 6, a, b);
    OneStep(w, s, g, c, 7, b, d);
    OneStep(w, s, g, c, 8, d, e);
    OneStep(w, s, g, c, 9, e, Step(w, e, g, c));
  }

  lemma CallStep(w: Wiring, s: System, g: nat, c: Choice, token: string, result: RefreshResult)
    requires WellShaped(s) && c.answer == Decoded(result)
    ensures WellShaped(Midway(s, g, Calling(token), s.tokens, [], 0))
    ensures Step(w, Midway(s, g, Calling(token), s.tokens, [], 0), g, c)
            == Midway(s, g, Received(token, c.answer), s.tokens, [Event.Answered(token, result)], 1)
  {
    MidwayIsShaped(s, g, Calling(token), s.tokens, [], 0);
    assert s.ledger + [] == s.ledger;
  }

  lemma AnswerStep(w: Wiring, s: System, g: nat, c: Choice, token: string, result: RefreshResult, events: seq<Event>)
    requires WellShaped(s) && c.answer == Decoded(result) && w.hasOnRefresh && Apply(s.tokens, token, result, true).pending.Some?
    ensures WellShaped(Midway(s, g, Received(token, c.answer), s.tokens, events, 1))
    ensures Step(w, Midway(s, g, Received(token, c.answer), s.tokens, events, 1), g, c)
            == Midway(s, g, Persisting, Apply(s.tokens, token, result, true), events, 1)
  {
    MidwayIsShaped(s, g, Received(token, c.answer), s.tokens, events, 1);
    hide Apply;
  }

  lemma DurableStep(w: Wiring, s: System, g: nat, c: Choice, tokens: TokenState, answered: Event)
    requires WellShaped(s) && c.persist.Durable? && tokens.pending.Some? && tokens.pending.value.afterPersist.None?
    ensures WellShaped(Midway(s, g, Persisting, tokens, [answered], 1))
    ensures Step(w, Midway(s, g, Persisting, tokens, [answered], 1), g, c)
            == Midway(s, g, Finishing(None), Persisted(tokens),
                 [answered, Event.Stored(tokens.pending.value.previousRefreshToken, tokens.pending.value.refreshToken)], 1)
  {
    MidwayIsShaped(s, g, Persisting, tokens, [answered], 1);
    var stored := Event.Stored(tokens.pending.value.previousRefreshToken, tokens.pending.value.refreshToken);
    assert s.ledger + [answered] + [stored] == s.ledger + [answered, stored];
  }

  lemma FinishStep(w: Wiring, s: System, g: nat, c: Choice, tokens: TokenState, events: seq<Event>)
    requires WellShaped(s)
    ensures WellShaped(Midway(s, g, Finishing(None), tokens, events, 1))
    ensures var t := Step(w, Midway(s, g, Finishing(None), tokens, events, 1), g, c);
            && t.goroutines == s.goroutines[g := Returned(Some(|s.flights|), None)] && t.inflight.None? && t.tokens == tokens
            && t.ledger == s.ledger + events && t.flights == s.flights + [Flight(true, None, 1)]
  {
    MidwayIsShaped(s, g, Finishing(None), tokens, events, 1);
  }
}
