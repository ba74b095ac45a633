/** The refresh transport as one caller at a time sees it
    (internal/auth/transport.go). Lock, reload, network, persistence and clock
    answer arbitrarily; SingleFlight.dfy interleaves callers. */
module RefreshTransport {
  import opened TokenStates
  import opened Wrappers

  datatype Reload = ReloadError | NothingStored | Found(stored: StoredTokens)

  datatype Answer = NoAnswer | NotDecodable | Decoded(result: RefreshResult)

  datatype PersistOutcome = Durable | Changed | NotPersisted

  /** Everything one call learns from outside: the clock at its three readings, the
      caller's cancellation at its four checks, and the answers of its callbacks. */
  datatype Surroundings = Surroundings(
    enteredAt: int,
    reloadedAt: int,
    checkedAt: int,
    cancelledAtEntry: bool,
    cancelledUnderLock: bool,
    cancelledAfterReload: bool,
    cancelledBeforeCall: bool,
    locked: bool,
    reload: Reload,
    answer: Answer,
    persist: PersistOutcome)

  class RefreshTransport {
    const hasLock: bool
    const hasReload: bool
    const hasOnRefresh: bool
    var token: string
    var refreshToken: string
    var expiresAt: Time
    var refreshExpiresAt: Time
    var pending: Option<Pending>
    var blocked: Option<Error>
    /** Every token presented, answered, reloaded or stored so far. */
    ghost var ledger: seq<Event>

    function State(): TokenState
      reads this
    {
      TokenState(token, refreshToken, expiresAt, refreshExpiresAt, pending, blocked)
    }

    ghost predicate Valid()
      reads this
    {
      Disciplined(ledger) && Held(State(), Consumed(ledger)) && (pending.Some? ==> hasOnRefresh)
    }

    constructor (token: string, refreshToken: string, expiresAt: Time, refreshExpiresAt: Time,
                 hasLock: bool, hasReload: bool, hasOnRefresh: bool)
      ensures Valid() && ledger == []
      ensures State() == TokenState(token, refreshToken, expiresAt, refreshExpiresAt, None, None)
    {
      this.token, this.refreshToken := token, refreshToken;
      this.expiresAt, this.refreshExpiresAt := expiresAt, refreshExpiresAt;
      this.hasLock, this.hasReload, this.hasOnRefresh := hasLock, hasReload, hasOnRefresh;
      pending, blocked, ledger := None, None, [];
    }

    method SetState(s: TokenState)
      modifies this`token, this`refreshToken, this`expiresAt, this`refreshExpiresAt, this`pending, this`blocked
      ensures State() == s
    {
      token, refreshToken, expiresAt, refreshExpiresAt := s.token, s.refreshToken, s.expiresAt, s.refreshExpiresAt;
      pending, blocked := s.pending, s.blocked;
    }

    /** The generation a refresh must present: the stored one when there is one. */
    function Latest(reload: Reload, own: string): string {
      if hasReload && reload.Found? && reload.stored.refreshToken != "" then reload.stored.refreshToken else own
    }

    /** When the refresh token of `Latest` runs out. */
    function LatestExpiry(reload: Reload, own: TokenState): Time {
      if hasReload && reload.Found? && reload.stored.refreshToken != ""
         && (reload.stored.refreshToken != own.refreshToken || reload.stored.token != own.token)
      then reload.stored.refreshExpiresAt else own.refreshExpiresAt
    }

    /** Refreshes when needed. Success exposes a usable token with nothing pending
        and nothing blocked; a blocked transport does nothing at all; a pending
        generation is only ever persisted; and one call presents at most one
        refresh token. */
    method MaybeRefresh(around: Surroundings) returns (error: Option<Error>)
      requires Valid()
      modifies this
      ensures Valid() && old(ledger) <= ledger
      ensures error.None? ==> token != "" && pending.None? && blocked.None?
      ensures old(blocked).Some? ==> error == old(blocked) && State() == old(State()) && ledger == old(ledger)
      ensures old(pending).Some? ==>
                && (forall i, t :: |old(ledger)| <= i < |ledger| ==> !Presents(ledger[i], t))
                && (pending.None? || pending == old(pending))
      ensures forall i, j, t, u :: |old(ledger)| <= i < j < |ledger| && Presents(ledger[i], t) ==> !Presents(ledger[j], u)
      ensures forall i, t :: |old(ledger)| <= i < |ledger| && Presents(ledger[i], t) ==> t == Latest(around.reload, old(refreshToken))
      ensures error.None? && ledger == old(ledger) <==>
                old(blocked).None? && old(pending).None? && LastsFrom(old(token), old(expiresAt), around.enteredAt)
      ensures error.None? && ledger == old(ledger) ==> State() == old(State())
      ensures error.None? && |ledger| == |old(ledger)| + 1 && ledger[|old(ledger)|].Reloaded? ==>
                LastsFrom(token, expiresAt, around.reloadedAt)
      ensures old(blocked).None? && old(pending).None? && !LastsFrom(old(token), old(expiresAt), around.enteredAt) ==>
                && (old(refreshToken) == "" ==> error == Some(TokenMissing) && State() == old(State()) && ledger == old(ledger))
                && (old(refreshToken) != "" && old(refreshExpiresAt).Some? && old(refreshExpiresAt).value < around.enteredAt ==>
                      error == Some(TokenExpired) && State() == old(State()) && ledger == old(ledger))
      ensures forall i, t :: |old(ledger)| <= i < |ledger| && Presents(ledger[i], t) ==>
                t != "" && StillGood(LatestExpiry(around.reload, old(State())), around.checkedAt)
      ensures old(blocked).None? && old(pending).None? && !LastsFrom(old(token), old(expiresAt), around.enteredAt)
              && old(refreshToken) != "" && StillGood(old(refreshExpiresAt), around.enteredAt) && !around.cancelledAtEntry ==>
                Proceeds(around, old(State()), State(), error, |old(ledger)|)
      ensures hasLock && !around.locked ==> State() == old(State()) && ledger == old(ledger)
      ensures old(blocked).None? && old(pending).Some? && (!hasLock || around.locked) ==>
                AfterPersist(old(State()), State(), error, around.persist)
    {
      EntersExactly(State(), around.enteredAt, around.cancelledAtEntry);
      match Enter(State(), around.enteredAt, around.cancelledAtEntry)
      case Usable =>
        error := None;
      case Fails(why) =>
        error := Some(why);
      case Flies =>
        error := RefreshAndPersist(around);
    }

    /** The refresh token has not run out. */
    predicate StillGood(expiry: Time, now: int) {
      expiry.Some? ==> now <= expiry.value
    }

    /** The stored tokens differ from those of `own`. */
    predicate Differs(reload: Reload, own: TokenState) {
      && hasReload && reload.Found? && reload.stored.refreshToken != ""
      && (reload.stored.refreshToken != own.refreshToken || reload.stored.token != own.token)
    }

    /** How far a refresh without a pending generation gets: to the first obstacle, or to an
        adoption, or to one network call whose good answer is in memory at the end. */
    ghost predicate Proceeds(around: Surroundings, before: TokenState, after: TokenState, error: Option<Error>, start: nat)
      reads this
    {
      if hasLock && !around.locked then error == Some(LockFailed) && |ledger| == start
      else if around.cancelledUnderLock then error == Some(Cancelled) && |ledger| == start
      else if hasReload && around.reload.ReloadError? then error == Some(ReloadFailed) && |ledger| == start
      else if around.cancelledAfterReload then error == Some(Cancelled)
      else if Differs(around.reload, before) && LastsFrom(around.reload.stored.token, around.reload.stored.expiresAt, around.reloadedAt) then
        error.None? && after.token == around.reload.stored.token && after.refreshToken == around.reload.stored.refreshToken
      else if Latest(around.reload, before.refreshToken) == "" then error == Some(MissingAfterReload)
      else if !StillGood(LatestExpiry(around.reload, before), around.checkedAt) then error == Some(TokenExpired)
      else if around.cancelledBeforeCall then error == Some(Cancelled)
      else
        && |ledger| > start && (exists i :: start <= i < |ledger| && Presents(ledger[i], Latest(around.reload, before.refreshToken)))
        && (around.answer.NoAnswer? ==> error == Some(RefreshFailed))
        && (around.answer.NotDecodable? ==> error == Some(InvalidResponse))
        && (around.answer.Decoded? && Good(around.answer.result) && (!hasOnRefresh || around.persist.Durable?) ==>
              && error.None? && after.token == around.answer.result.token && after.refreshToken == around.answer.result.refreshToken
              && after.expiresAt == ParsedExpiry(around.answer.result.expiresAt))
    }

    /** A 200 answer with both tokens and readable times. */
    predicate Good(result: RefreshResult) {
      HasText(result.token) && HasText(result.refreshToken) && !result.expiresAt.Malformed? && !result.refreshExpiresAt.Malformed?
    }

    method RefreshAndPersist(around: Surroundings) returns (error: Option<Error>)
      requires Valid() && blocked.None?
      modifies this
      ensures Valid() && old(ledger) <= ledger
      ensures error.None? ==> token != "" && pending.None? && blocked.None?
      ensures old(pending).Some? ==>
                && (forall i, t :: |old(ledger)| <= i < |ledger| ==> !Presents(ledger[i], t))
                && (pending.None? || pending == old(pending))
      ensures forall i, j, t, u :: |old(ledger)| <= i < j < |ledger| && Presents(ledger[i], t) ==> !Presents(ledger[j], u)
      ensures forall i, t :: |old(ledger)| <= i < |ledger| && Presents(ledger[i], t) ==> t == Latest(around.reload, old(refreshToken))
      ensures error.None? ==> ledger != old(ledger)
      ensures old(pending).None? ==> Proceeds(around, old(State()), State(), error, |old(ledger)|)
      ensures error.None? && |ledger| == |old(ledger)| + 1 && ledger[|old(ledger)|].Reloaded? ==>
                LastsFrom(token, expiresAt, around.reloadedAt)
      ensures forall i, t :: |old(ledger)| <= i < |ledger| && Presents(ledger[i], t) ==>
                t != "" && StillGood(LatestExpiry(around.reload, old(State())), around.checkedAt)
      ensures hasLock && !around.locked ==> error.Some? && State() == old(State()) && ledger == old(ledger)
      ensures old(pending).Some? && (!hasLock || around.locked) ==> AfterPersist(old(State()), State(), error, around.persist)
    {
      hide Disciplined, Consumed, Held, Apply, Consume, Adopted, Validate, HasText, ParsedExpiry;
      var hasPending := pending.Some?;
      if hasLock && !around.locked {
        return Some(LockFailed);
      }
      if hasPending {
        error := PersistPendingRefresh(around.persist);
        return;
      }
      if around.cancelledUnderLock {
        return Some(Cancelled);
      }
      var adopted;
      adopted, error := AdoptFreshStoredTokens(around.reload, around.reloadedAt);
      if error.Some? {
        return;
      }
      if around.cancelledAfterReload {
        return Some(Cancelled);
      }
      if adopted {
        return None;
      }
      if refreshToken == "" {
        return Some(MissingAfterReload);
      }
      if Expired(refreshExpiresAt, around.checkedAt) {
        return Some(TokenExpired);
      }
      if around.cancelledBeforeCall {
        return Some(Cancelled);
      }
      error := RefreshOverNetwork(around.answer, around.persist);
    }

    /** Reads the store and takes over tokens that differ from memory. */
    method AdoptFreshStoredTokens(reload: Reload, now: int) returns (adopted: bool, error: Option<Error>)
      requires Valid() && blocked.None? && pending.None?
      modifies this
      ensures Valid() && pending.None? && blocked.None?
      ensures error == if hasReload && reload.ReloadError? then Some(ReloadFailed) else None
      ensures if hasReload && reload.Found? && reload.stored.refreshToken != ""
              then && ledger == old(ledger) + [Reloaded(reload.stored.refreshToken)]
                   && token == reload.stored.token && refreshToken == reload.stored.refreshToken
                   && (var differs := reload.stored.refreshToken != old(refreshToken) || reload.stored.token != old(token);
                       && (adopted <==> differs && LastsFrom(reload.stored.token, reload.stored.expiresAt, now))
                       && expiresAt == (if differs then reload.stored.expiresAt else old(expiresAt))
                       && refreshExpiresAt == (if differs then reload.stored.refreshExpiresAt else old(refreshExpiresAt)))
              else State() == old(State()) && ledger == old(ledger) && !adopted
      ensures adopted ==> token != ""
    {
      if !hasReload {
        return false, None;
      }
      if reload.ReloadError? {
        return false, Some(ReloadFailed);
      }
      if reload.NothingStored? || reload.stored.refreshToken == "" {
        return false, None;
      }
      var stored := reload.stored;
      adopted, error := Adopted(State(), stored, now), None;
      AdoptKeepsHeld(State(), ledger, stored);
      AdoptsExactly(State(), stored, now);
      SetState(Adopt(State(), stored));
      ledger := ledger + [Reloaded(stored.refreshToken)];
    }

    /** Presents the refresh token once and never drops a successful answer. */
    method RefreshOverNetwork(answer: Answer, persist: PersistOutcome) returns (error: Option<Error>)
      requires Valid() && blocked.None? && pending.None? && refreshToken != ""
      modifies this
      ensures Valid()
      ensures error.None? ==> token != "" && pending.None? && blocked.None?
      ensures |ledger| > |old(ledger)| && old(ledger) < ledger && Presents(ledger[|old(ledger)|], old(refreshToken))
      ensures forall j, t :: |old(ledger)| < j < |ledger| ==> !Presents(ledger[j], t)
      ensures var e := ledger[|old(ledger)|];
              && (match answer
                  case NoAnswer => e == Refused(old(refreshToken))
                  case NotDecodable => e == Undecodable(old(refreshToken))
                  case Decoded(result) => e == Answered(old(refreshToken), result))
              && (e.Refused? ==> State() == old(State()) && error == Some(RefreshFailed) && |ledger| == |old(ledger)| + 1)
              && (e.Undecodable? ==>
                    && token == "" && refreshToken == "" && expiresAt.None? && refreshExpiresAt.None? && blocked == Some(InvalidResponse)
                    && error == Some(InvalidResponse) && |ledger| == |old(ledger)| + 1)
              && (e.Answered? ==>
                    var applied := Apply(old(State()), old(refreshToken), e.result, hasOnRefresh);
                    if applied.pending.Some? then AfterPersist(applied, State(), error, persist)
                    else State() == applied && error == Validate(e.result))
      ensures answer.Decoded? && Good(answer.result) && (!hasOnRefresh || persist.Durable?) ==>
                && error.None? && token == answer.result.token && refreshToken == answer.result.refreshToken
                && expiresAt == ParsedExpiry(answer.result.expiresAt)
    {
      hide Disciplined, Consumed, Apply, Validate, HasText;
      var presented := refreshToken;
      if answer.NoAnswer? {
        DisciplineStep(ledger, Refused(presented));
        ConsumedStep(ledger, Refused(presented));
        ledger := ledger + [Refused(presented)];
        return Some(RefreshFailed);
      }
      if answer.NotDecodable? {
        DisciplineStep(ledger, Undecodable(presented));
        ledger := ledger + [Undecodable(presented)];
        SetState(Consume(State(), InvalidResponse));
        return Some(InvalidResponse);
      }
      var result := answer.result;
      AppliesExactly(State(), presented, result, hasOnRefresh);
      ValidatesExactly(result);
      DisciplineStep(ledger, Answered(presented, result));
      ApplyKeepsHeld(State(), ledger, result, hasOnRefresh);
      ApplyPends(State(), presented, result, hasOnRefresh);
      ledger := ledger + [Answered(presented, result)];
      SetState(Apply(State(), presented, result, hasOnRefresh));
      if pending.Some? {
        error := PersistPendingRefresh(persist);
      } else {
        error := Validate(result);
      }
    }

    /** Retries the persistence of the pending generation. */
    method PersistPendingRefresh(outcome: PersistOutcome) returns (error: Option<Error>)
      requires Valid()
      modifies this
      ensures Valid()
      ensures old(pending).None? ==> error.None? && State() == old(State()) && ledger == old(ledger)
      ensures old(pending).Some? && error.None? ==> token != "" && pending.None? && blocked.None?
      ensures old(pending).Some? ==>
                && AfterPersist(old(State()), State(), error, outcome)
                && ledger == old(ledger) + (if outcome.Durable? then [Stored(old(pending).value.previousRefreshToken, old(pending).value.refreshToken)] else [])
    {
      if pending.None? {
        return None;
      }
      match outcome
      case Durable =>
        var p := pending.value;
        DisciplineStep(ledger, Stored(p.previousRefreshToken, p.refreshToken));
        ConsumedStep(ledger, Stored(p.previousRefreshToken, p.refreshToken));
        ledger := ledger + [Stored(p.previousRefreshToken, p.refreshToken)];
        error := p.afterPersist;
        SetState(Persisted(State()));
      case Changed =>
        SetState(Superseded(State()));
        error := Some(GenerationChanged);
      case NotPersisted =>
        error := Some(PersistFailed);
    }
  }

  /** The three ends of a persistence attempt: durable, superseded (the access token goes,
      to force a reload), still pending. */
  predicate AfterPersist(before: TokenState, after: TokenState, error: Option<Error>, outcome: PersistOutcome)
    requires before.pending.Some?
  {
    match outcome
    case Durable =>
      && after == before.(pending := None, blocked := after.blocked) && error == before.pending.value.afterPersist
      && after.blocked == (if error.Some? then error else before.blocked)
    case Changed => after == before.(pending := None, token := "", expiresAt := None) && error == Some(GenerationChanged)
    case NotPersisted => after == before && error == Some(PersistFailed)
  }

  /** What holds between calls: the refresh token in memory is not used up, a
      pending generation is the one in memory, and it never coexists with a block. */
  ghost predicate Held(s: TokenState, consumed: set<string>) {
    && (s.refreshToken != "" ==> s.refreshToken !in consumed)
    && (s.pending.Some? ==>
          && s.blocked.None?
          && s.pending.value.refreshToken == s.refreshToken && s.pending.value.token == s.token
          && (s.pending.value.afterPersist.None? ==> !Blank(s.token)))
  }

  lemma AdoptKeepsHeld(s: TokenState, ledger: seq<Event>, stored: StoredTokens)
    requires Disciplined(ledger) && Held(s, Consumed(ledger)) && s.pending.None?
    ensures Disciplined(ledger + [Reloaded(stored.refreshToken)])
    ensures Held(Adopt(s, stored), Consumed(ledger + [Reloaded(stored.refreshToken)]))
  {
    DisciplineStep(ledger, Reloaded(stored.refreshToken));
    ConsumedStep(ledger, Reloaded(stored.refreshToken));
  }

  lemma ApplyKeepsHeld(s: TokenState, ledger: seq<Event>, result: RefreshResult, persists: bool)
    requires Held(s, Consumed(ledger)) && s.pending.None? && s.blocked.None?
    ensures var after := Apply(s, s.refreshToken, result, persists);
            && Held(after, Consumed(ledger + [Answered(s.refreshToken, result)]))
            && (after.pending.None? && Validate(result).None? ==> after.token != "" && after.blocked.None?)
            && (Validate(result).Some? && after.pending.None? ==> after.blocked == Validate(result))
  {
    ConsumedStep(ledger, Answered(s.refreshToken, result));
  }

  lemma ApplyPends(s: TokenState, presented: string, result: RefreshResult, persists: bool)
    requires s.pending.None?
    ensures Apply(s, presented, result, persists).pending.Some? ==> persists
  {
  }
}
