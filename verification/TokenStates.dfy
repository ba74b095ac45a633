/** The values that internal/auth/transport.go moves between: what one critical
    section of the refresh transport does to the tokens it guards. */
module TokenStates {
  import opened Wrappers

  /** Seconds; None stands for the zero time. */
  type Time = Option<int>

  const REFRESH_THRESHOLD := 300

  datatype Error =
    | TokenExpired
    | TokenMissing
    | MissingAfterReload
    | GenerationChanged
    | InvalidResponse
    | LockFailed
    | ReloadFailed
    | RefreshFailed
    | PersistFailed
    | Cancelled

  /** An RFC 3339 timestamp as it appears in a response. */
  datatype Stamp = Unset | Malformed(text: string) | Instant(text: string, at: int)

  const EPOCH := Instant("1970-01-01T00:00:00Z", 0)

  datatype RefreshResult = RefreshResult(token: string, refreshToken: string, expiresAt: Stamp, refreshExpiresAt: Stamp)

  datatype StoredTokens = StoredTokens(token: string, refreshToken: string, expiresAt: Time, refreshExpiresAt: Time)

  /** A rotated generation that is not yet durable. */
  datatype Pending = Pending(
    previousRefreshToken: string,
    token: string,
    refreshToken: string,
    expiresAt: Stamp,
    refreshExpiresAt: Stamp,
    afterPersist: Option<Error>)

  datatype TokenState = TokenState(
    token: string,
    refreshToken: string,
    expiresAt: Time,
    refreshExpiresAt: Time,
    pending: Option<Pending>,
    blocked: Option<Error>)

  predicate IsSpace(c: char) {
    || c in {' ', '\t', '\n', '\r', '\U{000B}', '\U{000C}', '\U{0085}', '\U{00A0}', '\U{1680}'}
    || '\U{2000}' <= c <= '\U{200A}'
    || c in {'\U{2028}', '\U{2029}', '\U{202F}', '\U{205F}', '\U{3000}'}
  }

  /** The white space of Unicode, by code point. */
  lemma SpacesByCode(c: char)
    ensures IsSpace(c) <==>
              var n := c as int;
              9 <= n <= 13 || n == 32 || n == 0x85 || n == 0xA0 || n == 0x1680 || 0x2000 <= n <= 0x200A
              || n == 0x2028 || n == 0x2029 || n == 0x202F || n == 0x205F || n == 0x3000
  {
  }

  /** `strings.TrimSpace(s) == ""` */
  predicate Blank(s: string) {
    forall c :: c in s ==> IsSpace(c)
  }

  predicate Fresh(expiresAt: Time, now: int) {
    expiresAt.None? || expiresAt.value - now > REFRESH_THRESHOLD
  }

  predicate Expired(expiresAt: Time, now: int) {
    expiresAt.Some? && now > expiresAt.value
  }

  datatype Entry = Usable | Fails(error: Error) | Flies

  /** The decision at the head of `maybeRefresh`. */
  function Enter(s: TokenState, now: int, cancelled: bool): Entry {
    if s.blocked.Some? then Fails(s.blocked.value)
    else if s.pending.Some? then Flies
    else if s.token != "" && Fresh(s.expiresAt, now) then Usable
    else if s.refreshToken == "" then Fails(TokenMissing)
    else if Expired(s.refreshExpiresAt, now) then Fails(TokenExpired)
    else if cancelled then Fails(Cancelled)
    else Flies
  }

  /** The token in memory stays usable for more than five minutes from `now`. */
  predicate LastsFrom(token: string, expiresAt: Time, now: int) {
    token != "" && (expiresAt.None? || expiresAt.value > now + 300)
  }

  /** The decision in terms of the clock: a call returns at once exactly with a token
      that lasts, and flies only with a refresh token that has not run out. */
  lemma EntersExactly(s: TokenState, now: int, cancelled: bool)
    ensures Enter(s, now, cancelled).Usable? <==> s.blocked.None? && s.pending.None? && LastsFrom(s.token, s.expiresAt, now)
    ensures Enter(s, now, cancelled).Flies? <==>
              s.blocked.None?
              && (s.pending.Some?
                  || (!LastsFrom(s.token, s.expiresAt, now) && !cancelled && s.refreshToken != ""
                      && (s.refreshExpiresAt.Some? ==> now <= s.refreshExpiresAt.value)))
    ensures Enter(s, now, cancelled).Fails? && s.blocked.None? ==>
              Enter(s, now, cancelled).error
              == if s.refreshToken == "" then TokenMissing
                 else if s.refreshExpiresAt.Some? && s.refreshExpiresAt.value < now then TokenExpired
                 else Cancelled
    ensures s.blocked.Some? ==> Enter(s, now, cancelled) == Fails(s.blocked.value)
  {
  }

  /** Takes over tokens another process stored, when they differ. */
  function Adopt(s: TokenState, stored: StoredTokens): TokenState {
    if stored.refreshToken == "" || (stored.refreshToken == s.refreshToken && stored.token == s.token) then s
    else s.(token := stored.token, refreshToken := stored.refreshToken,
            expiresAt := stored.expiresAt, refreshExpiresAt := stored.refreshExpiresAt)
  }

  /** The adopted tokens make a network refresh unnecessary. */
  predicate Adopted(s: TokenState, stored: StoredTokens, now: int) {
    && stored.refreshToken != ""
    && !(stored.refreshToken == s.refreshToken && stored.token == s.token)
    && stored.token != "" && Fresh(stored.expiresAt, now)
  }

  /** Stored tokens end the refresh exactly when they differ from memory and last. */
  lemma AdoptsExactly(s: TokenState, stored: StoredTokens, now: int)
    requires stored.refreshToken != ""
    ensures Adopted(s, stored, now) <==>
              (stored.refreshToken != s.refreshToken || stored.token != s.token) && LastsFrom(stored.token, stored.expiresAt, now)
    ensures Adopt(s, stored).token == stored.token && Adopt(s, stored).refreshToken == stored.refreshToken
    ensures stored.refreshToken != s.refreshToken || stored.token != s.token ==>
              Adopt(s, stored) == TokenState(stored.token, stored.refreshToken, stored.expiresAt, stored.refreshExpiresAt, s.pending, s.blocked)
    ensures stored.refreshToken == s.refreshToken && stored.token == s.token ==> Adopt(s, stored) == s
  {
  }

  function ParsedExpiry(stamp: Stamp): Time {
    if stamp.Instant? then Some(stamp.at) else None
  }

  function Validate(result: RefreshResult): Option<Error> {
    if Blank(result.token) || Blank(result.refreshToken)
       || result.expiresAt.Malformed? || result.refreshExpiresAt.Malformed?
    then Some(InvalidResponse) else None
  }

  /** A 200 answer without a usable replacement: the presented generation may be
      gone, so nothing may be tried again. */
  function Consume(s: TokenState, error: Error): TokenState {
    TokenState("", "", None, None, s.pending, Some(error))
  }

  /** What a decoded 200 answer makes of the state. */
  function Apply(s: TokenState, presented: string, result: RefreshResult, persists: bool): TokenState {
    var invalid := Validate(result);
    if invalid.Some? && Blank(result.refreshToken) then Consume(s, invalid.value)
    else
      var token := if invalid.Some? && Blank(result.token) then s.token else result.token;
      var expiry := if invalid.Some? then EPOCH else result.expiresAt;
      var refreshExpiry :=
        if invalid.Some? && ParsedExpiry(result.refreshExpiresAt).None? then Unset else result.refreshExpiresAt;
      TokenState(token, result.refreshToken, ParsedExpiry(expiry), ParsedExpiry(result.refreshExpiresAt),
        if persists then Some(Pending(presented, token, result.refreshToken, expiry, refreshExpiry, invalid)) else s.pending,
        if !persists && invalid.Some? then invalid else s.blocked)
  }

  /** Something other than white space. */
  predicate HasText(s: string) {
    exists i :: 0 <= i < |s| && !IsSpace(s[i])
  }

  lemma BlankHasNoText(s: string)
    ensures Blank(s) <==> !HasText(s)
  {
    if Blank(s) {
      assert forall i :: 0 <= i < |s| ==> s[i] in s;
    } else {
      var c :| c in s && !IsSpace(c);
      var i :| 0 <= i < |s| && s[i] == c;
      assert !IsSpace(s[i]);
    }
  }

  lemma ValidatesExactly(result: RefreshResult)
    ensures Validate(result)
            == if HasText(result.token) && HasText(result.refreshToken) && !result.expiresAt.Malformed? && !result.refreshExpiresAt.Malformed?
               then None else Some(InvalidResponse)
  {
    BlankHasNoText(result.token);
    BlankHasNoText(result.refreshToken);
  }

  /** What a decoded 200 answer leaves, by what it brings: both tokens, the refresh token
      alone, or nothing that could be presented again. */
  lemma AppliesExactly(s: TokenState, presented: string, result: RefreshResult, persists: bool)
    requires s.pending.None? && s.blocked.None?
    ensures var after := Apply(s, presented, result, persists);
            var readable := !result.expiresAt.Malformed? && !result.refreshExpiresAt.Malformed?;
            var lasts := if result.refreshExpiresAt.Instant? then Some(result.refreshExpiresAt.at) else None;
            if HasText(result.refreshToken) && HasText(result.token) && readable then
              && after.token == result.token && after.refreshToken == result.refreshToken && after.refreshExpiresAt == lasts
              && after.expiresAt == (if result.expiresAt.Instant? then Some(result.expiresAt.at) else None)
              && after.blocked.None?
              && after.pending == (if persists
                                   then Some(Pending(presented, result.token, result.refreshToken, result.expiresAt, result.refreshExpiresAt, None))
                                   else None)
            else if HasText(result.refreshToken) then
              && after.token == (if HasText(result.token) then result.token else s.token)
              && after.refreshToken == result.refreshToken && after.expiresAt == Some(0) && after.refreshExpiresAt == lasts
              && after.blocked == (if persists then None else Some(InvalidResponse))
              && after.pending.Some? == persists
              && (persists ==> after.pending.value.previousRefreshToken == presented && after.pending.value.token == after.token
                               && after.pending.value.refreshToken == result.refreshToken
                               && after.pending.value.expiresAt == Instant("1970-01-01T00:00:00Z", 0)
                               && after.pending.value.refreshExpiresAt == (if result.refreshExpiresAt.Instant? then result.refreshExpiresAt else Unset)
                               && after.pending.value.afterPersist == Some(InvalidResponse))
            else
              after == TokenState("", "", None, None, None, Some(InvalidResponse))
  {
    BlankHasNoText(result.token);
    BlankHasNoText(result.refreshToken);
    hide Blank, HasText;
  }

  /** The callback made the pending generation durable. */
  function Persisted(s: TokenState): TokenState
    requires s.pending.Some?
  {
    s.(pending := None, blocked := if s.pending.value.afterPersist.Some? then s.pending.value.afterPersist else s.blocked)
  }

  /** The callback lost the compare-and-swap: drop the generation and force a
      reload by clearing the access token. */
  function Superseded(s: TokenState): TokenState
    requires s.pending.Some?
  {
    s.(pending := None, token := "", expiresAt := None)
  }

  /** One network or persistence event. A 200 answer is `Answered` when its body
      decodes and `Undecodable` otherwise. */
  datatype Event =
    | Refused(presented: string)
    | Undecodable(presented: string)
    | Answered(presented: string, result: RefreshResult)
    | Reloaded(stored: string)
    | Stored(previous: string, next: string)

  predicate Presents(e: Event, token: string) {
    !e.Reloaded? && !e.Stored? && e.presented == token
  }

  predicate Answers200(e: Event, token: string) {
    (e.Undecodable? || e.Answered?) && e.presented == token
  }

  /** The server issued the token, or the reload callback supplied it. */
  predicate Supplies(e: Event, token: string) {
    (e.Answered? && e.result.refreshToken == token) || (e.Reloaded? && e.stored == token)
  }

  function ConsumedAfter(before: set<string>, e: Event): set<string> {
    match e
    case Refused(_) => before
    case Undecodable(presented) => before + {presented}
    case Answered(presented, result) => (before + {presented}) - {result.refreshToken}
    case Reloaded(stored) => before - {stored}
    case Stored(_, _) => before
  }

  /** The tokens that a 200 answer has used up and nobody has supplied since. */
  function Consumed(ledger: seq<Event>): set<string> {
    if ledger == [] then {}
    else ConsumedAfter(Consumed(ledger[..|ledger| - 1]), ledger[|ledger| - 1])
  }

  /** No event presents a token that was used up by then. */
  ghost predicate Disciplined(ledger: seq<Event>) {
    forall i, t :: 0 <= i < |ledger| && Presents(ledger[i], t) ==> t !in Consumed(ledger[..i])
  }

  lemma ConsumedStep(ledger: seq<Event>, e: Event)
    ensures (ledger + [e])[..|ledger|] == ledger
    ensures Consumed(ledger + [e]) == ConsumedAfter(Consumed(ledger), e)
  {
    assert (ledger + [e])[..|ledger|] == ledger;
  }

  lemma DisciplineStep(ledger: seq<Event>, e: Event)
    requires Disciplined(ledger)
    requires forall t :: Presents(e, t) ==> t !in Consumed(ledger)
    ensures Disciplined(ledger + [e])
  {
    forall i, t | 0 <= i < |ledger + [e]| && Presents((ledger + [e])[i], t)
      ensures t !in Consumed((ledger + [e])[..i])
    {
      if i < |ledger| {
        assert (ledger + [e])[..i] == ledger[..i];
      } else {
        assert (ledger + [e])[..i] == ledger;
      }
    }
  }

  /** A token used up at `i` and not supplied again before `j` is used up at `j`. */
  lemma {:induction false} StaysConsumed(ledger: seq<Event>, i: nat, j: nat, token: string)
    requires i < j <= |ledger| && Answers200(ledger[i], token)
    requires forall k :: i <= k < j ==> !Supplies(ledger[k], token)
    ensures token in Consumed(ledger[..j])
  {
    assert ledger[..j][..j - 1] == ledger[..j - 1];
    if i < j - 1 {
      StaysConsumed(ledger, i, j - 1, token);
    }
  }

  /** The meaning of discipline: between a 200 answer for a token and any later
      presentation of the same token, somebody supplied that token. */
  lemma PresentedTwiceWasSupplied(ledger: seq<Event>, i: nat, j: nat, token: string)
    requires Disciplined(ledger) && i < j < |ledger|
    requires ledger[i] == Undecodable(token) || (ledger[i].Answered? && ledger[i].presented == token)
    requires Presents(ledger[j], token)
    ensures exists k :: i <= k < j && Supplies(ledger[k], token)
  {
    if forall k :: i <= k < j ==> !Supplies(ledger[k], token) {
      StaysConsumed(ledger, i, j, token);
    }
  }
}
