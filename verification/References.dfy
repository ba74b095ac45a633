/** The textual forms of keychain references (internal/credentials/credentials.go).
    Characters stand for bytes. */
module References {
  import opened Base64
  import opened Credentials
  import opened NulText
  import opened Wrappers

  const LEGACY_PREFIX := "keychain:gcx:"
  const BOUND_PREFIX := "keychain:gcx:v2:"
  const ACCOUNT_PREFIX := "v2:"

  function FieldName(field: Field): string {
    match field
    case CloudToken => "cloud-token"
    case GrafanaToken => "grafana-token"
    case GrafanaPassword => "grafana-password"
    case OAuthToken => "oauth-token"
    case OAuthRefreshToken => "oauth-refresh-token"
    case SMToken => "sm-token"
  }

  function FieldNamed(name: string): Option<Field> {
    if name == "cloud-token" then Some(CloudToken)
    else if name == "grafana-token" then Some(GrafanaToken)
    else if name == "grafana-password" then Some(GrafanaPassword)
    else if name == "oauth-token" then Some(OAuthToken)
    else if name == "oauth-refresh-token" then Some(OAuthRefreshToken)
    else if name == "sm-token" then Some(SMToken)
    else None
  }

  lemma FieldNames(field: Field)
    ensures FieldNamed(FieldName(field)) == Some(field)
    ensures FieldName(field) != "" && ':' !in FieldName(field) && NulFree(FieldName(field))
  {
  }

  lemma FieldNamedIsExact(name: string)
    ensures FieldNamed(name).Some? ==> FieldName(FieldNamed(name).value) == name
  {
  }

  predicate HasPrefix(s: string, prefix: string) {
    |prefix| <= |s| && s[..|prefix|] == prefix
  }

  /** The text before and after the first separator. */
  function Cut(s: string, separator: char): Option<(string, string)> {
    if s == "" then None
    else if s[0] == separator then Some(("", s[1..]))
    else match Cut(s[1..], separator)
      case None => None
      case Some((before, after)) => Some(([s[0]] + before, after))
  }

  lemma {:induction false} CutIsExact(s: string, separator: char)
    ensures match Cut(s, separator)
            case None => separator !in s
            case Some((before, after)) => separator !in before && s == before + [separator] + after
  {
    if s != "" && s[0] != separator {
      CutIsExact(s[1..], separator);
      assert s == [s[0]] + s[1..];
    }
  }

  lemma {:induction false} CutFinds(before: string, separator: char, after: string)
    requires separator !in before
    ensures Cut(before + [separator] + after, separator) == Some((before, after))
  {
    var s := before + [separator] + after;
    if before == "" {
      assert s[1..] == after;
    } else {
      assert s[1..] == before[1..] + [separator] + after;
      CutFinds(before[1..], separator, after);
      assert [before[0]] + before[1..] == before;
    }
  }

  /** The hash pre-image: each component is closed by a NUL. */
  function PreImage(binding: Binding): string {
    Terminated([binding.key.source, binding.key.owner, FieldName(binding.key.field), binding.destination])
  }

  predicate Clean(binding: Binding) {
    NulFree(binding.key.source) && NulFree(binding.key.owner) && NulFree(binding.destination)
  }

  lemma PreImageIsInjective(a: Binding, b: Binding)
    requires Clean(a) && Clean(b) && PreImage(a) == PreImage(b)
    ensures a == b
  {
    FieldNames(a.key.field);
    FieldNames(b.key.field);
    var x := [a.key.source, a.key.owner, FieldName(a.key.field), a.destination];
    var y := [b.key.source, b.key.owner, FieldName(b.key.field), b.destination];
    TerminatedIsInjective(x, y);
    assert x[0] == y[0] && x[1] == y[1] && x[2] == y[2] && x[3] == y[3];
  }

  ghost predicate Is32(hash: string -> seq<byte>) {
    forall s :: |hash(s)| == 32
  }

  function Digest(hash: string -> seq<byte>, binding: Binding): string {
    Encode(hash(PreImage(binding)))
  }

  predicate ValidDigest(digest: string) {
    Decode(digest).Some? && |Decode(digest).value| == 32
  }

  predicate ValidGeneration(generation: string) {
    generation != "" && |generation| <= 128 && ':' !in generation
  }

  function AccountText(hash: string -> seq<byte>, binding: Binding, generation: string): string {
    ACCOUNT_PREFIX + Digest(hash, binding) + ":" + generation
  }

  function SentinelText(hash: string -> seq<byte>, binding: Binding, generation: string): string {
    BOUND_PREFIX + Digest(hash, binding) + ":" + generation
  }

  function ParseBoundSentinel(s: string): Option<(string, string)> {
    if !HasPrefix(s, BOUND_PREFIX) then None
    else match Cut(s[|BOUND_PREFIX|..], ':')
      case None => None
      case Some((digest, generation)) =>
        if ValidDigest(digest) && ValidGeneration(generation) then Some((digest, generation)) else None
  }

  predicate MatchesBoundSentinel(hash: string -> seq<byte>, s: string, binding: Binding) {
    var parsed := ParseBoundSentinel(s);
    parsed.Some? && binding.Valid() && parsed.value.0 == Digest(hash, binding)
  }

  function AccountForBoundSentinel(hash: string -> seq<byte>, s: string, binding: Binding): Option<string> {
    var parsed := ParseBoundSentinel(s);
    if parsed.None? || !binding.Valid() || parsed.value.0 != Digest(hash, binding) then None
    else Some(ACCOUNT_PREFIX + parsed.value.0 + ":" + parsed.value.1)
  }

  predicate MatchesBoundAccount(hash: string -> seq<byte>, account: string, binding: Binding) {
    binding.Valid() && HasPrefix(account, ACCOUNT_PREFIX)
    && var cut := Cut(account[|ACCOUNT_PREFIX|..], ':');
       cut.Some? && ValidDigest(cut.value.0) && ValidGeneration(cut.value.1) && cut.value.0 == Digest(hash, binding)
  }

  /** The 18 random bytes of a rotation make a valid generation. */
  lemma RotationsAreValid(random: seq<byte>)
    requires |random| == 18
    ensures ValidGeneration(Encode(random)) && |Encode(random)| == 24
  {
    EncodeRoundTrip(random);
  }

  lemma DigestIsValid(hash: string -> seq<byte>, binding: Binding)
    requires Is32(hash)
    ensures ValidDigest(Digest(hash, binding)) && ':' !in Digest(hash, binding)
  {
    EncodeRoundTrip(hash(PreImage(binding)));
  }

  lemma ParsesOwn(hash: string -> seq<byte>, binding: Binding, generation: string)
    requires Is32(hash) && ValidGeneration(generation)
    ensures ParseBoundSentinel(SentinelText(hash, binding, generation)) == Some((Digest(hash, binding), generation))
  {
    hide ValidDigest;
    var s, digest := SentinelText(hash, binding, generation), Digest(hash, binding);
    DigestIsValid(hash, binding);
    CutFinds(digest, ':', generation);
    assert s == BOUND_PREFIX + (digest + [':'] + generation);
    assert s[..|BOUND_PREFIX|] == BOUND_PREFIX && s[|BOUND_PREFIX|..] == digest + [':'] + generation;
  }

  /** A reference yields an account exactly when it was generated for that binding,
      and then that generation's account. */
  lemma AccountExactly(hash: string -> seq<byte>, s: string, binding: Binding)
    requires Is32(hash)
    ensures AccountForBoundSentinel(hash, s, binding).Some?
            <==> binding.Valid() && exists g :: ValidGeneration(g) && s == SentinelText(hash, binding, g)
    ensures forall g :: binding.Valid() && ValidGeneration(g) && s == SentinelText(hash, binding, g) ==>
              AccountForBoundSentinel(hash, s, binding) == Some(AccountText(hash, binding, g))
    ensures MatchesBoundSentinel(hash, s, binding) <==> AccountForBoundSentinel(hash, s, binding).Some?
  {
    hide ValidDigest, Digest, ValidGeneration, Cut;
    forall g | ValidGeneration(g) && s == SentinelText(hash, binding, g)
      ensures ParseBoundSentinel(s) == Some((Digest(hash, binding), g))
    {
      ParsesOwn(hash, binding, g);
    }
    var parsed := ParseBoundSentinel(s);
    if parsed.Some? && parsed.value.0 == Digest(hash, binding) {
      CutIsExact(s[|BOUND_PREFIX|..], ':');
      assert s == BOUND_PREFIX + s[|BOUND_PREFIX|..];
      assert s == SentinelText(hash, binding, parsed.value.1);
    }
  }

  /** A generated text is a reference exactly when its generation has 1 to 128 characters and
      no colon. */
  lemma GenerationsAreLimited(hash: string -> seq<byte>, binding: Binding, generation: string)
    requires Is32(hash)
    ensures ParseBoundSentinel("keychain:gcx:v2:" + Digest(hash, binding) + ":" + generation)
            == if 1 <= |generation| <= 128 && ':' !in generation then Some((Digest(hash, binding), generation)) else None
  {
    hide ValidDigest;
    var digest := Digest(hash, binding);
    var s := "keychain:gcx:v2:" + digest + ":" + generation;
    DigestIsValid(hash, binding);
    CutFinds(digest, ':', generation);
    assert s == "keychain:gcx:v2:" + (digest + [':'] + generation);
    assert s[..16] == "keychain:gcx:v2:" && s[16..] == digest + [':'] + generation;
    hide Cut, Digest;
  }

  /** Among NUL-free bindings, with a digest free of collisions, a reference opens the
      account of its own binding and of no other. */
  lemma OwnBindingOnly(hash: string -> seq<byte>, binding: Binding, other: Binding, generation: string)
    requires Is32(hash) && ValidGeneration(generation) && binding.Valid() && other.Valid() && Clean(binding) && Clean(other)
    requires hash(PreImage(binding)) == hash(PreImage(other)) ==> PreImage(binding) == PreImage(other)
    ensures AccountForBoundSentinel(hash, SentinelText(hash, binding, generation), other)
            == if other == binding then Some(AccountText(hash, binding, generation)) else None
    ensures MatchesBoundAccount(hash, AccountText(hash, binding, generation), other) <==> other == binding
  {
    ParsesOwn(hash, binding, generation);
    AccountParsesOwn(hash, binding, generation);
    if Digest(hash, binding) == Digest(hash, other) {
      EncodeIsInjective(hash(PreImage(binding)), hash(PreImage(other)));
      PreImageIsInjective(binding, other);
    }
  }

  lemma AccountParsesOwn(hash: string -> seq<byte>, binding: Binding, generation: string)
    requires Is32(hash) && ValidGeneration(generation)
    ensures var account := AccountText(hash, binding, generation);
            && HasPrefix(account, ACCOUNT_PREFIX) && ValidDigest(Digest(hash, binding))
            && Cut(account[|ACCOUNT_PREFIX|..], ':') == Some((Digest(hash, binding), generation))
  {
    hide ValidDigest;
    var account, digest := AccountText(hash, binding, generation), Digest(hash, binding);
    DigestIsValid(hash, binding);
    CutFinds(digest, ':', generation);
    assert account == ACCOUNT_PREFIX + (digest + [':'] + generation);
    assert account[|ACCOUNT_PREFIX|..] == digest + [':'] + generation;
  }

  /** Accounts of different bindings or generations are different keychain entries. */
  lemma AccountsAreDistinct(hash: string -> seq<byte>, a: Binding, g: string, b: Binding, h: string)
    requires Is32(hash) && ValidGeneration(g) && ValidGeneration(h) && Clean(a) && Clean(b)
    requires hash(PreImage(a)) == hash(PreImage(b)) ==> PreImage(a) == PreImage(b)
    ensures AccountText(hash, a, g) == AccountText(hash, b, h) <==> a == b && g == h
  {
    AccountParsesOwn(hash, a, g);
    AccountParsesOwn(hash, b, h);
    if AccountText(hash, a, g) == AccountText(hash, b, h) {
      EncodeIsInjective(hash(PreImage(a)), hash(PreImage(b)));
      PreImageIsInjective(a, b);
    }
  }

  datatype BoundReference = BoundReference(account: string, sentinel: string)

  /** A rotation names its generation by 18 random bytes. */
  function NewBoundReference(hash: string -> seq<byte>, binding: Binding, random: seq<byte>): Option<BoundReference>
    requires |random| == 18
  {
    if !binding.Valid() then None
    else Some(BoundReference(AccountText(hash, binding, Encode(random)), SentinelText(hash, binding, Encode(random))))
  }

  /** A rotated reference opens the account made with it, for its own binding alone, and
      two rotations share an account only with the same binding and the same bytes. */
  lemma RotationsAreApart(hash: string -> seq<byte>, a: Binding, random: seq<byte>, b: Binding, again: seq<byte>)
    requires Is32(hash) && |random| == 18 == |again| && a.Valid() && b.Valid() && Clean(a) && Clean(b)
    requires hash(PreImage(a)) == hash(PreImage(b)) ==> PreImage(a) == PreImage(b)
    ensures var x, y := NewBoundReference(hash, a, random), NewBoundReference(hash, b, again);
            && x.Some? && y.Some?
            && AccountForBoundSentinel(hash, x.value.sentinel, b) == (if a == b then Some(x.value.account) else None)
            && (x.value.account == y.value.account <==> a == b && random == again)
  {
    RotationsAreValid(random);
    RotationsAreValid(again);
    hide Encode, Digest, ValidGeneration, AccountForBoundSentinel, MatchesBoundAccount, Clean, PreImage;
    OwnBindingOnly(hash, a, b, Encode(random));
    AccountsAreDistinct(hash, a, Encode(random), b, Encode(again));
    if Encode(random) == Encode(again) {
      EncodeIsInjective(random, again);
    }
  }

  // ----- Legacy references -----

  predicate IsSentinel(s: string) {
    HasPrefix(s, LEGACY_PREFIX)
  }

  predicate IsLegacySentinel(s: string) {
    HasPrefix(s, LEGACY_PREFIX) && !HasPrefix(s, BOUND_PREFIX)
  }

  function FormatSentinel(owner: string, field: Field): string {
    LEGACY_PREFIX + owner + ":" + FieldName(field)
  }

  function CutLast(s: string, separator: char): Option<(string, string)> {
    if s == "" then None
    else
      var last := |s| - 1;
      if s[last] == separator then Some((s[..last], ""))
      else match CutLast(s[..last], separator)
        case None => None
        case Some((before, after)) => Some((before, after + [s[last]]))
  }

  lemma {:induction false} CutLastIsExact(s: string, separator: char)
    ensures match CutLast(s, separator)
            case None => separator !in s
            case Some((before, after)) => separator !in after && s == before + [separator] + after
  {
    if s != "" {
      var last := |s| - 1;
      CutLastIsExact(s[..last], separator);
      assert s == s[..last] + [s[last]];
    }
  }

  lemma {:induction false} CutLastFinds(before: string, separator: char, after: string)
    requires separator !in after
    ensures CutLast(before + [separator] + after, separator) == Some((before, after))
  {
    var s := before + [separator] + after;
    var last := |s| - 1;
    if after == "" {
      assert s[..last] == before;
    } else {
      var front := after[..|after| - 1];
      assert s[..last] == before + [separator] + front;
      CutLastFinds(before, separator, front);
      assert front + [after[|after| - 1]] == after;
    }
  }

  function ParseSentinel(s: string): Option<(string, Field)> {
    if !IsLegacySentinel(s) then None
    else match CutLast(s[|LEGACY_PREFIX|..], ':')
      case None => None
      case Some((owner, name)) =>
        if owner == "" || name == "" || FieldNamed(name).None? then None else Some((owner, FieldNamed(name).value))
  }

  /** The owners whose references read as v2 references. */
  predicate LooksBound(owner: string) {
    owner == "v2" || HasPrefix(owner, "v2:")
  }

  lemma PrefixOfTail(p: string, q: string, rest: string)
    ensures HasPrefix(p + rest, p + q) <==> HasPrefix(rest, q)
  {
    if |q| <= |rest| {
      assert (p + rest)[..|p + q|] == p + rest[..|q|];
      assert (p + rest[..|q|])[|p|..] == rest[..|q|] && (p + q)[|p|..] == q;
    }
  }

  lemma StartsV2(s: string)
    ensures HasPrefix(s, "v2:") <==> |s| >= 3 && s[0] == 'v' && s[1] == '2' && s[2] == ':'
    ensures s == "v2" <==> |s| == 2 && s[0] == 'v' && s[1] == '2'
  {
    if |s| >= 3 {
      assert s[..3] == [s[0], s[1], s[2]];
    } else if |s| == 2 {
      assert s == [s[0], s[1]];
    }
  }

  lemma FormattedLooksBound(owner: string, field: Field)
    ensures HasPrefix(FormatSentinel(owner, field), BOUND_PREFIX) <==> LooksBound(owner)
  {
    hide HasPrefix, FieldName, FieldNamed, NulFree;
    var rest := owner + (":" + FieldName(field));
    assert FormatSentinel(owner, field) == LEGACY_PREFIX + rest && BOUND_PREFIX == LEGACY_PREFIX + "v2:";
    assert rest[|owner|] == ':' && forall i :: 0 <= i < |owner| ==> rest[i] == owner[i];
    FieldNames(field);
    PrefixOfTail(LEGACY_PREFIX, "v2:", rest);
    StartsV2(rest);
    StartsV2(owner);
  }

  /** Formatting and parsing are inverse exactly for a non-empty owner that does not
      look like a v2 reference. */
  lemma LegacyRoundTrip(owner: string, field: Field)
    ensures ParseSentinel(FormatSentinel(owner, field)) == Some((owner, field)) <==> owner != "" && !LooksBound(owner)
    ensures ParseSentinel(FormatSentinel(owner, field)).Some? ==> owner != "" && !LooksBound(owner)
  {
    hide LooksBound, FieldNamed, CutLast;
    FieldNames(field);
    FormattedLooksBound(owner, field);
    var s, rest := FormatSentinel(owner, field), owner + [':'] + FieldName(field);
    assert s == LEGACY_PREFIX + rest;
    assert s[..|LEGACY_PREFIX|] == LEGACY_PREFIX && s[|LEGACY_PREFIX|..] == rest;
    CutLastFinds(owner, ':', FieldName(field));
  }

  /** What parses is what formatting writes. */
  lemma ParsedIsFormatted(s: string)
    ensures ParseSentinel(s).Some? ==> s == FormatSentinel(ParseSentinel(s).value.0, ParseSentinel(s).value.1)
    ensures ParseSentinel(s).Some? ==> ParseBoundSentinel(s).None?
  {
    hide FieldNamed, FieldName, CutLast;
    if ParseSentinel(s).Some? {
      var rest := s[|LEGACY_PREFIX|..];
      CutLastIsExact(rest, ':');
      FieldNamedIsExact(CutLast(rest, ':').value.1);
      assert s == LEGACY_PREFIX + rest;
    }
  }
}
