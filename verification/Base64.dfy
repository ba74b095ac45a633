/** Unpadded URL-safe base64, section 5 of RFC 4648, with the decoder's tolerance for
    line breaks and stray trailing bits. */
module Base64 {
  import opened Wrappers

  type byte = n: int | 0 <= n < 256
  type sextet = n: int | 0 <= n < 64

  function Letter(v: sextet): char {
    if v < 26 then 'A' + v as char
    else if v < 52 then 'a' + (v - 26) as char
    else if v < 62 then '0' + (v - 52) as char
    else if v == 62 then '-' else '_'
  }

  /** The value of a character of the alphabet. */
  function ValueOf(c: char): Option<sextet> {
    if 'A' <= c <= 'Z' then Some(c as int - 'A' as int)
    else if 'a' <= c <= 'z' then Some(c as int - 'a' as int + 26)
    else if '0' <= c <= '9' then Some(c as int - '0' as int + 52)
    else if c == '-' then Some(62)
    else if c == '_' then Some(63)
    else None
  }

  lemma LetterRoundTrip(v: sextet)
    ensures ValueOf(Letter(v)) == Some(v) && Letter(v) != ':' && Letter(v) != '\r' && Letter(v) != '\n'
  {
  }

  /** Three bytes make four sextets; the last group is cut short. */
  function Sextets(b: seq<byte>): seq<sextet> {
    if b == [] then []
    else if |b| == 1 then [b[0] / 4, b[0] % 4 * 16]
    else if |b| == 2 then [b[0] / 4, b[0] % 4 * 16 + b[1] / 16, b[1] % 16 * 4]
    else [b[0] / 4, b[0] % 4 * 16 + b[1] / 16, b[1] % 16 * 4 + b[2] / 64, b[2] % 64] + Sextets(b[3..])
  }

  predicate IsSextet(n: int) {
    0 <= n < 64
  }

  function First(p: int, q: int): byte
    requires IsSextet(p) && IsSextet(q)
  {
    p * 4 + q / 16
  }

  function Second(q: int, r: int): byte
    requires IsSextet(q) && IsSextet(r)
  {
    q % 16 * 16 + r / 4
  }

  function Third(r: int, s: int): byte
    requires IsSextet(r) && IsSextet(s)
  {
    r % 4 * 64 + s
  }

  function Bytes(v: seq<sextet>): seq<byte> {
    if |v| < 2 then []
    else if |v| == 2 then [First(v[0], v[1])]
    else if |v| == 3 then [First(v[0], v[1]), Second(v[1], v[2])]
    else [First(v[0], v[1]), Second(v[1], v[2]), Third(v[2], v[3])] + Bytes(v[4..])
  }

  function Spell(v: seq<sextet>): string {
    seq(|v|, i requires 0 <= i < |v| => Letter(v[i]))
  }

  function Encode(b: seq<byte>): string {
    Spell(Sextets(b))
  }

  predicate InAlphabet(s: string) {
    forall i :: 0 <= i < |s| ==> ValueOf(s[i]).Some?
  }

  function Values(s: string): seq<sextet>
    requires InAlphabet(s)
  {
    seq(|s|, i requires 0 <= i < |s| => ValueOf(s[i]).value)
  }

  /** Line breaks are skipped wherever they stand. */
  function Significant(s: string): string {
    if s == "" then ""
    else (if s[0] == '\r' || s[0] == '\n' then "" else [s[0]]) + Significant(s[1..])
  }

  /** A lone trailing character is an error; unused trailing bits are not. */
  function Decode(s: string): Option<seq<byte>> {
    var t := Significant(s);
    if InAlphabet(t) && |t| % 4 != 1 then Some(Bytes(Values(t))) else None
  }

  /** Each group of three bytes survives. */
  lemma GroupRoundTrip(a: byte, b: byte, c: byte)
    ensures IsSextet(a % 4 * 16 + b / 16) && IsSextet(b % 16 * 4 + c / 64)
    ensures First(a / 4, a % 4 * 16 + b / 16) == a
    ensures Second(a % 4 * 16 + b / 16, b % 16 * 4 + c / 64) == b
    ensures Third(b % 16 * 4 + c / 64, c % 64) == c
  {
  }

  lemma {:induction false} SextetsRoundTrip(b: seq<byte>)
    ensures Bytes(Sextets(b)) == b && |Sextets(b)| == (4 * |b| + 2) / 3
  {
    if |b| >= 3 {
      GroupRoundTrip(b[0], b[1], b[2]);
      hide First, Second, Third;
      SextetsRoundTrip(b[3..]);
      assert Sextets(b)[4..] == Sextets(b[3..]);
      assert b == b[..3] + b[3..];
    }
  }

  lemma SpellRoundTrip(v: seq<sextet>)
    ensures InAlphabet(Spell(v)) && Values(Spell(v)) == v
    ensures ':' !in Spell(v) && '\r' !in Spell(v) && '\n' !in Spell(v)
  {
    hide Letter, ValueOf;
    forall i | 0 <= i < |v| ensures ValueOf(Spell(v)[i]) == Some(v[i]) && Spell(v)[i] !in ":\r\n" {
      LetterRoundTrip(v[i]);
    }
  }

  lemma {:induction false} SignificantUnchanged(s: string)
    requires '\r' !in s && '\n' !in s
    ensures Significant(s) == s
  {
    if s != "" {
      SignificantUnchanged(s[1..]);
    }
  }

  /** Decoding undoes encoding, and the encoding is plain text. */
  lemma EncodeRoundTrip(b: seq<byte>)
    ensures Decode(Encode(b)) == Some(b)
    ensures ':' !in Encode(b) && |Encode(b)| == (4 * |b| + 2) / 3
  {
    hide Sextets, Bytes, Letter, ValueOf, Significant, Values;
    SextetsRoundTrip(b);
    SpellRoundTrip(Sextets(b));
    SignificantUnchanged(Encode(b));
  }

  lemma {:induction false} BytesCount(v: seq<sextet>)
    requires |v| % 4 != 1
    ensures |Bytes(v)| == 3 * |v| / 4
  {
    if |v| >= 4 {
      BytesCount(v[4..]);
    }
  }

  /** What decodes to 32 bytes has exactly 43 significant characters. */
  lemma DecodesTo32(s: string)
    ensures Decode(s).Some? && |Decode(s).value| == 32 <==> InAlphabet(Significant(s)) && |Significant(s)| == 43
  {
    var t := Significant(s);
    if InAlphabet(t) && |t| % 4 != 1 {
      BytesCount(Values(t));
    }
  }

  lemma EncodeIsInjective(a: seq<byte>, b: seq<byte>)
    requires Encode(a) == Encode(b)
    ensures a == b
  {
    EncodeRoundTrip(a);
    EncodeRoundTrip(b);
  }

  /** Examples of sections 5 and 10 of RFC 4648: one, two and three bytes, and the two
      letters that URLs need instead of "+" and "/". */
  lemma Examples()
    ensures Encode([0x66]) == "Zg" && Encode([0x66, 0x6f]) == "Zm8" && Encode([0x66, 0x6f, 0x6f]) == "Zm9v"
    ensures Encode([0xfb, 0xff]) == "-_8"
  {
    assert Sextets([0x66]) == [25, 32] && Sextets([0x66, 0x6f]) == [25, 38, 60] && Sextets([0xfb, 0xff]) == [62, 63, 60];
    assert Sextets([0x66, 0x6f, 0x6f]) == [25, 38, 61, 47] + Sextets([]);
  }
}
