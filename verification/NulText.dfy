/** Texts joined by NUL characters. */
module NulText {
  predicate NulFree(s: string) {
    '\0' !in s
  }

  function Terminated(parts: seq<string>): string {
    if parts == [] then "" else parts[0] + "\0" + Terminated(parts[1..])
  }

  lemma CharactersBeforeNul(a: string, x: string)
    requires NulFree(a)
    ensures forall i :: 0 <= i < |a| ==> (a + "\0" + x)[i] != '\0'
    ensures (a + "\0" + x)[|a|] == '\0'
  {
  }

  /** The first NUL ends the first part. */
  lemma SamePrefix(a: string, b: string, x: string, y: string)
    requires NulFree(a) && NulFree(b) && a + "\0" + x == b + "\0" + y
    ensures a == b && x == y
  {
    CharactersBeforeNul(a, x);
    CharactersBeforeNul(b, y);
    assert |a| == |b|;
    assert a == (a + "\0" + x)[..|a|] && b == (b + "\0" + y)[..|b|];
    assert x == (a + "\0" + x)[|a| + 1..] && y == (b + "\0" + y)[|b| + 1..];
  }

  /** The pre-image determines its components. */
  lemma {:induction false} TerminatedIsInjective(a: seq<string>, b: seq<string>)
    requires |a| == |b| && (forall s :: s in a ==> NulFree(s)) && (forall s :: s in b ==> NulFree(s))
    requires Terminated(a) == Terminated(b)
    ensures a == b
  {
    if a != [] {
      SamePrefix(a[0], b[0], Terminated(a[1..]), Terminated(b[1..]));
      TerminatedIsInjective(a[1..], b[1..]);
      assert a == [a[0]] + a[1..] && b == [b[0]] + b[1..];
    }
  }
}
