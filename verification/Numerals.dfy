/** Decimal numerals and the numbered names built from them. */
module Numerals {
  function Digit(d: nat): char
    requires d < 10
  {
    "0123456789"[d]
  }

  function Itoa(n: nat): string {
    if n < 10 then [Digit(n)] else Itoa(n / 10) + [Digit(n % 10)]
  }

  function DigitValue(c: char): nat {
    if '0' <= c <= '9' then c as nat - '0' as nat else 0
  }

  function Value(s: string): nat {
    if s == "" then 0 else 10 * Value(s[..|s| - 1]) + DigitValue(s[|s| - 1])
  }

  lemma DigitRoundTrip(d: nat)
    requires d < 10
    ensures DigitValue(Digit(d)) == d
  {
  }

  lemma {:induction false} ItoaRoundTrip(n: nat)
    ensures Value(Itoa(n)) == n
  {
    if n < 10 {
      DigitRoundTrip(n);
      assert [Digit(n)][..0] == "";
    } else {
      ItoaRoundTrip(n / 10);
      DigitRoundTrip(n % 10);
      var front := Itoa(n / 10);
      assert (front + [Digit(n % 10)])[..|front|] == front;
    }
  }

  /** base, base-2, base-3, ... */
  function Candidate(base: string, i: nat): string
    requires i >= 1
  {
    if i == 1 then base else base + "-" + Itoa(i)
  }

  lemma CandidatesDiffer(base: string, i: nat, j: nat)
    requires 1 <= i < j
    ensures Candidate(base, i) != Candidate(base, j)
  {
    if i > 1 && Candidate(base, i) == Candidate(base, j) {
      var prefix := base + "-";
      assert Candidate(base, i)[|prefix|..] == Itoa(i);
      assert Candidate(base, j)[|prefix|..] == Itoa(j);
      ItoaRoundTrip(i);
      ItoaRoundTrip(j);
    }
  }

  function Candidates(base: string, n: nat): set<string> {
    set i | 1 <= i <= n :: Candidate(base, i)
  }

  lemma {:induction false} CandidatesCount(base: string, n: nat)
    ensures |Candidates(base, n)| == n
  {
    hide Candidate;
    if n > 0 {
      CandidatesCount(base, n - 1);
      forall i | 1 <= i < n ensures Candidate(base, i) != Candidate(base, n) {
        CandidatesDiffer(base, i, n);
      }
      assert Candidates(base, n) == Candidates(base, n - 1) + {Candidate(base, n)};
    }
  }

  lemma SubsetCount<T>(small: set<T>, large: set<T>)
    requires small <= large
    ensures |small| <= |large|
  {
    assert large == small + (large - small);
  }

  lemma EqualCounts<T>(small: set<T>, large: set<T>)
    requires small <= large && |small| == |large|
    ensures small == large
  {
    assert large == small + (large - small);
  }

  /** Among n + 1 candidates one lies outside any n names. */
  lemma TakenCandidatesAreFew(base: string, n: nat, taken: set<string>)
    requires Candidates(base, n) <= taken
    ensures n <= |taken|
  {
    CandidatesCount(base, n);
    SubsetCount(Candidates(base, n), taken);
  }
}
