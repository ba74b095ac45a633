/** Canonical OAuth scope lists: sorted, without duplicates
    (internal/config/cloud_login.go). */
module Scopes {
  predicate Before(a: string, b: string) {
    if b == "" then false
    else if a == "" then true
    else a[0] < b[0] || (a[0] == b[0] && Before(a[1..], b[1..]))
  }

  lemma {:induction false} BeforeIsTotal(a: string, b: string)
    ensures a == b || Before(a, b) || Before(b, a)
    ensures !(Before(a, b) && Before(b, a)) && !Before(a, a)
  {
    if a != "" && b != "" {
      BeforeIsTotal(a[1..], b[1..]);
      BeforeIsTotal(a[1..], a[1..]);
      assert a == [a[0]] + a[1..] && b == [b[0]] + b[1..];
    } else if a != "" {
      BeforeIsTotal(a[1..], a[1..]);
    }
  }

  lemma {:induction false} BeforeIsTransitive(a: string, b: string, c: string)
    requires Before(a, b) && Before(b, c)
    ensures Before(a, c)
  {
    if a != "" && a[0] == b[0] == c[0] {
      BeforeIsTransitive(a[1..], b[1..], c[1..]);
    }
  }

  /** The order is that of bytes: a proper prefix comes first, and else the smaller byte at
      the first difference. */
  lemma {:induction false} BeforeExactly(a: string, b: string)
    ensures Before(a, b) <==> (a < b || exists i :: FirstDifference(a, b, i) && a[i] < b[i])
  {
    if a == "" {
      assert b != "" ==> a < b;
    } else if b != "" {
      BeforeExactly(a[1..], b[1..]);
      assert a == [a[0]] + a[1..] && b == [b[0]] + b[1..];
      if a[0] != b[0] {
        assert FirstDifference(a, b, 0);
      } else {
        forall i | 0 <= i ensures FirstDifference(a[1..], b[1..], i) <==> FirstDifference(a, b, i + 1) {
          DifferenceFurtherOn(a, b, i);
        }
        if exists i :: FirstDifference(a, b, i) && a[i] < b[i] {
          var i :| FirstDifference(a, b, i) && a[i] < b[i];
          assert FirstDifference(a[1..], b[1..], i - 1);
        }
        if exists i :: FirstDifference(a[1..], b[1..], i) && a[1..][i] < b[1..][i] {
          var i :| FirstDifference(a[1..], b[1..], i) && a[1..][i] < b[1..][i];
          assert FirstDifference(a, b, i + 1);
        }
      }
    }
  }

  predicate FirstDifference(a: string, b: string, i: int) {
    0 <= i < |a| && i < |b| && a[i] != b[i] && forall j :: 0 <= j < i ==> a[j] == b[j]
  }

  lemma DifferenceFurtherOn(a: string, b: string, i: nat)
    requires a != "" && b != "" && a[0] == b[0]
    ensures FirstDifference(a[1..], b[1..], i) <==> FirstDifference(a, b, i + 1)
  {
    if FirstDifference(a, b, i + 1) {
      forall j | 0 <= j < i ensures a[1..][j] == b[1..][j] {
        assert a[j + 1] == b[j + 1];
      }
    }
  }

  ghost predicate Ascending(s: seq<string>) {
    forall i, j :: 0 <= i < j < |s| ==> Before(s[i], s[j])
  }

  function Insert(x: string, s: seq<string>): seq<string> {
    if s == [] then [x]
    else if x == s[0] then s
    else if Before(x, s[0]) then [x] + s
    else [s[0]] + Insert(x, s[1..])
  }

  function Canonical(s: seq<string>): seq<string> {
    if s == [] then [] else Insert(s[0], Canonical(s[1..]))
  }

  lemma {:induction false} InsertKeepsOrder(x: string, s: seq<string>)
    requires Ascending(s)
    ensures Ascending(Insert(x, s))
    ensures forall y :: y in Insert(x, s) <==> y == x || y in s
  {
    if s != [] {
      BeforeIsTotal(x, s[0]);
      if Before(x, s[0]) {
        forall j | 0 <= j < |s| ensures Before(x, s[j]) {
          if j > 0 {
            BeforeIsTransitive(x, s[0], s[j]);
          }
        }
      } else if x != s[0] {
        InsertKeepsOrder(x, s[1..]);
        var rest := Insert(x, s[1..]);
        forall j | 0 <= j < |rest| ensures Before(s[0], rest[j]) {
          assert rest[j] == x || rest[j] in s[1..];
        }
        assert s == [s[0]] + s[1..];
      }
    }
  }

  /** Sorted, duplicate-free, and the same scopes. */
  lemma {:induction false} CanonicalIsSorted(s: seq<string>)
    ensures Ascending(Canonical(s))
    ensures forall y :: y in Canonical(s) <==> y in s
  {
    if s != [] {
      CanonicalIsSorted(s[1..]);
      InsertKeepsOrder(s[0], Canonical(s[1..]));
      assert s == [s[0]] + s[1..];
    }
  }

  lemma HeadIsMember(s: seq<string>)
    requires s != []
    ensures s[0] in s
  {
  }

  lemma {:induction false} AscendingIsUnique(a: seq<string>, b: seq<string>)
    requires Ascending(a) && Ascending(b) && forall y :: y in a <==> y in b
    ensures a == b
  {
    if a == [] {
      if b != [] {
        HeadIsMember(b);
        assert false;
      }
    } else {
      assert a[0] in b && b != [] && b[0] in a;
      var i :| 0 <= i < |a| && a[i] == b[0];
      var j :| 0 <= j < |b| && b[j] == a[0];
      BeforeIsTotal(a[0], b[0]);
      assert a[0] == b[0];
      forall y ensures y in a[1..] <==> y in b[1..] {
        BeforeIsTotal(a[0], a[0]);
        assert y in a[1..] ==> y in a && y != a[0];
        assert y in b[1..] ==> y in b && y != b[0];
      }
      AscendingIsUnique(a[1..], b[1..]);
      assert a == [a[0]] + a[1..] && b == [b[0]] + b[1..];
    }
  }

  /** Two scope lists compare equal exactly when they grant the same scopes. */
  lemma CanonicalComparesSets(a: seq<string>, b: seq<string>)
    ensures Canonical(a) == Canonical(b) <==> forall y :: y in a <==> y in b
  {
    CanonicalIsSorted(a);
    CanonicalIsSorted(b);
    if forall y :: y in a <==> y in b {
      AscendingIsUnique(Canonical(a), Canonical(b));
    } else {
      var y :| !(y in a <==> y in b);
      assert y in Canonical(a) <==> y in a;
      assert y in Canonical(b) <==> y in b;
    }
  }

  lemma CanonicalIsIdempotent(s: seq<string>)
    ensures Canonical(Canonical(s)) == Canonical(s)
  {
    CanonicalIsSorted(s);
    CanonicalComparesSets(Canonical(s), s);
  }

  ghost predicate Lists(s: seq<string>, names: set<string>) {
    Ascending(s) && forall n :: n in s <==> n in names
  }

  lemma {:induction false} SortingExists(names: set<string>)
    ensures exists s :: Lists(s, names)
    decreases |names|
  {
    if names == {} {
      assert Lists([], names);
    } else {
      var x :| x in names;
      SortingExists(names - {x});
      var s :| Lists(s, names - {x});
      InsertKeepsOrder(x, s);
      assert Lists(Insert(x, s), names);
    }
  }

  /** The names in ascending order. */
  ghost function Sorted(names: set<string>): (s: seq<string>)
    ensures Lists(s, names)
  {
    SortingExists(names);
    var s :| Lists(s, names);
    s
  }

  lemma SortedIsUnique(s: seq<string>, names: set<string>)
    requires Lists(s, names)
    ensures s == Sorted(names) && forall i, j :: 0 <= i < j < |s| ==> s[i] != s[j]
  {
    AscendingIsUnique(s, Sorted(names));
    forall i, j | 0 <= i < j < |s| ensures s[i] != s[j] {
      BeforeIsTotal(s[i], s[i]);
    }
  }
}
