/** Naming the cloud entries of a converted config (internal/config/migrate.go): one
    entry per distinct credential tuple, named after its host. */
module Minting {
  import opened Migration
  import opened NulText
  import opened Wrappers

  type Targets = map<string, Option<Target>>

  function DedupKey(t: Target): string {
    t.token + "\0" + t.apiUrl + "\0" + t.oauthUrl
  }

  /** The entries minted so far, the name remembered for each tuple, and the name
      every context was given. */
  datatype Mints = Mints(cloud: map<string, Target>, names: map<string, string>, given: map<string, string>, clobbered: bool)

  const START := Mints(map[], map[], map[], false)

  function BaseName(urls: Urls, suffix: string, t: Target): string {
    urls.entryName(t.apiUrl) + suffix
  }

  /** One context. The second candidate name is used without looking: it may replace
      an entry that is already there. */
  function MintOne(urls: Urls, suffix: string, m: Mints, context: string, t: Target): Mints {
    var key := DedupKey(t);
    if key in m.names then m.(given := m.given[context := m.names[key]])
    else
      var base := BaseName(urls, suffix, t);
      var name := if base in m.cloud then base + "-" + context else base;
      Mints(m.cloud[name := t], m.names[key := name], m.given[context := name], m.clobbered || name in m.cloud)
  }

  function MintAll(urls: Urls, suffix: string, targets: Targets, order: seq<string>): Mints {
    if order == [] then START
    else
      var last := order[|order| - 1];
      var m := MintAll(urls, suffix, targets, order[..|order| - 1]);
      if last in targets && targets[last].Some? then MintOne(urls, suffix, m, last, targets[last].value) else m
  }

  predicate Bears(targets: Targets, context: string) {
    context in targets && targets[context].Some?
  }

  /** No two tuples share a deduplication key. */
  ghost predicate Distinguished(targets: Targets, order: seq<string>) {
    forall x, y | x in order && y in order && Bears(targets, x) && Bears(targets, y) ::
      DedupKey(targets[x].value) == DedupKey(targets[y].value) ==> targets[x] == targets[y]
  }

  predicate Found(m: Mints, targets: Targets, context: string) {
    Bears(targets, context) ==>
      context in m.given && m.given[context] in m.cloud && m.cloud[m.given[context]] == targets[context].value
  }

  /** Every context finds its own tuple under the name it was given. */
  predicate Faithful(m: Mints, targets: Targets, order: seq<string>) {
    forall x :: x in order ==> Found(m, targets, x)
  }

  predicate Covers(m: Mints, targets: Targets, order: seq<string>) {
    && m.given.Keys == (set x | x in order && Bears(targets, x))
    && (forall k :: k in m.names ==> m.names[k] in m.cloud)
    && forall x :: x in order && Bears(targets, x) ==>
         && DedupKey(targets[x].value) in m.names
         && m.given[x] == m.names[DedupKey(targets[x].value)]
         && m.given[x] in m.cloud
  }

  /** Every entry holds the tuple of a context that was given its name. */
  ghost predicate Grounded(m: Mints, targets: Targets, order: seq<string>) {
    forall e :: e in m.cloud ==> exists x :: Grounds(m, targets, order, e, x)
  }

  predicate Grounds(m: Mints, targets: Targets, order: seq<string>, e: string, x: string) {
    && x in order && Bears(targets, x) && x in m.given && m.given[x] == e && e in m.cloud
    && m.cloud[e] == targets[x].value
  }

  /** Until something is clobbered, a remembered name leads to a tuple with its key. */
  predicate Remembers(m: Mints) {
    !m.clobbered ==> forall k :: k in m.names ==> m.names[k] in m.cloud && DedupKey(m.cloud[m.names[k]]) == k
  }

  /** Two contexts with different tuples were given one name. */
  predicate Clash(m: Mints, targets: Targets, x: string, y: string) {
    && Bears(targets, x) && Bears(targets, y) && targets[x] != targets[y]
    && x in m.given && y in m.given && m.given[x] == m.given[y]
  }

  lemma Step(urls: Urls, suffix: string, targets: Targets, order: seq<string>)
    requires order != []
    ensures var front, last := order[..|order| - 1], order[|order| - 1];
            var m := MintAll(urls, suffix, targets, front);
            && (forall x :: x in order <==> x in front || x == last)
            && MintAll(urls, suffix, targets, order)
               == if Bears(targets, last) then MintOne(urls, suffix, m, last, targets[last].value) else m
  {
    hide MintOne;
    assert order == order[..|order| - 1] + [order[|order| - 1]];
  }

  lemma {:induction false} MintingCovers(urls: Urls, suffix: string, targets: Targets, order: seq<string>)
    ensures Covers(MintAll(urls, suffix, targets, order), targets, order)
  {
    hide DedupKey, BaseName, MintAll;
    if order != [] {
      var front, last := order[..|order| - 1], order[|order| - 1];
      MintingCovers(urls, suffix, targets, front);
      Step(urls, suffix, targets, order);
      var m := MintAll(urls, suffix, targets, front);
      if Bears(targets, last) {
        CoversStep(urls, suffix, targets, m, front, order, last);
      }
    } else {
      NothingMinted(urls, suffix, targets);
    }
  }

  lemma CoversStep(urls: Urls, suffix: string, targets: Targets, m: Mints, front: seq<string>, order: seq<string>, last: string)
    requires Covers(m, targets, front) && Bears(targets, last) && forall x :: x in order <==> x in front || x == last
    ensures Covers(MintOne(urls, suffix, m, last, targets[last].value), targets, order)
  {
    hide DedupKey, BaseName;
    var after := MintOne(urls, suffix, m, last, targets[last].value);
    assert after.given.Keys == m.given.Keys + {last};
    forall x | x in order && Bears(targets, x)
      ensures DedupKey(targets[x].value) in after.names && x in after.given
      ensures after.given[x] == after.names[DedupKey(targets[x].value)] && after.given[x] in after.cloud
    {
      if x != last {
        assert x in front;
      }
    }
  }

  lemma NothingMinted(urls: Urls, suffix: string, targets: Targets)
    ensures MintAll(urls, suffix, targets, []) == START
  {
  }

  lemma {:induction false} MintingRemembers(urls: Urls, suffix: string, targets: Targets, order: seq<string>)
    ensures Remembers(MintAll(urls, suffix, targets, order))
  {
    hide DedupKey, BaseName;
    if order != [] {
      MintingRemembers(urls, suffix, targets, order[..|order| - 1]);
    }
  }

  predicate Unique(order: seq<string>) {
    forall i, j :: 0 <= i < j < |order| ==> order[i] != order[j]
  }

  lemma {:induction false} MintingIsGrounded(urls: Urls, suffix: string, targets: Targets, order: seq<string>)
    requires Unique(order)
    ensures Grounded(MintAll(urls, suffix, targets, order), targets, order)
  {
    hide DedupKey, BaseName, MintAll;
    if order == [] {
      NothingMinted(urls, suffix, targets);
    } else {
      var front, last := order[..|order| - 1], order[|order| - 1];
      MintingIsGrounded(urls, suffix, targets, front);
      MintingCovers(urls, suffix, targets, front);
      Step(urls, suffix, targets, order);
      var m := MintAll(urls, suffix, targets, front);
      if Bears(targets, last) {
        GroundedStep(urls, suffix, targets, m, front, order, last);
      } else {
        GroundedInMore(m, targets, front, order);
      }
    }
  }

  lemma GroundedInMore(m: Mints, targets: Targets, front: seq<string>, order: seq<string>)
    requires Grounded(m, targets, front) && forall x :: x in front ==> x in order
    ensures Grounded(m, targets, order)
  {
    forall e | e in m.cloud ensures exists x :: Grounds(m, targets, order, e, x) {
      var x :| Grounds(m, targets, front, e, x);
      assert Grounds(m, targets, order, e, x);
    }
  }

  lemma GroundedStep(urls: Urls, suffix: string, targets: Targets, m: Mints, front: seq<string>, order: seq<string>, last: string)
    requires Covers(m, targets, front) && Grounded(m, targets, front) && Bears(targets, last)
    requires last !in front && forall x :: x in order <==> x in front || x == last
    ensures Grounded(MintOne(urls, suffix, m, last, targets[last].value), targets, order)
  {
    hide DedupKey, BaseName;
    var after := MintOne(urls, suffix, m, last, targets[last].value);
    forall e | e in after.cloud ensures exists x :: Grounds(after, targets, order, e, x) {
      if e in m.cloud && after.cloud[e] == m.cloud[e] {
        var x :| Grounds(m, targets, front, e, x);
        assert Grounds(after, targets, order, e, x);
      } else {
        assert Grounds(after, targets, order, e, last);
      }
    }
  }

  ghost predicate Clashing(m: Mints, targets: Targets, order: seq<string>) {
    exists x, y :: x in order && y in order && Clash(m, targets, x, y)
  }

  /** Replacing an entry always takes it away from a context with another tuple. */
  lemma {:induction false} ClobberingClashes(urls: Urls, suffix: string, targets: Targets, order: seq<string>)
    requires Unique(order)
    ensures MintAll(urls, suffix, targets, order).clobbered ==> Clashing(MintAll(urls, suffix, targets, order), targets, order)
  {
    hide DedupKey, BaseName, MintAll, Clashing;
    if order == [] {
      NothingMinted(urls, suffix, targets);
    } else {
      var front, last := order[..|order| - 1], order[|order| - 1];
      ClobberingClashes(urls, suffix, targets, front);
      MintingIsGrounded(urls, suffix, targets, front);
      MintingCovers(urls, suffix, targets, front);
      Step(urls, suffix, targets, order);
      var m := MintAll(urls, suffix, targets, front);
      if Bears(targets, last) {
        ClashStep(urls, suffix, targets, m, front, last);
        ClashingMonotone(MintAll(urls, suffix, targets, order), targets, front + [last], order);
      } else if m.clobbered {
        ClashingMonotone(m, targets, front, order);
      }
    }
  }

  lemma ClashingMonotone(m: Mints, targets: Targets, part: seq<string>, order: seq<string>)
    requires forall x :: x in part ==> x in order
    ensures Clashing(m, targets, part) ==> Clashing(m, targets, order)
  {
  }

  lemma ClashStep(urls: Urls, suffix: string, targets: Targets, m: Mints, front: seq<string>, last: string)
    requires Covers(m, targets, front) && Grounded(m, targets, front) && last !in front && Bears(targets, last)
    requires m.clobbered ==> Clashing(m, targets, front)
    ensures var after := MintOne(urls, suffix, m, last, targets[last].value);
            after.clobbered ==> Clashing(after, targets, front + [last])
  {
    hide DedupKey, BaseName;
    var after := MintOne(urls, suffix, m, last, targets[last].value);
    if m.clobbered {
      var x, y :| x in front && y in front && Clash(m, targets, x, y);
      assert Clash(after, targets, x, y) && x in front + [last] && y in front + [last];
    } else if after.clobbered {
      var x :| Grounds(m, targets, front, after.given[last], x);
      assert Clash(after, targets, x, last) && x in front + [last] && last in front + [last];
    }
  }

  lemma ClashIsUnfaithful(m: Mints, targets: Targets, order: seq<string>, x: string, y: string)
    requires x in order && y in order && Clash(m, targets, x, y)
    ensures !Faithful(m, targets, order)
  {
    assert !(Found(m, targets, x) && Found(m, targets, y));
  }

  lemma FaithfulWithout(m: Mints, targets: Targets, order: seq<string>)
    requires Covers(m, targets, order) && Remembers(m) && Grounded(m, targets, order)
    requires !m.clobbered && Distinguished(targets, order)
    ensures Faithful(m, targets, order)
  {
    hide DedupKey;
    forall x | x in order ensures Found(m, targets, x) {
      if Bears(targets, x) {
        var y :| Grounds(m, targets, order, m.given[x], y);
      }
    }
  }

  lemma ConfusionClashes(m: Mints, targets: Targets, order: seq<string>)
    requires Covers(m, targets, order) && !Distinguished(targets, order)
    ensures Clashing(m, targets, order)
  {
    hide DedupKey;
    var x, y :| x in order && y in order && Bears(targets, x) && Bears(targets, y)
      && DedupKey(targets[x].value) == DedupKey(targets[y].value) && targets[x] != targets[y];
    assert Clash(m, targets, x, y);
  }

  // ----- The names, from the input alone -----

  /** The context at `i` is the first to bear its tuple. */
  ghost predicate First(targets: Targets, order: seq<string>, i: nat) {
    && i < |order| && Bears(targets, order[i])
    && forall j :: 0 <= j < i && Bears(targets, order[j]) ==> DedupKey(targets[order[j]].value) != DedupKey(targets[order[i]].value)
  }

  function Host(urls: Urls, suffix: string, targets: Targets, order: seq<string>, i: nat): string
    requires i < |order|
  {
    if Bears(targets, order[i]) then BaseName(urls, suffix, targets[order[i]].value) else ""
  }

  function Second(urls: Urls, suffix: string, targets: Targets, order: seq<string>, i: nat): string
    requires i < |order|
  {
    Host(urls, suffix, targets, order, i) + "-" + order[i]
  }

  /** Some context before `i` goes by the name: under its host's name, or displaced. */
  ghost predicate Taken(urls: Urls, suffix: string, targets: Targets, order: seq<string>, i: nat, name: string)
    requires i <= |order|
    decreases i, 0
  {
    exists j :: 0 <= j < i && Takes(urls, suffix, targets, order, j, name)
  }

  ghost predicate Takes(urls: Urls, suffix: string, targets: Targets, order: seq<string>, j: nat, name: string)
    requires j < |order|
    decreases j, 2
  {
    First(targets, order, j)
    && (name == Host(urls, suffix, targets, order, j)
        || (Displaced(urls, suffix, targets, order, j) && name == Second(urls, suffix, targets, order, j)))
  }

  /** The name of its host is taken, so the context goes by its second candidate. */
  ghost predicate Displaced(urls: Urls, suffix: string, targets: Targets, order: seq<string>, j: nat)
    requires j < |order|
    decreases j, 1
  {
    First(targets, order, j) && Taken(urls, suffix, targets, order, j, Host(urls, suffix, targets, order, j))
  }

  /** The second candidate is taken too: somebody's entry is replaced. */
  ghost predicate Replaces(urls: Urls, suffix: string, targets: Targets, order: seq<string>, j: nat)
    requires j < |order|
  {
    Displaced(urls, suffix, targets, order, j) && Taken(urls, suffix, targets, order, j, Second(urls, suffix, targets, order, j))
  }

  ghost predicate NothingReplaced(urls: Urls, suffix: string, targets: Targets, order: seq<string>) {
    forall j :: 0 <= j < |order| ==> !Replaces(urls, suffix, targets, order, j)
  }

  /** The name of the entry that the context at `j` brings. */
  ghost function NameOf(urls: Urls, suffix: string, targets: Targets, order: seq<string>, j: nat): string
    requires j < |order|
  {
    if Displaced(urls, suffix, targets, order, j) then Second(urls, suffix, targets, order, j) else Host(urls, suffix, targets, order, j)
  }

  /** What the names alone say about the entries minted so far. */
  ghost predicate Predicted(urls: Urls, suffix: string, targets: Targets, order: seq<string>, i: nat, m: Mints)
    requires i <= |order|
  {
    && (forall e :: e in m.cloud <==> Taken(urls, suffix, targets, order, i, e))
    && (forall k :: k in m.names <==> KeysBefore(targets, order, i, k))
    && (m.clobbered <==> ReplacedBefore(urls, suffix, targets, order, i))
    && (forall j :: 0 <= j < i && First(targets, order, j) ==> GoesBy(urls, suffix, targets, order, j, m))
  }

  ghost predicate ReplacedBefore(urls: Urls, suffix: string, targets: Targets, order: seq<string>, i: nat)
    requires i <= |order|
  {
    exists j :: 0 <= j < i && Replaces(urls, suffix, targets, order, j)
  }

  ghost predicate GoesBy(urls: Urls, suffix: string, targets: Targets, order: seq<string>, j: nat, m: Mints)
    requires j < |order|
  {
    order[j] in m.given && m.given[order[j]] == NameOf(urls, suffix, targets, order, j)
  }

  lemma TakenByOneMore(urls: Urls, suffix: string, targets: Targets, order: seq<string>, i: nat, name: string)
    requires i < |order|
    ensures Taken(urls, suffix, targets, order, i + 1, name)
            <==> Taken(urls, suffix, targets, order, i, name) || Takes(urls, suffix, targets, order, i, name)
  {
  }

  ghost function After(urls: Urls, suffix: string, targets: Targets, order: seq<string>, i: nat, m: Mints): Mints
    requires i < |order|
  {
    if Bears(targets, order[i]) then MintOne(urls, suffix, m, order[i], targets[order[i]].value) else m
  }

  ghost predicate KeysBefore(targets: Targets, order: seq<string>, i: nat, k: string)
    requires i <= |order|
  {
    exists j :: 0 <= j < i && Bears(targets, order[j]) && DedupKey(targets[order[j]].value) == k
  }

  lemma KeysOneMore(targets: Targets, order: seq<string>, i: nat, k: string)
    requires i < |order|
    ensures KeysBefore(targets, order, i + 1, k)
            <==> KeysBefore(targets, order, i, k) || (Bears(targets, order[i]) && DedupKey(targets[order[i]].value) == k)
  {
  }

  lemma FirstIsNew(targets: Targets, order: seq<string>, i: nat)
    requires i < |order|
    ensures First(targets, order, i) <==> Bears(targets, order[i]) && !KeysBefore(targets, order, i, DedupKey(targets[order[i]].value))
  {
    hide DedupKey;
  }

  lemma PredictedNames(urls: Urls, suffix: string, targets: Targets, order: seq<string>, i: nat, m: Mints)
    requires i < |order| && Predicted(urls, suffix, targets, order, i, m)
    ensures First(targets, order, i) <==> Bears(targets, order[i]) && DedupKey(targets[order[i]].value) !in m.names
    ensures First(targets, order, i) ==>
              var name := NameOf(urls, suffix, targets, order, i);
              After(urls, suffix, targets, order, i, m)
              == Mints(m.cloud[name := targets[order[i]].value], m.names[DedupKey(targets[order[i]].value) := name],
                       m.given[order[i] := name], m.clobbered || Replaces(urls, suffix, targets, order, i))
    ensures !First(targets, order, i) ==>
              var after := After(urls, suffix, targets, order, i, m);
              && after.cloud == m.cloud && after.names == m.names && after.clobbered == m.clobbered
              && (forall x :: x != order[i] ==> (x in after.given <==> x in m.given) && (x in m.given ==> after.given[x] == m.given[x]))
  {
    hide DedupKey, BaseName, Taken, KeysBefore;
    FirstIsNew(targets, order, i);
  }

  lemma ReplacedOneMore(urls: Urls, suffix: string, targets: Targets, order: seq<string>, i: nat)
    requires i < |order|
    ensures ReplacedBefore(urls, suffix, targets, order, i + 1)
            <==> ReplacedBefore(urls, suffix, targets, order, i) || Replaces(urls, suffix, targets, order, i)
  {
    hide Replaces;
  }

  lemma TakesItsName(urls: Urls, suffix: string, targets: Targets, order: seq<string>, i: nat, e: string)
    requires i < |order| && First(targets, order, i)
    ensures Taken(urls, suffix, targets, order, i + 1, e)
            <==> Taken(urls, suffix, targets, order, i, e) || e == NameOf(urls, suffix, targets, order, i)
  {
    hide Taken, Host, Second;
    TakenByOneMore(urls, suffix, targets, order, i, e);
  }

  lemma PredictedStep(urls: Urls, suffix: string, targets: Targets, order: seq<string>, i: nat, m: Mints)
    requires i < |order| && Unique(order) && Predicted(urls, suffix, targets, order, i, m)
    ensures Predicted(urls, suffix, targets, order, i + 1, After(urls, suffix, targets, order, i, m))
  {
    PredictedNames(urls, suffix, targets, order, i, m);
    hide DedupKey, NameOf, Takes, Taken, KeysBefore, First, After, Replaces, ReplacedBefore, Displaced;
    var after := After(urls, suffix, targets, order, i, m);
    ReplacedOneMore(urls, suffix, targets, order, i);
    forall e ensures e in after.cloud <==> Taken(urls, suffix, targets, order, i + 1, e) {
      TakenByOneMore(urls, suffix, targets, order, i, e);
      if First(targets, order, i) {
        TakesItsName(urls, suffix, targets, order, i, e);
      } else {
        OnlyFirstTakes(urls, suffix, targets, order, i, e);
      }
    }
    forall k ensures k in after.names <==> KeysBefore(targets, order, i + 1, k) {
      KeysOneMore(targets, order, i, k);
    }
    OnlyFirstReplaces(urls, suffix, targets, order, i);
    forall j | 0 <= j < i + 1 && First(targets, order, j) ensures GoesBy(urls, suffix, targets, order, j, after) {
      assert j < i ==> GoesBy(urls, suffix, targets, order, j, m) && order[j] != order[i];
    }
  }

  lemma OnlyFirstTakes(urls: Urls, suffix: string, targets: Targets, order: seq<string>, i: nat, e: string)
    requires i < |order| && !First(targets, order, i)
    ensures !Takes(urls, suffix, targets, order, i, e)
  {
  }

  lemma OnlyFirstReplaces(urls: Urls, suffix: string, targets: Targets, order: seq<string>, i: nat)
    requires i < |order|
    ensures Replaces(urls, suffix, targets, order, i) ==> First(targets, order, i)
  {
  }

  lemma {:induction false} NamesArePredicted(urls: Urls, suffix: string, targets: Targets, order: seq<string>, i: nat)
    requires i <= |order| && Unique(order)
    ensures Predicted(urls, suffix, targets, order, i, MintAll(urls, suffix, targets, order[..i]))
  {
    hide MintOne, Predicted;
    if i == 0 {
      NothingPredicted(urls, suffix, targets, order);
    } else {
      NamesArePredicted(urls, suffix, targets, order, i - 1);
      assert order[..i][..i - 1] == order[..i - 1];
      Step(urls, suffix, targets, order[..i]);
      PredictedStep(urls, suffix, targets, order, i - 1, MintAll(urls, suffix, targets, order[..i - 1]));
    }
  }

  lemma NothingPredicted(urls: Urls, suffix: string, targets: Targets, order: seq<string>)
    ensures Predicted(urls, suffix, targets, order, 0, MintAll(urls, suffix, targets, order[..0]))
  {
  }

  /** An entry is replaced exactly when the names of the input say so. */
  lemma ClobberedExactly(urls: Urls, suffix: string, targets: Targets, order: seq<string>)
    requires Unique(order)
    ensures MintAll(urls, suffix, targets, order).clobbered <==> !NothingReplaced(urls, suffix, targets, order)
  {
    hide Replaces, MintAll;
    NamesArePredicted(urls, suffix, targets, order, |order|);
    assert order[..|order|] == order;
  }

  /** Conversion keeps every context's cloud tuple exactly when no context's second
      candidate is taken and no two tuples share a key. */
  lemma FaithfulExactly(urls: Urls, suffix: string, targets: Targets, order: seq<string>)
    requires Unique(order)
    ensures var m := MintAll(urls, suffix, targets, order);
            Faithful(m, targets, order) <==> NothingReplaced(urls, suffix, targets, order) && Distinguished(targets, order)
  {
    ClobberedExactly(urls, suffix, targets, order);
    hide MintAll, NothingReplaced, Distinguished, Covers, Remembers, Grounded, Faithful;
    var m := MintAll(urls, suffix, targets, order);
    MintingCovers(urls, suffix, targets, order);
    MintingRemembers(urls, suffix, targets, order);
    MintingIsGrounded(urls, suffix, targets, order);
    ClobberingClashes(urls, suffix, targets, order);
    if !m.clobbered && Distinguished(targets, order) {
      FaithfulWithout(m, targets, order);
    } else {
      if !m.clobbered {
        ConfusionClashes(m, targets, order);
      }
      var x, y :| x in order && y in order && Clash(m, targets, x, y);
      ClashIsUnfaithful(m, targets, order, x, y);
    }
  }

  /** The context at `p` brings an entry under the name `e`. */
  ghost predicate Brings(urls: Urls, suffix: string, targets: Targets, order: seq<string>, p: int, e: string) {
    0 <= p < |order| && First(targets, order, p) && NameOf(urls, suffix, targets, order, p) == e
  }

  ghost predicate Brought(urls: Urls, suffix: string, targets: Targets, order: seq<string>, e: string) {
    exists p :: Brings(urls, suffix, targets, order, p, e)
  }

  lemma FirstBearer(targets: Targets, order: seq<string>, i: nat) returns (p: nat)
    requires i < |order| && Bears(targets, order[i])
    ensures p <= i && First(targets, order, p) && DedupKey(targets[order[p]].value) == DedupKey(targets[order[i]].value)
  {
    hide DedupKey;
    if j :| 0 <= j < i && Bears(targets, order[j]) && DedupKey(targets[order[j]].value) == DedupKey(targets[order[i]].value) {
      p := FirstBearer(targets, order, j);
    } else {
      p := i;
    }
  }

  /** When nothing is replaced or confused, the minted entries are exactly the ones the
      first bearers bring, under the names the input gives them. */
  lemma BroughtExactly(urls: Urls, suffix: string, targets: Targets, order: seq<string>)
    requires Unique(order) && NothingReplaced(urls, suffix, targets, order) && Distinguished(targets, order)
    ensures forall e :: e in MintAll(urls, suffix, targets, order).cloud ==> Brought(urls, suffix, targets, order, e)
    ensures forall p, e :: Brings(urls, suffix, targets, order, p, e) ==>
              var cloud := MintAll(urls, suffix, targets, order).cloud;
              e in cloud && Some(cloud[e]) == targets[order[p]]
  {
    var m := MintAll(urls, suffix, targets, order);
    FaithfulExactly(urls, suffix, targets, order);
    MintingCovers(urls, suffix, targets, order);
    MintingIsGrounded(urls, suffix, targets, order);
    NamesArePredicted(urls, suffix, targets, order, |order|);
    assert order[..|order|] == order;
    hide MintAll, DedupKey, NameOf, NothingReplaced, Distinguished, Taken, ReplacedBefore, KeysBefore;
    forall p, e | Brings(urls, suffix, targets, order, p, e) ensures e in m.cloud && Some(m.cloud[e]) == targets[order[p]] {
      assert GoesBy(urls, suffix, targets, order, p, m);
      assert Found(m, targets, order[p]);
    }
    forall e | e in m.cloud ensures Brought(urls, suffix, targets, order, e) {
      var x :| Grounds(m, targets, order, e, x);
      var i :| 0 <= i < |order| && order[i] == x;
      var p := FirstBearer(targets, order, i);
      assert GoesBy(urls, suffix, targets, order, p, m);
      assert Brings(urls, suffix, targets, order, p, e);
    }
  }

  /** Of the contexts before `i`, `q` is the last to bring an entry under the name. */
  ghost predicate BringsLast(urls: Urls, suffix: string, targets: Targets, order: seq<string>, i: nat, q: int, e: string)
    requires i <= |order|
  {
    q < i && Brings(urls, suffix, targets, order, q, e) && forall r :: q < r < i ==> !Brings(urls, suffix, targets, order, r, e)
  }

  ghost predicate BroughtBefore(urls: Urls, suffix: string, targets: Targets, order: seq<string>, i: nat, e: string)
    requires i <= |order|
  {
    exists q :: BringsLast(urls, suffix, targets, order, i, q, e)
  }

  /** Each entry holds the tuple of the last context that brought it. */
  ghost predicate LastWins(urls: Urls, suffix: string, targets: Targets, order: seq<string>, i: nat, cloud: map<string, Target>)
    requires i <= |order|
  {
    && (forall e :: e in cloud ==> BroughtBefore(urls, suffix, targets, order, i, e))
    && (forall q, e :: BringsLast(urls, suffix, targets, order, i, q, e) ==> e in cloud && Some(cloud[e]) == targets[order[q]])
  }

  lemma BringsOneMore(urls: Urls, suffix: string, targets: Targets, order: seq<string>, i: nat, q: int, e: string)
    requires i < |order|
    ensures BringsLast(urls, suffix, targets, order, i + 1, q, e)
            <==> if q == i then Brings(urls, suffix, targets, order, i, e)
                 else BringsLast(urls, suffix, targets, order, i, q, e) && !Brings(urls, suffix, targets, order, i, e)
  {
    hide Brings;
  }

  lemma LastWinsStep(urls: Urls, suffix: string, targets: Targets, order: seq<string>, i: nat, m: Mints)
    requires i < |order| && Unique(order) && Predicted(urls, suffix, targets, order, i, m)
    requires LastWins(urls, suffix, targets, order, i, m.cloud)
    ensures LastWins(urls, suffix, targets, order, i + 1, After(urls, suffix, targets, order, i, m).cloud)
  {
    PredictedNames(urls, suffix, targets, order, i, m);
    var after := After(urls, suffix, targets, order, i, m);
    assert forall e :: Brings(urls, suffix, targets, order, i, e) <==> First(targets, order, i) && e == NameOf(urls, suffix, targets, order, i);
    assert First(targets, order, i) ==> Bears(targets, order[i]);
    hide DedupKey, NameOf, First, After, Replaces, Predicted, BringsLast, Brings;
    forall q, e | BringsLast(urls, suffix, targets, order, i + 1, q, e) ensures e in after.cloud && Some(after.cloud[e]) == targets[order[q]] {
      BringsOneMore(urls, suffix, targets, order, i, q, e);
    }
    forall e | e in after.cloud ensures BroughtBefore(urls, suffix, targets, order, i + 1, e) {
      BringsOneMore(urls, suffix, targets, order, i, i, e);
      if !Brings(urls, suffix, targets, order, i, e) {
        var q :| BringsLast(urls, suffix, targets, order, i, q, e);
        LastIsBefore(urls, suffix, targets, order, i, q, e);
        BringsOneMore(urls, suffix, targets, order, i, q, e);
      }
    }
  }

  lemma LastIsBefore(urls: Urls, suffix: string, targets: Targets, order: seq<string>, i: nat, q: int, e: string)
    requires i <= |order| && BringsLast(urls, suffix, targets, order, i, q, e)
    ensures 0 <= q < i && Bears(targets, order[q])
  {
  }

  lemma {:induction false} LastAlwaysWins(urls: Urls, suffix: string, targets: Targets, order: seq<string>, i: nat)
    requires i <= |order| && Unique(order)
    ensures LastWins(urls, suffix, targets, order, i, MintAll(urls, suffix, targets, order[..i]).cloud)
  {
    hide MintOne, Predicted, LastWins, NameOf, First;
    if i == 0 {
      NothingBrought(urls, suffix, targets, order);
    } else {
      LastAlwaysWins(urls, suffix, targets, order, i - 1);
      NamesArePredicted(urls, suffix, targets, order, i - 1);
      assert order[..i][..i - 1] == order[..i - 1];
      Step(urls, suffix, targets, order[..i]);
      LastWinsStep(urls, suffix, targets, order, i - 1, MintAll(urls, suffix, targets, order[..i - 1]));
    }
  }

  lemma NothingBrought(urls: Urls, suffix: string, targets: Targets, order: seq<string>)
    ensures LastWins(urls, suffix, targets, order, 0, MintAll(urls, suffix, targets, order[..0]).cloud)
  {
  }

  /** `p` is the first to bear the tuple of the context at `i`. */
  ghost predicate SharesFirst(targets: Targets, order: seq<string>, i: int, p: int) {
    && 0 <= p <= i < |order| && Bears(targets, order[i]) && First(targets, order, p)
    && DedupKey(targets[order[p]].value) == DedupKey(targets[order[i]].value)
  }

  /** What each context finds after any run of minting, from the names alone: the entry
      that its tuple's first bearer brought, with the tuple of the last who brought it. */
  lemma FoundExactly(urls: Urls, suffix: string, targets: Targets, order: seq<string>, i: int, p: int)
    requires Unique(order) && SharesFirst(targets, order, i, p)
    ensures var m, e := MintAll(urls, suffix, targets, order), NameOf(urls, suffix, targets, order, p);
            && order[i] in m.given && m.given[order[i]] == e && e in m.cloud
            && e in {urls.entryName(targets[order[p]].value.apiUrl) + suffix,
                     urls.entryName(targets[order[p]].value.apiUrl) + suffix + "-" + order[p]}
            && BroughtBefore(urls, suffix, targets, order, |order|, e)
            && (forall q :: BringsLast(urls, suffix, targets, order, |order|, q, e) ==> Some(m.cloud[e]) == targets[order[q]])
  {
    var m := MintAll(urls, suffix, targets, order);
    MintingCovers(urls, suffix, targets, order);
    NamesArePredicted(urls, suffix, targets, order, |order|);
    LastAlwaysWins(urls, suffix, targets, order, |order|);
    assert order[..|order|] == order;
    assert Bears(targets, order[p]);
    assert NameOf(urls, suffix, targets, order, p)
        in {urls.entryName(targets[order[p]].value.apiUrl) + suffix, urls.entryName(targets[order[p]].value.apiUrl) + suffix + "-" + order[p]};
    hide MintAll, DedupKey, NameOf, First, Taken, KeysBefore, ReplacedBefore, BringsLast;
    assert GoesBy(urls, suffix, targets, order, p, m);
  }

  /** Tuples without NUL characters are never taken for one another. */
  lemma NulFreeIsDistinguished(targets: Targets, order: seq<string>)
    requires forall x | x in order && Bears(targets, x) :: NulFree(targets[x].value.token) && NulFree(targets[x].value.apiUrl)
    ensures Distinguished(targets, order)
  {
    forall x, y | x in order && y in order && Bears(targets, x) && Bears(targets, y)
      && DedupKey(targets[x].value) == DedupKey(targets[y].value)
      ensures targets[x] == targets[y]
    {
      var s, t := targets[x].value, targets[y].value;
      assert DedupKey(s) == s.token + "\0" + (s.apiUrl + "\0" + s.oauthUrl);
      assert DedupKey(t) == t.token + "\0" + (t.apiUrl + "\0" + t.oauthUrl);
      SamePrefix(s.token, t.token, s.apiUrl + "\0" + s.oauthUrl, t.apiUrl + "\0" + t.oauthUrl);
      SamePrefix(s.apiUrl, t.apiUrl, s.oauthUrl, t.oauthUrl);
    }
  }

  /** A check on the names alone that rules replacement out: no second candidate is
      a host name or another context's second candidate. */
  ghost predicate NamesApart(urls: Urls, suffix: string, targets: Targets, order: seq<string>) {
    forall x, y :: x in order && y in order && Bears(targets, x) && Bears(targets, y) ==>
      var second := BaseName(urls, suffix, targets[x].value) + "-" + x;
      && second != BaseName(urls, suffix, targets[y].value)
      && (x != y ==> second != BaseName(urls, suffix, targets[y].value) + "-" + y)
  }

  predicate Named(urls: Urls, suffix: string, targets: Targets, x: string, e: string) {
    Bears(targets, x) && (e == BaseName(urls, suffix, targets[x].value) || e == BaseName(urls, suffix, targets[x].value) + "-" + x)
  }

  lemma {:induction false} NamesApartIsSafe(urls: Urls, suffix: string, targets: Targets, order: seq<string>)
    requires Unique(order) && NamesApart(urls, suffix, targets, order)
    ensures var m := MintAll(urls, suffix, targets, order);
            !m.clobbered && forall e :: e in m.cloud ==> exists x :: x in order && Named(urls, suffix, targets, x, e)
  {
    if order != [] {
      var front, last := order[..|order| - 1], order[|order| - 1];
      assert order == front + [last] && last !in front;
      NamesApartIsSafe(urls, suffix, targets, front);
      var m, after := MintAll(urls, suffix, targets, front), MintAll(urls, suffix, targets, order);
      forall e | e in after.cloud ensures exists x :: x in order && Named(urls, suffix, targets, x, e) {
        if e in m.cloud {
          var x :| x in front && Named(urls, suffix, targets, x, e);
          assert x in order;
        } else {
          assert Named(urls, suffix, targets, last, e);
        }
      }
    }
  }

  lemma TokensTellKeysApart(s: Target, t: Target)
    requires s.token != "" && t.token != "" && s.token[0] != t.token[0]
    ensures DedupKey(s) != DedupKey(t)
  {
    assert DedupKey(s)[0] == s.token[0] && DedupKey(t)[0] == t.token[0];
  }

  /** A context with a new tuple, under its host's name or else its own. */
  lemma MintsNew(urls: Urls, suffix: string, m: Mints, context: string, t: Target, name: string)
    requires DedupKey(t) !in m.names
    requires name == if BaseName(urls, suffix, t) in m.cloud then BaseName(urls, suffix, t) + "-" + context else BaseName(urls, suffix, t)
    ensures MintOne(urls, suffix, m, context, t)
            == Mints(m.cloud[name := t], m.names[DedupKey(t) := name], m.given[context := name], m.clobbered || name in m.cloud)
  {
  }

  /** The second candidate of `z` is the name of the entry of `x`, which is lost. */
  lemma ThirdTakesFirst(urls: Urls, targets: Targets, x: string, y: string, z: string, own: string, host: string)
    requires Bears(targets, x) && Bears(targets, y) && Bears(targets, z) && x != y && y != z && x != z && own != host
    requires DedupKey(targets[x].value) != DedupKey(targets[y].value) && DedupKey(targets[y].value) != DedupKey(targets[z].value)
    requires DedupKey(targets[x].value) != DedupKey(targets[z].value)
    requires BaseName(urls, "", targets[x].value) == own == host + "-" + z
    requires BaseName(urls, "", targets[y].value) == host == BaseName(urls, "", targets[z].value)
    ensures var m := MintAll(urls, "", targets, [x, y, z]);
            && m.clobbered && m.cloud == map[own := targets[z].value, host := targets[y].value]
            && m.given == map[x := own, y := host, z := own]
  {
    hide DedupKey, BaseName, MintAll, MintOne;
    NothingMinted(urls, "", targets);
    assert [x, y, z][..2] == [x, y] && [x, y][..1] == [x] && [x][..0] == [];
    Step(urls, "", targets, [x]);
    MintsNew(urls, "", START, x, targets[x].value, own);
    Step(urls, "", targets, [x, y]);
    MintsNew(urls, "", MintAll(urls, "", targets, [x]), y, targets[y].value, host);
    Step(urls, "", targets, [x, y, z]);
    MintsNew(urls, "", MintAll(urls, "", targets, [x, y]), z, targets[z].value, own);
  }

  /** Three contexts of which the first loses its credential to the third. */
  lemma CollisionExists(urls: Urls)
    requires urls.entryName("https://grafana.com") == "grafana-com"
    requires urls.entryName("https://grafana.com.c") == "grafana-com-c"
    ensures var a := Target("first", "https://grafana.com.c", "https://grafana.com.c");
            var b := Target("second", "https://grafana.com", "https://grafana.com");
            var c := Target("third", "https://grafana.com", "https://grafana.com");
            var targets := map["a" := Some(a), "b" := Some(b), "c" := Some(c)];
            var m := MintAll(urls, "", targets, ["a", "b", "c"]);
            && m.clobbered && m.cloud == map["grafana-com-c" := c, "grafana-com" := b]
            && m.given == map["a" := "grafana-com-c", "b" := "grafana-com", "c" := "grafana-com-c"]
  {
    var a := Target("first", "https://grafana.com.c", "https://grafana.com.c");
    var b := Target("second", "https://grafana.com", "https://grafana.com");
    var c := Target("third", "https://grafana.com", "https://grafana.com");
    TokensTellKeysApart(a, b);
    TokensTellKeysApart(a, c);
    TokensTellKeysApart(b, c);
    assert BaseName(urls, "", a) == "grafana-com-c" && BaseName(urls, "", b) == "grafana-com" == BaseName(urls, "", c);
    hide DedupKey, BaseName, MintAll;
    ThirdTakesFirst(urls, map["a" := Some(a), "b" := Some(b), "c" := Some(c)], "a", "b", "c", "grafana-com-c", "grafana-com");
  }

  /** Three contexts of one host, each with its own name. */
  lemma MergedTargetsAreClean(urls: Urls)
    requires urls.entryName("https://grafana.com") == "grafana-com"
    ensures var a := Target("first", "https://grafana.com", "https://grafana.com");
            var b := Target("second", "https://grafana.com", "https://grafana.com");
            var c := Target("third", "https://grafana.com", "https://grafana.com");
            !MintAll(urls, "", map["a" := Some(a), "local" := Some(b), "x" := Some(c)], ["a", "local", "x"]).clobbered
  {
    var a := Target("first", "https://grafana.com", "https://grafana.com");
    var b := Target("second", "https://grafana.com", "https://grafana.com");
    var c := Target("third", "https://grafana.com", "https://grafana.com");
    TokensTellKeysApart(a, b);
    TokensTellKeysApart(a, c);
    TokensTellKeysApart(b, c);
    assert BaseName(urls, "", a) == "grafana-com" == BaseName(urls, "", b) == BaseName(urls, "", c);
    hide DedupKey, BaseName, MintAll;
    SuffixedNamesDiffer(urls, map["a" := Some(a), "local" := Some(b), "x" := Some(c)], "a", "local", "x", "grafana-com");
  }

  lemma SuffixedNamesDiffer(urls: Urls, targets: Targets, x: string, y: string, z: string, host: string)
    requires Bears(targets, x) && Bears(targets, y) && Bears(targets, z) && x != y && y != z && x != z && |y| > |z|
    requires DedupKey(targets[x].value) != DedupKey(targets[y].value) && DedupKey(targets[y].value) != DedupKey(targets[z].value)
    requires DedupKey(targets[x].value) != DedupKey(targets[z].value)
    requires BaseName(urls, "", targets[x].value) == host == BaseName(urls, "", targets[y].value) == BaseName(urls, "", targets[z].value)
    ensures !MintAll(urls, "", targets, [x, y, z]).clobbered
  {
    hide DedupKey, BaseName, MintAll, MintOne;
    NothingMinted(urls, "", targets);
    assert [x, y, z][..2] == [x, y] && [x, y][..1] == [x] && [x][..0] == [];
    Step(urls, "", targets, [x]);
    MintsNew(urls, "", START, x, targets[x].value, host);
    Step(urls, "", targets, [x, y]);
    MintsNew(urls, "", MintAll(urls, "", targets, [x]), y, targets[y].value, host + "-" + y);
    Step(urls, "", targets, [x, y, z]);
    assert |host + "-" + y| > |host + "-" + z| > |host|;
    MintsNew(urls, "", MintAll(urls, "", targets, [x, y]), z, targets[z].value, host + "-" + z);
  }

  /** The layer suffix does not keep layers apart: a context called "local" in one
      layer mints the name another layer's host gets. */
  lemma SuffixesCollide(urls: Urls)
    requires urls.entryName("https://grafana.com") == "grafana-com"
    ensures var a := Target("first", "https://grafana.com", "https://grafana.com");
            var b := Target("second", "https://grafana.com", "https://grafana.com");
            var c := Target("third", "https://grafana.com", "https://grafana.com");
            var user := MintAll(urls, "", map["a" := Some(a), "local" := Some(b)], ["a", "local"]);
            var repository := MintAll(urls, "-local", map["x" := Some(c)], ["x"]);
            && !user.clobbered && !repository.clobbered
            && user.cloud == map["grafana-com" := a, "grafana-com-local" := b] && repository.cloud == map["grafana-com-local" := c]
  {
    var a := Target("first", "https://grafana.com", "https://grafana.com");
    var b := Target("second", "https://grafana.com", "https://grafana.com");
    var c := Target("third", "https://grafana.com", "https://grafana.com");
    TokensTellKeysApart(a, b);
    assert BaseName(urls, "", a) == "grafana-com" == BaseName(urls, "", b) && BaseName(urls, "-local", c) == "grafana-com-local";
    assert "grafana-com" + "-" + "local" == "grafana-com-local";
    hide DedupKey, BaseName, MintAll;
    var targets := map["a" := Some(a), "local" := Some(b)];
    NothingMinted(urls, "", targets);
    NothingMinted(urls, "-local", map["x" := Some(c)]);
    Step(urls, "", targets, ["a"]);
    Step(urls, "", targets, ["a", "local"]);
    Step(urls, "-local", map["x" := Some(c)], ["x"]);
    assert ["a", "local"][..1] == ["a"] && ["a"][..0] == [] && ["x"][..0] == [];
  }
}
