/**
 * When a migration settles (packages/cli/src/plan.ts): after how many rounds
 * of plan and apply the plan writes nothing, and when it never does. The
 * target keeps second keys unique, and so a round leaves them.
 */
module Settling {
  import opened Common
  import opened Matching
  import opened Clash

  /** No two rows share a second key. */
  ghost predicate AliasesApart<S, R>(k: Kind<S, R>, rows: seq<R>) {
    forall x: nat, y: nat | x < y < |rows| && k.rowAlias(rows[x]).Some? :: k.rowAlias(rows[x]) != k.rowAlias(rows[y])
  }

  /**
   * The pair shares row t, both have a second key, and no row before it that no
   * source row matches bears the one's name.
   */
  ghost predicate Stuck<S, R>(k: Kind<S, R>, rows: seq<R>, source: seq<S>, i: nat, j: nat, t: nat) {
    && Shares(k, rows, source, i, j, t) && k.alias(source[j]).Some?
    && NoFreeNameBefore(k, rows, source, k.name(source[i]), t)
  }

  ghost predicate HasStuck<S, R>(k: Kind<S, R>, rows: seq<R>, source: seq<S>) {
    exists i: nat, j: nat, t: nat :: Stuck(k, rows, source, i, j, t)
  }

  // ---- Second keys stay unique ----

  /** A source row whose second key a row bears lives there. */
  lemma LivesAtAlias<S, R>(k: Kind<S, R>, rows: seq<R>, source: seq<S>, c: nat, x: nat)
    requires AliasesApart(k, rows) && Live(k, source, c) && x < |rows|
    requires k.alias(source[c]).Some? && k.rowAlias(rows[x]) == k.alias(source[c])
    ensures ToRow(k, rows, source, c, x) && LivesAt(k, rows, source, c, x)
  {
    AliasAtMost(k, rows, k.alias(source[c]).value, 0, x);
    HomeIsMatch(k, rows, source, c, x);
  }

  /** After n items, a row bears the second key of a source row that lives there, or the one it had. */
  lemma AliasOrigin<S(!new), R(!new)>(k: Kind<S, R>, rows: seq<R>, source: seq<S>, x: nat, n: nat)
    requires Lawful(k) && Fieldwise(k) && n <= |source|
    requires x < |Applied(k, rows, source, Plan(k, rows, source), n)|
    ensures var now := k.rowAlias(Applied(k, rows, source, Plan(k, rows, source), n)[x]);
            AliasFrom(k, rows, source, x, n, now) || (x < |rows| && now == k.rowAlias(rows[x]))
  {
    if x < |rows| {
      AliasHistory(k, rows, source, x, n);
    } else {
      var plan := Plan(k, rows, source);
      AppliedSize(k, rows, source, n);
      var c := CreatedAt(plan, x - |rows|, n);
      CreatedHolds(k, rows, source, c, n);
      assert plan[c] == Decide(k, rows, source[c]) && Bears(k, source[c], k.make(source[c]));
      assert LivesAt(k, rows, source, c, x);
    }
  }

  /** Where a second key stands after n items: on the row of the source row that has it, if one has. */
  lemma AliasStandsOnce<S(!new), R(!new)>(
    k: Kind<S, R>, rows: seq<R>, source: seq<S>, x: nat, y: nat, n: nat, alias: Option<string>)
    requires Lawful(k) && Fieldwise(k) && KeysApart(k, source) && AliasesApart(k, rows) && alias.Some?
    requires AliasFrom(k, rows, source, x, n, alias) && n <= |source|
    requires AliasFrom(k, rows, source, y, n, alias) || (y < |rows| && k.rowAlias(rows[y]) == alias)
    ensures x == y
  {
    var c: nat :| c < n && LivesAt(k, rows, source, c, x) && k.alias(source[c]) == alias;
    if AliasFrom(k, rows, source, y, n, alias) {
      var d: nat :| d < n && LivesAt(k, rows, source, d, y) && k.alias(source[d]) == alias;
    } else {
      LivesAtAlias(k, rows, source, c, y);
    }
  }

  /** No write of a round gives a row a second key that another row bears. */
  lemma AliasesStayApart<S(!new), R(!new)>(k: Kind<S, R>, rows: seq<R>, source: seq<S>, n: nat)
    requires Lawful(k) && Fieldwise(k) && KeysApart(k, source) && AliasesApart(k, rows) && n <= |source|
    ensures AliasesApart(k, Applied(k, rows, source, Plan(k, rows, source), n))
  {
    var after := Applied(k, rows, source, Plan(k, rows, source), n);
    forall x: nat, y: nat | x < y < |after| && k.rowAlias(after[x]).Some?
      ensures k.rowAlias(after[x]) != k.rowAlias(after[y]) {
      var alias := k.rowAlias(after[x]);
      AliasOrigin(k, rows, source, x, n);
      AliasOrigin(k, rows, source, y, n);
      if alias == k.rowAlias(after[y]) {
        if AliasFrom(k, rows, source, x, n, alias) {
          AliasStandsOnce(k, rows, source, x, y, n, alias);
        } else if AliasFrom(k, rows, source, y, n, alias) {
          AliasStandsOnce(k, rows, source, y, x, n, alias);
        }
      }
    }
  }

  lemma {:induction false} RoundsStayApart<S(!new), R(!new)>(k: Kind<S, R>, rows: seq<R>, source: seq<S>, n: nat)
    requires Lawful(k) && Fieldwise(k) && KeysApart(k, source) && AliasesApart(k, rows)
    ensures AliasesApart(k, Rounds(k, rows, source, n))
  {
    if n > 0 {
      RoundsStayApart(k, rows, source, n - 1);
      AliasesStayApart(k, Rounds(k, rows, source, n - 1), source, |source|);
    }
  }

  // ---- A stuck pair never settles ----

  lemma NoTwinAlias<S, R>(k: Kind<S, R>, rows: seq<R>, source: seq<S>, i: nat, j: nat, t: nat)
    requires AliasesApart(k, rows) && Shares(k, rows, source, i, j, t)
    ensures NoFreeAlias(k, rows, source, k.alias(source[i]))
  {
    forall x: nat | Free(k, rows, source, x) ensures k.rowAlias(rows[x]) != k.alias(source[i]) {
      if k.rowAlias(rows[x]) == k.alias(source[i]) { LivesAtAlias(k, rows, source, i, x); }
    }
  }

  lemma StuckUpdates<S(!new), R(!new)>(k: Kind<S, R>, rows: seq<R>, source: seq<S>, i: nat, j: nat, t: nat, n: nat)
    requires Lawful(k) && Fieldwise(k) && KeysApart(k, source) && AliasesApart(k, rows)
    requires Stuck(k, rows, source, i, j, t)
    ensures BothUpdated(k, rows, source, i, j, t, n)
  {
    if n == 0 {
      BothUpdate(k, rows, source, i, j, t);
    } else {
      NoTwinAlias(k, rows, source, i, j, t);
      FlipsForEverIff(k, rows, source, i, j, t);
    }
  }

  lemma StuckNeverSettles<S(!new), R(!new)>(k: Kind<S, R>, rows: seq<R>, source: seq<S>, n: nat)
    requires Lawful(k) && Fieldwise(k) && KeysApart(k, source) && AliasesApart(k, rows) && HasStuck(k, rows, source)
    ensures !Settled(k, Rounds(k, rows, source, n), source)
  {
    var i: nat, j: nat, t: nat :| Stuck(k, rows, source, i, j, t);
    StuckUpdates(k, rows, source, i, j, t, n);
    NeverSettles(k, rows, source, i, j, t, n);
  }

  // ---- Only a stuck pair shares a row after a round ----

  /** A pair that shares a row after a round shared it before, with its keys the other way round. */
  lemma SharedBefore<S(!new), R(!new)>(k: Kind<S, R>, rows: seq<R>, source: seq<S>, i: nat, j: nat, x: nat)
    requires Lawful(k) && Fieldwise(k) && KeysApart(k, source) && AliasesApart(k, rows)
    requires Shares(k, Round(k, rows, source), source, i, j, x)
    ensures Shares(k, rows, source, j, i, x)
  {
    Owned(k, rows, source, x);
    if Free(k, rows, source, x) {
      LivesAtAlias(k, rows, source, i, x);
    } else {
      var c: nat :| c < |source| && LivesAt(k, rows, source, c, x) && k.name(source[c]) == k.name(source[j]);
      var d: nat :| d < |source| && LivesAt(k, rows, source, d, x) && k.alias(source[d]) == k.alias(source[i]);
      assert c == j && d == i;
      HomesShared(k, rows, source, i, j, x);
      ClashShape(k, rows, source, i, j, x);
      if Shares(k, rows, source, i, j, x) { SharedAfter(k, rows, source, i, j, x); }
    }
  }

  lemma SharedWasStuck<S(!new), R(!new)>(k: Kind<S, R>, rows: seq<R>, source: seq<S>, i: nat, j: nat, x: nat)
    requires Lawful(k) && Fieldwise(k) && KeysApart(k, source) && AliasesApart(k, rows)
    requires Shares(k, Round(k, rows, source), source, i, j, x)
    ensures Stuck(k, rows, source, j, i, x)
  {
    SharedBefore(k, rows, source, i, j, x);
    AliasedFound(k, rows, source, j, i, x);
  }

  /** With no stuck pair, every source row has a target row to itself after a round. */
  lemma ApartAfter<S(!new), R(!new)>(k: Kind<S, R>, rows: seq<R>, source: seq<S>)
    requires Lawful(k) && Fieldwise(k) && KeysApart(k, source) && AliasesApart(k, rows) && !HasStuck(k, rows, source)
    ensures Apart(k, Round(k, rows, source), source)
  {
    var after := Round(k, rows, source);
    forall i: nat, j: nat | i < j < |source| && Live(k, source, i) && Live(k, source, j)
      && Match(k, after, source[i]).Some?
      ensures Match(k, after, source[i]) != Match(k, after, source[j]) {
      var x := Match(k, after, source[i]).value;
      if Match(k, after, source[j]) == Some(x) {
        ClashShape(k, after, source, i, j, x);
        if Shares(k, after, source, i, j, x) {
          SharedWasStuck(k, rows, source, i, j, x);
        } else {
          SharedWasStuck(k, rows, source, j, i, x);
        }
      }
    }
  }

  // ---- When the migration settles ----

  lemma ThreeRounds<S, R>(k: Kind<S, R>, rows: seq<R>, source: seq<S>)
    ensures Rounds(k, rows, source, 3) == Round(k, Round(k, Round(k, rows, source), source), source)
  {
    assert Rounds(k, rows, source, 0) == rows;
    assert Rounds(k, rows, source, 1) == Round(k, rows, source);
    assert Rounds(k, rows, source, 2) == Round(k, Rounds(k, rows, source, 1), source);
  }

  /**
   * With distinct names and second keys, some plan writes nothing if and only
   * if no pair is stuck; the fourth plan is then one, and so are all after it.
   */
  lemma SettlesIff<S(!new), R(!new)>(k: Kind<S, R>, rows: seq<R>, source: seq<S>)
    requires Lawful(k) && Fieldwise(k) && KeysApart(k, source) && AliasesApart(k, rows)
    ensures (exists n: nat :: Settled(k, Rounds(k, rows, source, n), source)) <==> !HasStuck(k, rows, source)
    ensures !HasStuck(k, rows, source) ==> forall n: nat | n >= 3 :: Settled(k, Rounds(k, rows, source, n), source)
  {
    if HasStuck(k, rows, source) {
      forall n: nat ensures !Settled(k, Rounds(k, rows, source, n), source) {
        StuckNeverSettles(k, rows, source, n);
      }
    } else {
      ApartAfter(k, rows, source);
      TwoRoundsSettle(k, Round(k, rows, source), source);
      ThreeRounds(k, rows, source);
      forall n: nat | n >= 3 ensures Settled(k, Rounds(k, rows, source, n), source) {
        SettledFrom(k, rows, source, 3, n);
      }
    }
  }

  lemma {:induction false} SettledFrom<S, R>(k: Kind<S, R>, rows: seq<R>, source: seq<S>, m: nat, n: nat)
    requires m <= n && Settled(k, Rounds(k, rows, source, m), source)
    ensures Settled(k, Rounds(k, rows, source, n), source)
  {
    if m < n {
      SettledFrom(k, rows, source, m, n - 1);
      SettledStays(k, Rounds(k, rows, source, n - 1), source);
    }
  }

  /**
   * Distinct names are needed: two source rows of one name and no second key,
   * which no row carries at once, never settle.
   */
  lemma SameNameNeverSettles<S(!new), R(!new)>(k: Kind<S, R>, rows: seq<R>, source: seq<S>, i: nat, j: nat)
    requires Live(k, source, i) && Live(k, source, j) && k.alias(source[i]).None? && k.alias(source[j]).None?
    requires k.name(source[i]) == k.name(source[j]) && forall r :: k.differs(source[i], r) || k.differs(source[j], r)
    ensures !Settled(k, rows, source)
  {
    assert Plan(k, rows, source)[i] == Decide(k, rows, source[i]);
    assert Plan(k, rows, source)[j] == Decide(k, rows, source[j]);
  }

  // ---- What becomes of a pair that shares a row ----

  ghost predicate Together<S, R>(k: Kind<S, R>, rows: seq<R>, source: seq<S>, i: nat, j: nat) {
    exists x: nat :: ToRow(k, rows, source, i, x) && ToRow(k, rows, source, j, x)
  }

  /** Two source rows on one target row after a round were a stuck pair before it. */
  lemma TogetherWasStuck<S(!new), R(!new)>(k: Kind<S, R>, rows: seq<R>, source: seq<S>, i: nat, j: nat)
    requires Lawful(k) && Fieldwise(k) && KeysApart(k, source) && AliasesApart(k, rows) && i != j
    requires Together(k, Round(k, rows, source), source, i, j)
    ensures exists x: nat :: Stuck(k, rows, source, i, j, x) || Stuck(k, rows, source, j, i, x)
  {
    var after := Round(k, rows, source);
    var x: nat :| ToRow(k, after, source, i, x) && ToRow(k, after, source, j, x);
    ClashShape(k, after, source, i, j, x);
    if Shares(k, after, source, i, j, x) {
      SharedWasStuck(k, rows, source, i, j, x);
    } else {
      SharedWasStuck(k, rows, source, j, i, x);
    }
  }

  lemma StuckOneWay<S, R>(k: Kind<S, R>, rows: seq<R>, source: seq<S>, i: nat, j: nat, t: nat)
    requires KeysApart(k, source) && Shares(k, rows, source, i, j, t)
    requires exists x: nat :: Stuck(k, rows, source, i, j, x) || Stuck(k, rows, source, j, i, x)
    ensures Stuck(k, rows, source, i, j, t)
  {
    var x: nat :| Stuck(k, rows, source, i, j, x) || Stuck(k, rows, source, j, i, x);
    assert ToRow(k, rows, source, i, x) && ToRow(k, rows, source, i, t);
  }

  lemma {:induction false} TogetherStuck<S(!new), R(!new)>(
    k: Kind<S, R>, rows: seq<R>, source: seq<S>, i: nat, j: nat, t: nat, n: nat)
    requires Lawful(k) && Fieldwise(k) && KeysApart(k, source) && AliasesApart(k, rows)
    requires Shares(k, rows, source, i, j, t) && n > 0 && Together(k, Rounds(k, rows, source, n), source, i, j)
    ensures Stuck(k, rows, source, i, j, t)
  {
    var was := Rounds(k, rows, source, n - 1);
    RoundsStayApart(k, rows, source, n - 1);
    TogetherWasStuck(k, was, source, i, j);
    if n == 1 {
      StuckOneWay(k, rows, source, i, j, t);
    } else {
      var x: nat :| Stuck(k, was, source, i, j, x) || Stuck(k, was, source, j, i, x);
      assert ToRow(k, was, source, i, x) && ToRow(k, was, source, j, x);
      TogetherStuck(k, rows, source, i, j, t, n - 1);
    }
  }

  /** After every later round a pair that shares a row shares one again if it is stuck, and never does if it is not. */
  lemma TogetherIff<S(!new), R(!new)>(k: Kind<S, R>, rows: seq<R>, source: seq<S>, i: nat, j: nat, t: nat, n: nat)
    requires Lawful(k) && Fieldwise(k) && KeysApart(k, source) && AliasesApart(k, rows)
    requires Shares(k, rows, source, i, j, t) && n > 0
    ensures Together(k, Rounds(k, rows, source, n), source, i, j) <==> Stuck(k, rows, source, i, j, t)
  {
    var now := Rounds(k, rows, source, n);
    if Stuck(k, rows, source, i, j, t) {
      StuckUpdates(k, rows, source, i, j, t, n);
      HomeIsMatch(k, now, source, i, t);
      HomeIsMatch(k, now, source, j, t);
    } else if Together(k, now, source, i, j) {
      TogetherStuck(k, rows, source, i, j, t, n);
    }
  }
}
