/**
 * Source rows that match one target row (packages/cli/src/plan.ts): one by
 * the second key, one by name. Each patch sends only the fields that differed
 * when the plan was made, so the round gives the row the one's name and the
 * other's second key. What the next plans make of the pair is decided by the
 * target rows no source row matches.
 */
module Clash {
  import opened Common
  import opened Matching

  /** A patch sends a key exactly when it differed from the row the plan saw. */
  ghost predicate Fieldwise<S(!new), R(!new)>(k: Kind<S, R>) {
    forall s, r, now :: !k.skips(s) ==>
      var after := k.patch(s, r, now);
      && k.rowName(after) == (if k.name(s) != k.rowName(r) then k.name(s) else k.rowName(now))
      && (k.alias(s) != k.rowAlias(r) ==> k.rowAlias(after) == k.alias(s))
      && (k.alias(s) == k.rowAlias(r) ==>
            k.rowAlias(after) == k.rowAlias(now) || (k.alias(s).None? && k.rowAlias(after).None?))
  }

  predicate Live<S, R>(k: Kind<S, R>, source: seq<S>, i: nat) { i < |source| && !k.skips(source[i]) }

  /** No two source rows share a name or a second key. */
  ghost predicate KeysApart<S, R>(k: Kind<S, R>, source: seq<S>) {
    forall i: nat, j: nat | Live(k, source, i) && Live(k, source, j) && i != j ::
      && k.name(source[i]) != k.name(source[j])
      && (k.alias(source[i]).Some? ==> k.alias(source[i]) != k.alias(source[j]))
  }

  predicate ToRow<S, R>(k: Kind<S, R>, rows: seq<R>, source: seq<S>, c: nat, x: nat) {
    Live(k, source, c) && Match(k, rows, source[c]) == Some(x)
  }

  /** A target row no source row matches. */
  ghost predicate Free<S, R>(k: Kind<S, R>, rows: seq<R>, source: seq<S>, x: nat) {
    x < |rows| && forall c: nat :: !ToRow(k, rows, source, c, x)
  }

  /** Row i matches target row t by its second key, and row j matches it by name. */
  ghost predicate Shares<S, R>(k: Kind<S, R>, rows: seq<R>, source: seq<S>, i: nat, j: nat, t: nat) {
    && i != j && ToRow(k, rows, source, i, t) && ToRow(k, rows, source, j, t)
    && k.alias(source[i]).Some? && k.rowAlias(rows[t]) == k.alias(source[i]) && k.rowName(rows[t]) == k.name(source[j])
  }

  // ---- The shape of a clash ----

  /** Two source rows on one target row clash, one way or the other. */
  lemma ClashShape<S, R>(k: Kind<S, R>, rows: seq<R>, source: seq<S>, i: nat, j: nat, t: nat)
    requires KeysApart(k, source) && i != j && ToRow(k, rows, source, i, t) && ToRow(k, rows, source, j, t)
    ensures Shares(k, rows, source, i, j, t) || Shares(k, rows, source, j, i, t)
  {
    assert Meets(k, source[i], rows[t]) && Meets(k, source[j], rows[t]);
  }

  lemma OnlyTwo<S, R>(k: Kind<S, R>, rows: seq<R>, source: seq<S>, i: nat, j: nat, t: nat, c: nat)
    requires KeysApart(k, source) && Shares(k, rows, source, i, j, t) && ToRow(k, rows, source, c, t)
    ensures c == i || c == j
  {
    assert Meets(k, source[c], rows[t]);
  }

  lemma BothUpdate<S(!new), R(!new)>(k: Kind<S, R>, rows: seq<R>, source: seq<S>, i: nat, j: nat, t: nat)
    requires Lawful(k) && KeysApart(k, source) && Shares(k, rows, source, i, j, t)
    ensures Plan(k, rows, source)[i] == Update(t) && Plan(k, rows, source)[j] == Update(t)
  {
    assert Plan(k, rows, source)[i] == Decide(k, rows, source[i]);
    assert Plan(k, rows, source)[j] == Decide(k, rows, source[j]);
    assert Meets(k, source[i], rows[t]) && Meets(k, source[j], rows[t]);
  }

  /** An item gives the row they share the one's name, or the other's second key, or leaves it. */
  lemma SharedStep<S(!new), R(!new)>(k: Kind<S, R>, rows: seq<R>, source: seq<S>, i: nat, j: nat, t: nat, n: nat)
    requires Lawful(k) && Fieldwise(k) && KeysApart(k, source) && Shares(k, rows, source, i, j, t) && n < |source|
    ensures var plan := Plan(k, rows, source);
            var was, now := Applied(k, rows, source, plan, n)[t], Applied(k, rows, source, plan, n + 1)[t];
            && k.rowName(now) == (if n == i then k.name(source[i]) else k.rowName(was))
            && k.rowAlias(now) == (if n == j then k.alias(source[j]) else k.rowAlias(was))
  {
    var plan := Plan(k, rows, source);
    BothUpdate(k, rows, source, i, j, t);
    assert plan[n] == Decide(k, rows, source[n]);
    if plan[n] == Update(t) { OnlyTwo(k, rows, source, i, j, t, n); }
  }

  /** After n items, the row they share has the one's name and the other's second key if theirs are among them. */
  ghost predicate Mixed<S(!new), R(!new)>(
    k: Kind<S, R>, rows: seq<R>, source: seq<S>, i: nat, j: nat, t: nat, n: nat)
    requires i < |source| && j < |source| && t < |rows| && n <= |source|
  {
    var row := Applied(k, rows, source, Plan(k, rows, source), n)[t];
    && k.rowName(row) == (if i < n then k.name(source[i]) else k.rowName(rows[t]))
    && k.rowAlias(row) == (if j < n then k.alias(source[j]) else k.rowAlias(rows[t]))
  }

  lemma MixedOn<S(!new), R(!new)>(k: Kind<S, R>, rows: seq<R>, source: seq<S>, i: nat, j: nat, t: nat, n: nat)
    requires Lawful(k) && Fieldwise(k) && KeysApart(k, source) && Shares(k, rows, source, i, j, t)
    requires 0 < n <= |source| && Mixed(k, rows, source, i, j, t, n - 1)
    ensures Mixed(k, rows, source, i, j, t, n)
  {
    SharedStep(k, rows, source, i, j, t, n - 1);
  }

  /** The row they share ends with the one's name and the other's second key, in whichever order they are applied. */
  lemma {:induction false} SharedRow<S(!new), R(!new)>(
    k: Kind<S, R>, rows: seq<R>, source: seq<S>, i: nat, j: nat, t: nat, n: nat)
    requires Lawful(k) && Fieldwise(k) && KeysApart(k, source) && Shares(k, rows, source, i, j, t) && n <= |source|
    ensures Mixed(k, rows, source, i, j, t, n)
  {
    if n > 0 {
      SharedRow(k, rows, source, i, j, t, n - 1);
      MixedOn(k, rows, source, i, j, t, n);
    }
  }

  // ---- Whose keys a row bears after a round ----

  /** The source row that names target row x: it matches it, or is created there. */
  ghost predicate LivesAt<S, R>(k: Kind<S, R>, rows: seq<R>, source: seq<S>, c: nat, x: nat) {
    Live(k, source, c) && Home(k, rows, source, c) == x
  }

  ghost predicate NameFrom<S, R>(k: Kind<S, R>, rows: seq<R>, source: seq<S>, x: nat, n: nat, name: string) {
    exists c: nat | c < n :: LivesAt(k, rows, source, c, x) && k.name(source[c]) == name
  }

  ghost predicate AliasFrom<S, R>(k: Kind<S, R>, rows: seq<R>, source: seq<S>, x: nat, n: nat, alias: Option<string>) {
    exists c: nat | c < n :: LivesAt(k, rows, source, c, x) && k.alias(source[c]) == alias
  }

  lemma HomeIsMatch<S, R>(k: Kind<S, R>, rows: seq<R>, source: seq<S>, c: nat, x: nat)
    requires Live(k, source, c) && x < |rows|
    ensures LivesAt(k, rows, source, c, x) <==> ToRow(k, rows, source, c, x)
    ensures Plan(k, rows, source)[c] == Update(x) ==> ToRow(k, rows, source, c, x)
  {
    assert Plan(k, rows, source)[c] == Decide(k, rows, source[c]);
  }

  lemma NameStep<S(!new), R(!new)>(k: Kind<S, R>, rows: seq<R>, source: seq<S>, x: nat, n: nat)
    requires Lawful(k) && Fieldwise(k) && 0 < n <= |source| && x < |rows|
    ensures var plan := Plan(k, rows, source);
            var was, now := k.rowName(Applied(k, rows, source, plan, n - 1)[x]),
                k.rowName(Applied(k, rows, source, plan, n)[x]);
            if LivesAt(k, rows, source, n - 1, x) && k.name(source[n - 1]) != k.rowName(rows[x])
            then now == k.name(source[n - 1]) else now == was
  {
    var plan := Plan(k, rows, source);
    assert plan[n - 1] == Decide(k, rows, source[n - 1]);
    if Live(k, source, n - 1) {
      HomeIsMatch(k, rows, source, n - 1, x);
      if plan[n - 1] == Same(x) { assert Meets(k, source[n - 1], rows[x]); }
    }
  }

  /** After n items an old row bears a name one of them gave it, or its own, which all that match it share. */
  ghost predicate NameHeld<S(!new), R(!new)>(k: Kind<S, R>, rows: seq<R>, source: seq<S>, x: nat, n: nat)
    requires n <= |source| && x < |rows|
  {
    var now := k.rowName(Applied(k, rows, source, Plan(k, rows, source), n)[x]);
    || NameFrom(k, rows, source, x, n, now)
    || (&& now == k.rowName(rows[x])
        && forall c: nat | c < n && LivesAt(k, rows, source, c, x) :: k.name(source[c]) == k.rowName(rows[x]))
  }

  lemma NameHeldOn<S(!new), R(!new)>(k: Kind<S, R>, rows: seq<R>, source: seq<S>, x: nat, n: nat)
    requires Lawful(k) && Fieldwise(k) && 0 < n <= |source| && x < |rows| && NameHeld(k, rows, source, x, n - 1)
    ensures NameHeld(k, rows, source, x, n)
  {
    NameStep(k, rows, source, x, n);
  }

  lemma {:induction false} NameHistory<S(!new), R(!new)>(k: Kind<S, R>, rows: seq<R>, source: seq<S>, x: nat, n: nat)
    requires Lawful(k) && Fieldwise(k) && n <= |source| && x < |rows|
    ensures NameHeld(k, rows, source, x, n)
  {
    if n > 0 {
      NameHistory(k, rows, source, x, n - 1);
      NameHeldOn(k, rows, source, x, n);
    }
  }

  lemma AliasStep<S(!new), R(!new)>(k: Kind<S, R>, rows: seq<R>, source: seq<S>, x: nat, n: nat)
    requires Lawful(k) && Fieldwise(k) && 0 < n <= |source| && x < |rows|
    ensures var plan := Plan(k, rows, source);
            var was, now := k.rowAlias(Applied(k, rows, source, plan, n - 1)[x]),
                k.rowAlias(Applied(k, rows, source, plan, n)[x]);
            if LivesAt(k, rows, source, n - 1, x)
            then now == k.alias(source[n - 1]) || (now == was && k.alias(source[n - 1]) == k.rowAlias(rows[x]))
                else now == was
  {
    var plan := Plan(k, rows, source);
    assert plan[n - 1] == Decide(k, rows, source[n - 1]);
    if Live(k, source, n - 1) {
      HomeIsMatch(k, rows, source, n - 1, x);
      if plan[n - 1] == Same(x) { assert Meets(k, source[n - 1], rows[x]); }
    }
  }

  /** After n items an old row bears a second key one of them gave it, or its own, which all that match it share. */
  ghost predicate AliasHeld<S(!new), R(!new)>(k: Kind<S, R>, rows: seq<R>, source: seq<S>, x: nat, n: nat)
    requires n <= |source| && x < |rows|
  {
    var now := k.rowAlias(Applied(k, rows, source, Plan(k, rows, source), n)[x]);
    || AliasFrom(k, rows, source, x, n, now)
    || (&& now == k.rowAlias(rows[x])
        && forall c: nat | c < n && LivesAt(k, rows, source, c, x) :: k.alias(source[c]) == k.rowAlias(rows[x]))
  }

  lemma AliasHeldOn<S(!new), R(!new)>(k: Kind<S, R>, rows: seq<R>, source: seq<S>, x: nat, n: nat)
    requires Lawful(k) && Fieldwise(k) && 0 < n <= |source| && x < |rows| && AliasHeld(k, rows, source, x, n - 1)
    ensures AliasHeld(k, rows, source, x, n)
  {
    AliasStep(k, rows, source, x, n);
  }

  lemma {:induction false} AliasHistory<S(!new), R(!new)>(k: Kind<S, R>, rows: seq<R>, source: seq<S>, x: nat, n: nat)
    requires Lawful(k) && Fieldwise(k) && n <= |source| && x < |rows|
    ensures AliasHeld(k, rows, source, x, n)
  {
    if n > 0 {
      AliasHistory(k, rows, source, x, n - 1);
      AliasHeldOn(k, rows, source, x, n);
    }
  }

  lemma {:induction false} CreatedHolds<S, R>(k: Kind<S, R>, rows: seq<R>, source: seq<S>, i: nat, n: nat)
    requires i < n <= |source| && Plan(k, rows, source)[i].Create?
    ensures var after := Applied(k, rows, source, Plan(k, rows, source), n);
            Home(k, rows, source, i) < |after| && after[Home(k, rows, source, i)] == k.make(source[i])
  {
    AppliedSize(k, rows, source, n - 1);
    if i < n - 1 {
      CreatedHolds(k, rows, source, i, n - 1);
      assert Plan(k, rows, source)[n - 1] == Decide(k, rows, source[n - 1]);
    }
  }

  /** After a round each row is as it was and free, or bears names and second keys of source rows that live there. */
  lemma Owned<S(!new), R(!new)>(k: Kind<S, R>, rows: seq<R>, source: seq<S>, x: nat)
    requires Lawful(k) && Fieldwise(k) && x < |Round(k, rows, source)|
    ensures var row := Round(k, rows, source)[x];
            || (Free(k, rows, source, x) && row == rows[x])
            || (&& !Free(k, rows, source, x)
                && NameFrom(k, rows, source, x, |source|, k.rowName(row))
                && AliasFrom(k, rows, source, x, |source|, k.rowAlias(row)))
  {
    if x < |rows| {
      if Free(k, rows, source, x) {
        FreeStays(k, rows, source, x);
      } else {
        var c: nat :| ToRow(k, rows, source, c, x);
        HomeIsMatch(k, rows, source, c, x);
        NameHistory(k, rows, source, x, |source|);
        AliasHistory(k, rows, source, x, |source|);
      }
    } else {
      CreatedOwned(k, rows, source, x);
    }
  }

  lemma FreeStays<S, R>(k: Kind<S, R>, rows: seq<R>, source: seq<S>, x: nat)
    requires Free(k, rows, source, x)
    ensures Round(k, rows, source)[x] == rows[x]
  {
    forall i | 0 <= i < |source| && Plan(k, rows, source)[i].Update? ensures Plan(k, rows, source)[i].at != x {
      assert Plan(k, rows, source)[i] == Decide(k, rows, source[i]) && !ToRow(k, rows, source, i, x);
    }
    Untouched(k, rows, source, x, |source|);
  }

  lemma CreatedOwned<S(!new), R(!new)>(k: Kind<S, R>, rows: seq<R>, source: seq<S>, x: nat)
    requires Lawful(k) && |rows| <= x < |Round(k, rows, source)|
    ensures var row := Round(k, rows, source)[x];
            NameFrom(k, rows, source, x, |source|, k.rowName(row))
                && AliasFrom(k, rows, source, x, |source|, k.rowAlias(row))
  {
    AppliedSize(k, rows, source, |source|);
    var plan := Plan(k, rows, source);
    var i := CreatedAt(plan, x - |rows|, |source|);
    assert plan[i] == Decide(k, rows, source[i]);
    CreatedHolds(k, rows, source, i, |source|);
    assert LivesAt(k, rows, source, i, x) && Bears(k, source[i], k.make(source[i]));
  }

  // ---- Where the next plan finds the pair ----

  lemma HomeOf<S, R>(k: Kind<S, R>, rows: seq<R>, source: seq<S>, i: nat, t: nat)
    requires ToRow(k, rows, source, i, t)
    ensures Home(k, rows, source, i) == t && t < |rows|
  {
    assert Plan(k, rows, source)[i] == Decide(k, rows, source[i]);
  }

  lemma SharedAfter<S(!new), R(!new)>(k: Kind<S, R>, rows: seq<R>, source: seq<S>, i: nat, j: nat, t: nat)
    requires Lawful(k) && Fieldwise(k) && KeysApart(k, source) && Shares(k, rows, source, i, j, t)
    ensures var row := Round(k, rows, source)[t];
            k.rowName(row) == k.name(source[i]) && k.rowAlias(row) == k.alias(source[j])
  {
    SharedRow(k, rows, source, i, j, t, |source|);
  }

  /**
   * After the round a row with the name of one of the pair is the shared one or
   * a free one; likewise their second keys.
   */
  lemma NamedAfter<S(!new), R(!new)>(k: Kind<S, R>, rows: seq<R>, source: seq<S>, i: nat, t: nat, x: nat)
    requires Lawful(k) && Fieldwise(k) && KeysApart(k, source) && ToRow(k, rows, source, i, t)
    requires x < |Round(k, rows, source)| && k.rowName(Round(k, rows, source)[x]) == k.name(source[i])
    ensures x == t || (Free(k, rows, source, x) && Round(k, rows, source)[x] == rows[x])
  {
    Owned(k, rows, source, x);
    HomeOf(k, rows, source, i, t);
    if !Free(k, rows, source, x) {
      var c: nat :| c < |source| && LivesAt(k, rows, source, c, x) && k.name(source[c]) == k.name(source[i]);
    }
  }

  lemma AliasedAfter<S(!new), R(!new)>(k: Kind<S, R>, rows: seq<R>, source: seq<S>, i: nat, t: nat, x: nat)
    requires Lawful(k) && Fieldwise(k) && KeysApart(k, source) && ToRow(k, rows, source, i, t)
    requires k.alias(source[i]).Some?
    requires x < |Round(k, rows, source)| && k.rowAlias(Round(k, rows, source)[x]) == k.alias(source[i])
    ensures x == t || (Free(k, rows, source, x) && Round(k, rows, source)[x] == rows[x])
  {
    Owned(k, rows, source, x);
    HomeOf(k, rows, source, i, t);
    if !Free(k, rows, source, x) {
      var c: nat :| c < |source| && LivesAt(k, rows, source, c, x) && k.alias(source[c]) == k.alias(source[i]);
    }
  }

  /** No target row that no source row matches bears the name; nor one before row t; nor the second key. */
  ghost predicate NoFreeName<S, R>(k: Kind<S, R>, rows: seq<R>, source: seq<S>, name: string) {
    forall x: nat | Free(k, rows, source, x) :: k.rowName(rows[x]) != name
  }

  ghost predicate NoFreeNameBefore<S, R>(k: Kind<S, R>, rows: seq<R>, source: seq<S>, name: string, t: nat) {
    forall x: nat | Free(k, rows, source, x) && x < t :: k.rowName(rows[x]) != name
  }

  ghost predicate NoFreeAlias<S, R>(k: Kind<S, R>, rows: seq<R>, source: seq<S>, alias: Option<string>) {
    forall x: nat | Free(k, rows, source, x) :: k.rowAlias(rows[x]) != alias
  }

  lemma FreeSurvives<S, R>(k: Kind<S, R>, rows: seq<R>, source: seq<S>, x: nat)
    requires Free(k, rows, source, x)
    ensures x < |Round(k, rows, source)| && Round(k, rows, source)[x] == rows[x]
  {
    AppliedSize(k, rows, source, |source|);
    FreeStays(k, rows, source, x);
  }

  /** The row matched by name, if it has a second key of its own, is found again on the shared row. */
  lemma NamedFoundByAlias<S(!new), R(!new)>(k: Kind<S, R>, rows: seq<R>, source: seq<S>, i: nat, j: nat, t: nat)
    requires Lawful(k) && Fieldwise(k) && KeysApart(k, source) && Shares(k, rows, source, i, j, t)
    requires k.alias(source[j]).Some?
    ensures Match(k, Round(k, rows, source), source[j]) == Some(t)
  {
    var after, alias := Round(k, rows, source), k.alias(source[j]);
    SharedAfter(k, rows, source, i, j, t);
    AliasAtMost(k, after, alias.value, 0, t);
    var at := FindAlias(k, after, alias.value, 0).value;
    if at < t {
      AliasedAfter(k, rows, source, j, t, at);
      AliasAtMost(k, rows, alias.value, 0, at);
    }
  }

  /** Without one, it is found exactly where a free row bears its name; else it is created. */
  lemma NamedFoundByName<S(!new), R(!new)>(k: Kind<S, R>, rows: seq<R>, source: seq<S>, i: nat, j: nat, t: nat)
    requires Lawful(k) && Fieldwise(k) && KeysApart(k, source) && Shares(k, rows, source, i, j, t)
    requires k.alias(source[j]).None?
    ensures var at := Match(k, Round(k, rows, source), source[j]);
            && (at.None? <==> NoFreeName(k, rows, source, k.name(source[j])))
            && at != Some(t)
  {
    var after, name := Round(k, rows, source), k.name(source[j]);
    var at := Match(k, after, source[j]);
    SharedAfter(k, rows, source, i, j, t);
    if at.Some? { NamedAfter(k, rows, source, j, t, at.value); }
    if x: nat :| Free(k, rows, source, x) && k.rowName(rows[x]) == name {
      FreeSurvives(k, rows, source, x);
      NameAtMost(k, after, name, 0, x);
    }
  }

  /**
   * The row matched by its second key is found on the shared row again unless a
   * free row bears that key, or its name before.
   */
  lemma AliasedFound<S(!new), R(!new)>(k: Kind<S, R>, rows: seq<R>, source: seq<S>, i: nat, j: nat, t: nat)
    requires Lawful(k) && Fieldwise(k) && KeysApart(k, source) && Shares(k, rows, source, i, j, t)
    ensures var at := Match(k, Round(k, rows, source), source[i]);
            && at.Some?
            && (at == Some(t) <==> NoFreeAlias(k, rows, source, k.alias(source[i])) &&
                                   NoFreeNameBefore(k, rows, source, k.name(source[i]), t))
  {
    var after, alias, name := Round(k, rows, source), k.alias(source[i]), k.name(source[i]);
    SharedAfter(k, rows, source, i, j, t);
    NameAtMost(k, after, name, 0, t);
    var byAlias, byName := FindAlias(k, after, alias.value, 0), FindName(k, after, name, 0);
    if byAlias.Some? { AliasedAfter(k, rows, source, i, t, byAlias.value); }
    if x: nat :| Free(k, rows, source, x) && k.rowAlias(rows[x]) == alias {
      FreeSurvives(k, rows, source, x);
      AliasAtMost(k, after, alias.value, 0, x);
    }
    if byName.value < t { NamedAfter(k, rows, source, i, t, byName.value); }
    if x: nat :| Free(k, rows, source, x) && x < t && k.rowName(rows[x]) == name {
      FreeSurvives(k, rows, source, x);
      NameAtMost(k, after, name, 0, x);
    }
  }

  // ---- When the next plan creates ----

  ghost predicate Orphans<S, R>(k: Kind<S, R>, rows: seq<R>, source: seq<S>, i: nat, j: nat, t: nat) {
    Shares(k, rows, source, i, j, t) && k.alias(source[j]).None? && NoFreeName(k, rows, source, k.name(source[j]))
  }

  /** A source row alone on its target row, or created, keeps a row of its name. */
  lemma AloneKeepsName<S(!new), R(!new)>(k: Kind<S, R>, rows: seq<R>, source: seq<S>, c: nat)
    requires Lawful(k) && Fieldwise(k) && Live(k, source, c)
    requires forall d: nat | LivesAt(k, rows, source, d, Home(k, rows, source, c)) :: d == c
    ensures Match(k, Round(k, rows, source), source[c]).Some?
  {
    var x := Home(k, rows, source, c);
    assert Plan(k, rows, source)[c] == Decide(k, rows, source[c]);
    AppliedSize(k, rows, source, |source|);
    if Plan(k, rows, source)[c].Create? {
      CreatedHolds(k, rows, source, c, |source|);
    } else {
      HomeIsMatch(k, rows, source, c, x);
      assert ToRow(k, rows, source, c, x);
    }
    Owned(k, rows, source, x);
    NameAtMost(k, Round(k, rows, source), k.name(source[c]), 0, x);
  }

  lemma CreatesOnlyOrphans<S(!new), R(!new)>(k: Kind<S, R>, rows: seq<R>, source: seq<S>, c: nat)
    requires Lawful(k) && Fieldwise(k) && KeysApart(k, source) && Live(k, source, c)
    requires Match(k, Round(k, rows, source), source[c]).None?
    ensures exists i: nat, t: nat :: Orphans(k, rows, source, i, c, t)
  {
    var x := Home(k, rows, source, c);
    if forall d: nat | LivesAt(k, rows, source, d, x) :: d == c {
      AloneKeepsName(k, rows, source, c);
    } else {
      var d: nat :| LivesAt(k, rows, source, d, x) && d != c;
      HomesShared(k, rows, source, c, d, x);
      ClashShape(k, rows, source, c, d, x);
      if Shares(k, rows, source, c, d, x) {
        AliasedFound(k, rows, source, c, d, x);
      } else if k.alias(source[c]).Some? {
        NamedFoundByAlias(k, rows, source, d, c, x);
      } else {
        NamedFoundByName(k, rows, source, d, c, x);
        assert Orphans(k, rows, source, d, c, x);
      }
    }
  }

  /** Rows created live apart, so two that share a home match it. */
  lemma HomesShared<S, R>(k: Kind<S, R>, rows: seq<R>, source: seq<S>, c: nat, d: nat, x: nat)
    requires LivesAt(k, rows, source, c, x) && LivesAt(k, rows, source, d, x) && c != d
    ensures ToRow(k, rows, source, c, x) && ToRow(k, rows, source, d, x)
  {
    var plan := Plan(k, rows, source);
    assert plan[c] == Decide(k, rows, source[c]) && plan[d] == Decide(k, rows, source[d]);
    if plan[c].Create? && plan[d].Create? {
      if c < d { CreatesGrow(plan, c, d); } else { CreatesGrow(plan, d, c); }
    }
  }

  /**
   * With distinct names and second keys, the next plan creates if and only if
   * a source row without a second key shares its target row, and no target
   * row that no source row matches bears its name.
   */
  lemma NextCreatesIff<S(!new), R(!new)>(k: Kind<S, R>, rows: seq<R>, source: seq<S>)
    requires Lawful(k) && Fieldwise(k) && KeysApart(k, source)
    ensures Create in Plan(k, Round(k, rows, source), source) <==>
            exists i: nat, j: nat, t: nat :: Orphans(k, rows, source, i, j, t)
  {
    var after := Round(k, rows, source);
    if i: nat, j: nat, t: nat :| Orphans(k, rows, source, i, j, t) {
      NamedFoundByName(k, rows, source, i, j, t);
      assert Plan(k, after, source)[j] == Decide(k, after, source[j]) == Create;
    }
    if Create in Plan(k, after, source) {
      var c :| 0 <= c < |source| && Plan(k, after, source)[c] == Create;
      assert Plan(k, after, source)[c] == Decide(k, after, source[c]);
      CreatesOnlyOrphans(k, rows, source, c);
    }
  }

  // ---- When the pair flips for ever ----

  function Rounds<S, R>(k: Kind<S, R>, rows: seq<R>, source: seq<S>, n: nat): seq<R> {
    if n == 0 then rows else Round(k, Rounds(k, rows, source, n - 1), source)
  }

  /** Row t bears one key of each of the pair, and no other row bears one of theirs that would be found first. */
  ghost predicate Flipping<S, R>(k: Kind<S, R>, rows: seq<R>, source: seq<S>, i: nat, j: nat, t: nat) {
    && i != j && Live(k, source, i) && Live(k, source, j) && t < |rows|
    && k.alias(source[i]).Some? && k.alias(source[j]).Some?
    && (forall x | 0 <= x < |rows| && x != t ::
          k.rowAlias(rows[x]) != k.alias(source[i]) && k.rowAlias(rows[x]) != k.alias(source[j]))
    && (forall x | 0 <= x < t :: k.rowName(rows[x]) != k.name(source[i]) && k.rowName(rows[x]) != k.name(source[j]))
    && ((k.rowAlias(rows[t]) == k.alias(source[i]) && k.rowName(rows[t]) == k.name(source[j])) ||
        (k.rowAlias(rows[t]) == k.alias(source[j]) && k.rowName(rows[t]) == k.name(source[i])))
  }

  lemma FlippingMatches<S(!new), R(!new)>(k: Kind<S, R>, rows: seq<R>, source: seq<S>, i: nat, j: nat, t: nat)
    requires KeysApart(k, source) && Flipping(k, rows, source, i, j, t)
    requires k.rowAlias(rows[t]) == k.alias(source[i]) && k.rowName(rows[t]) == k.name(source[j])
    ensures Shares(k, rows, source, i, j, t)
  {
    AliasAtMost(k, rows, k.alias(source[i]).value, 0, t);
    NameAtMost(k, rows, k.name(source[j]), 0, t);
  }

  lemma FlippingClashes<S(!new), R(!new)>(k: Kind<S, R>, rows: seq<R>, source: seq<S>, i: nat, j: nat, t: nat)
    requires KeysApart(k, source) && Flipping(k, rows, source, i, j, t)
    ensures Shares(k, rows, source, i, j, t) || Shares(k, rows, source, j, i, t)
  {
    if k.rowAlias(rows[t]) == k.alias(source[i]) && k.rowName(rows[t]) == k.name(source[j]) {
      FlippingMatches(k, rows, source, i, j, t);
    } else {
      FlippingMatches(k, rows, source, j, i, t);
    }
  }

  /** A round of a clash turns the shared row's keys round, and gives no other row any of the pair's. */
  lemma ClashFlips<S(!new), R(!new)>(k: Kind<S, R>, rows: seq<R>, source: seq<S>, i: nat, j: nat, t: nat)
    requires Lawful(k) && Fieldwise(k) && KeysApart(k, source) && Shares(k, rows, source, i, j, t)
    requires k.alias(source[j]).Some?
    requires NoFreeAlias(k, rows, source, k.alias(source[i]))
    requires NoFreeNameBefore(k, rows, source, k.name(source[i]), t)
    ensures Flipping(k, Round(k, rows, source), source, i, j, t)
  {
    var after := Round(k, rows, source);
    AppliedSize(k, rows, source, |source|);
    SharedAfter(k, rows, source, i, j, t);
    forall x | 0 <= x < |after| && x != t
      ensures k.rowAlias(after[x]) != k.alias(source[i]) && k.rowAlias(after[x]) != k.alias(source[j]) {
      if k.rowAlias(after[x]) == k.alias(source[i]) { AliasedAfter(k, rows, source, i, t, x); }
      if k.rowAlias(after[x]) == k.alias(source[j]) {
        AliasedAfter(k, rows, source, j, t, x);
        AliasAtMost(k, rows, k.alias(source[j]).value, 0, x);
      }
    }
    forall x | 0 <= x < t
      ensures k.rowName(after[x]) != k.name(source[i]) && k.rowName(after[x]) != k.name(source[j]) {
      if k.rowName(after[x]) == k.name(source[i]) { NamedAfter(k, rows, source, i, t, x); }
      if k.rowName(after[x]) == k.name(source[j]) {
        NamedAfter(k, rows, source, j, t, x);
        NameAtMost(k, rows, k.name(source[j]), 0, x);
      }
    }
  }

  lemma FlippingKept<S(!new), R(!new)>(k: Kind<S, R>, rows: seq<R>, source: seq<S>, i: nat, j: nat, t: nat)
    requires Lawful(k) && Fieldwise(k) && KeysApart(k, source) && Flipping(k, rows, source, i, j, t)
    ensures Flipping(k, Round(k, rows, source), source, i, j, t)
  {
    FlippingClashes(k, rows, source, i, j, t);
    if Shares(k, rows, source, i, j, t) {
      ClashFlips(k, rows, source, i, j, t);
    } else {
      ClashFlips(k, rows, source, j, i, t);
    }
  }

  lemma {:induction false} FlipsEachRound<S(!new), R(!new)>(
    k: Kind<S, R>, rows: seq<R>, source: seq<S>, i: nat, j: nat, t: nat, n: nat)
    requires Lawful(k) && Fieldwise(k) && KeysApart(k, source) && Flipping(k, Round(k, rows, source), source, i, j, t)
    requires n > 0
    ensures Flipping(k, Rounds(k, rows, source, n), source, i, j, t)
  {
    if n > 1 {
      FlipsEachRound(k, rows, source, i, j, t, n - 1);
      FlippingKept(k, Rounds(k, rows, source, n - 1), source, i, j, t);
    } else {
      assert Rounds(k, rows, source, 0) == rows;
    }
  }

  /** Both of the pair are updated on row t by the plan after n rounds. */
  ghost predicate BothUpdated<S, R>(k: Kind<S, R>, rows: seq<R>, source: seq<S>, i: nat, j: nat, t: nat, n: nat)
    requires i < |source| && j < |source|
  {
    var plan := Plan(k, Rounds(k, rows, source, n), source);
    plan[i] == Update(t) && plan[j] == Update(t)
  }

  lemma NextRoundIff<S(!new), R(!new)>(k: Kind<S, R>, rows: seq<R>, source: seq<S>, i: nat, j: nat, t: nat)
    requires Lawful(k) && Fieldwise(k) && KeysApart(k, source) && Shares(k, rows, source, i, j, t)
    requires BothUpdated(k, rows, source, i, j, t, 1)
    ensures k.alias(source[j]).Some? && NoFreeAlias(k, rows, source, k.alias(source[i]))
            && NoFreeNameBefore(k, rows, source, k.name(source[i]), t)
  {
    var after := Round(k, rows, source);
    assert Rounds(k, rows, source, 0) == rows && Rounds(k, rows, source, 1) == after;
    assert Plan(k, after, source)[i] == Decide(k, after, source[i]);
    assert Plan(k, after, source)[j] == Decide(k, after, source[j]);
    AliasedFound(k, rows, source, i, j, t);
    if k.alias(source[j]).None? { NamedFoundByName(k, rows, source, i, j, t); }
  }

  /**
   * A pair on one target row is updated there by every later plan if and only
   * if both have a second key, and no target row that no source row matches
   * bears the one's second key, or its name before the shared row.
   */
  lemma FlipsForEverIff<S(!new), R(!new)>(k: Kind<S, R>, rows: seq<R>, source: seq<S>, i: nat, j: nat, t: nat)
    requires Lawful(k) && Fieldwise(k) && KeysApart(k, source) && Shares(k, rows, source, i, j, t)
    ensures (forall n: nat | n > 0 :: BothUpdated(k, rows, source, i, j, t, n)) <==>
            k.alias(source[j]).Some? && NoFreeAlias(k, rows, source, k.alias(source[i]))
            && NoFreeNameBefore(k, rows, source, k.name(source[i]), t)
  {
    if forall n: nat | n > 0 :: BothUpdated(k, rows, source, i, j, t, n) {
      assert BothUpdated(k, rows, source, i, j, t, 1);
      NextRoundIff(k, rows, source, i, j, t);
    }
    if k.alias(source[j]).Some? && NoFreeAlias(k, rows, source, k.alias(source[i]))
       && NoFreeNameBefore(k, rows, source, k.name(source[i]), t) {
      ClashFlips(k, rows, source, i, j, t);
      forall n: nat | n > 0 ensures BothUpdated(k, rows, source, i, j, t, n) {
        var now := Rounds(k, rows, source, n);
        FlipsEachRound(k, rows, source, i, j, t, n);
        FlippingClashes(k, now, source, i, j, t);
        if Shares(k, now, source, i, j, t) {
          BothUpdate(k, now, source, i, j, t);
        } else {
          BothUpdate(k, now, source, j, i, t);
        }
      }
    }
  }

  /** Such a pair never lets the migration settle. */
  lemma NeverSettles<S, R>(k: Kind<S, R>, rows: seq<R>, source: seq<S>, i: nat, j: nat, t: nat, n: nat)
    requires i < |source| && j < |source| && BothUpdated(k, rows, source, i, j, t, n)
    ensures !Settled(k, Rounds(k, rows, source, n), source)
  {
  }
}
