/**
 * How the migration plan pairs source rows with target rows, and what
 * applying it leaves (packages/cli/src/plan.ts, packages/cli/src/apply.ts).
 * Every resource is matched the same way: by a second key when it has one,
 * else by name, the first row in the target's order.
 */
module Matching {
  import opened Common

  /** One resource: its keys, the row a create stores, and the row a patch leaves. */
  datatype Kind<!S, !R> = Kind(
    skips: S -> bool,
    alias: S -> Option<string>, name: S -> string,
    rowAlias: R -> Option<string>, rowName: R -> string,
    make: S -> R,
    differs: (S, R) -> bool,
    // the source, the row the patch was worked out on, and the row it is sent to
    patch: (S, R, R) -> R)

  datatype Action = Skip | Create | Update(at: nat) | Same(at: nat)

  function FindAlias<S, R>(k: Kind<S, R>, rows: seq<R>, a: string, x: nat): (at: Option<nat>)
    ensures at.Some? ==> x <= at.value < |rows| && k.rowAlias(rows[at.value]) == Some(a)
    decreases |rows| - x
  {
    if x >= |rows| then None else if k.rowAlias(rows[x]) == Some(a) then Some(x) else FindAlias(k, rows, a, x + 1)
  }

  function FindName<S, R>(k: Kind<S, R>, rows: seq<R>, n: string, x: nat): (at: Option<nat>)
    ensures at.Some? ==> x <= at.value < |rows| && k.rowName(rows[at.value]) == n
    decreases |rows| - x
  {
    if x >= |rows| then None else if k.rowName(rows[x]) == n then Some(x) else FindName(k, rows, n, x + 1)
  }

  function Match<S, R>(k: Kind<S, R>, rows: seq<R>, s: S): (at: Option<nat>)
    ensures at.Some? ==> at.value < |rows|
  {
    var byAlias := if k.alias(s).Some? then FindAlias(k, rows, k.alias(s).value, 0) else None;
    if byAlias.Some? then byAlias else FindName(k, rows, k.name(s), 0)
  }

  function Decide<S, R>(k: Kind<S, R>, rows: seq<R>, s: S): (a: Action)
    ensures a.Update? || a.Same? ==> a.at < |rows|
  {
    if k.skips(s) then Skip else
      match Match(k, rows, s)
      case None => Create
      case Some(at) => if k.differs(s, rows[at]) then Update(at) else Same(at)
  }

  function Plan<S, R>(k: Kind<S, R>, rows: seq<R>, source: seq<S>): (p: seq<Action>)
    ensures |p| == |source|
  {
    seq(|source|, i requires 0 <= i < |source| => Decide(k, rows, source[i]))
  }

  /** The first row that bears the alias, or the name. */
  ghost predicate FirstOfAlias<S, R>(k: Kind<S, R>, rows: seq<R>, a: string, x: nat) {
    x < |rows| && k.rowAlias(rows[x]) == Some(a) && forall y | 0 <= y < x :: k.rowAlias(rows[y]) != Some(a)
  }

  ghost predicate FirstOfName<S, R>(k: Kind<S, R>, rows: seq<R>, n: string, x: nat) {
    x < |rows| && k.rowName(rows[x]) == n && forall y | 0 <= y < x :: k.rowName(rows[y]) != n
  }

  lemma {:induction false} FindAliasIs<S, R>(k: Kind<S, R>, rows: seq<R>, a: string, from: nat)
    requires forall y | 0 <= y < from && y < |rows| :: k.rowAlias(rows[y]) != Some(a)
    ensures var at := FindAlias(k, rows, a, from);
            if at.Some? then FirstOfAlias(k, rows, a, at.value)
            else forall y | 0 <= y < |rows| :: k.rowAlias(rows[y]) != Some(a)
    decreases |rows| - from
  {
    if from < |rows| && k.rowAlias(rows[from]) != Some(a) { FindAliasIs(k, rows, a, from + 1); }
  }

  lemma {:induction false} FindNameIs<S, R>(k: Kind<S, R>, rows: seq<R>, n: string, from: nat)
    requires forall y | 0 <= y < from && y < |rows| :: k.rowName(rows[y]) != n
    ensures var at := FindName(k, rows, n, from);
            if at.Some? then FirstOfName(k, rows, n, at.value)
            else forall y | 0 <= y < |rows| :: k.rowName(rows[y]) != n
    decreases |rows| - from
  {
    if from < |rows| && k.rowName(rows[from]) != n { FindNameIs(k, rows, n, from + 1); }
  }

  /** A source row matches the first target row with its alias, failing that the first with its name. */
  lemma MatchIs<S, R>(k: Kind<S, R>, rows: seq<R>, s: S, x: nat)
    ensures Match(k, rows, s) == Some(x) <==>
            || (k.alias(s).Some? && FirstOfAlias(k, rows, k.alias(s).value, x))
            || ((k.alias(s).Some? ==> forall y | 0 <= y < |rows| :: k.rowAlias(rows[y]) != k.alias(s))
                && FirstOfName(k, rows, k.name(s), x))
    ensures Match(k, rows, s).None? <==>
            forall y | 0 <= y < |rows| :: !Meets(k, s, rows[y])
  {
    FindNameIs(k, rows, k.name(s), 0);
    if k.alias(s).Some? { FindAliasIs(k, rows, k.alias(s).value, 0); }
  }

  /** The target after the first n items: a row created goes last, a patch is sent to the row the plan named. */
  function Applied<S, R>(k: Kind<S, R>, rows: seq<R>, source: seq<S>, plan: seq<Action>, n: nat): (after: seq<R>)
    requires n <= |source| == |plan| && forall i | 0 <= i < |plan| && plan[i].Update? :: plan[i].at < |rows|
    ensures |after| >= |rows|
  {
    if n == 0 then rows else
      var before := Applied(k, rows, source, plan, n - 1);
      match plan[n - 1]
      case Create => before + [k.make(source[n - 1])]
      case Update(at) => before[at := k.patch(source[n - 1], rows[at], before[at])]
      case Skip => before
      case Same(_) => before
  }

  lemma PlanPoints<S, R>(k: Kind<S, R>, rows: seq<R>, source: seq<S>)
    ensures forall i | 0 <= i < |source| && Plan(k, rows, source)[i].Update? :: Plan(k, rows, source)[i].at < |rows|
  {
  }

  /** The target after one whole round of plan and apply. */
  function Round<S, R>(k: Kind<S, R>, rows: seq<R>, source: seq<S>): seq<R> {
    PlanPoints(k, rows, source);
    Applied(k, rows, source, Plan(k, rows, source), |source|)
  }

  // ---- The loops ----

  method FirstMatch<S, R>(k: Kind<S, R>, rows: seq<R>, s: S) returns (at: Option<nat>)
    ensures at == Match(k, rows, s)
  {
    var x := 0;
    var alias := k.alias(s);
    if alias.Some? {
      while x < |rows|
        invariant x <= |rows| && FindAlias(k, rows, alias.value, x) == FindAlias(k, rows, alias.value, 0)
      {
        if k.rowAlias(rows[x]) == alias { return Some(x); }
        x := x + 1;
      }
    }
    x := 0;
    while x < |rows|
      invariant x <= |rows| && FindName(k, rows, k.name(s), x) == FindName(k, rows, k.name(s), 0)
    {
      if k.rowName(rows[x]) == k.name(s) { return Some(x); }
      x := x + 1;
    }
    return None;
  }

  method BuildPlan<S, R>(k: Kind<S, R>, rows: seq<R>, source: seq<S>) returns (plan: seq<Action>)
    ensures plan == Plan(k, rows, source)
  {
    plan := [];
    for i := 0 to |source|
      invariant plan == Plan(k, rows, source)[..i]
    {
      var s := source[i];
      if k.skips(s) {
        plan := plan + [Skip];
      } else {
        var existing := FirstMatch(k, rows, s);
        if existing.None? {
          plan := plan + [Create];
        } else if k.differs(s, rows[existing.value]) {
          plan := plan + [Update(existing.value)];
        } else {
          plan := plan + [Same(existing.value)];
        }
      }
    }
  }

  method ApplyRows<S, R>(k: Kind<S, R>, rows: seq<R>, source: seq<S>, plan: seq<Action>) returns (after: seq<R>)
    requires |source| == |plan| && forall i | 0 <= i < |plan| && plan[i].Update? :: plan[i].at < |rows|
    ensures after == Applied(k, rows, source, plan, |source|)
  {
    after := rows;
    for n := 0 to |source|
      invariant after == Applied(k, rows, source, plan, n)
    {
      match plan[n] {
        case Create => after := after + [k.make(source[n])];
        case Update(at) => after := after[at := k.patch(source[n], rows[at], after[at])];
        case Skip =>
        case Same(_) =>
      }
    }
  }

  // ---- What makes a resource converge ----

  ghost predicate Meets<S, R>(k: Kind<S, R>, s: S, r: R) {
    (k.alias(s).Some? && k.rowAlias(r) == k.alias(s)) || k.rowName(r) == k.name(s)
  }

  ghost predicate Bears<S, R>(k: Kind<S, R>, s: S, r: R) { k.rowAlias(r) == k.alias(s) && k.rowName(r) == k.name(s) }

  /** A created row bears its source's keys; a patched row does and needs no patch; a row that needs none does. */
  ghost predicate Lawful<S(!new), R(!new)>(k: Kind<S, R>) {
    && (forall s :: !k.skips(s) ==> Bears(k, s, k.make(s)))
    && (forall s, r :: !k.skips(s) && Meets(k, s, r) && k.differs(s, r) ==>
          Bears(k, s, k.patch(s, r, r)) && !k.differs(s, k.patch(s, r, r)))
    && (forall s, r :: !k.skips(s) && Meets(k, s, r) && !k.differs(s, r) ==> Bears(k, s, r))
  }

  /** No two source rows share a name or an alias, or match one target row. */
  ghost predicate Apart<S, R>(k: Kind<S, R>, rows: seq<R>, source: seq<S>) {
    forall i, j | 0 <= i < j < |source| && !k.skips(source[i]) && !k.skips(source[j]) ::
      && k.name(source[i]) != k.name(source[j])
      && (k.alias(source[i]).Some? ==> k.alias(source[i]) != k.alias(source[j]))
      && (Match(k, rows, source[i]).Some? ==> Match(k, rows, source[i]) != Match(k, rows, source[j]))
  }

  // ---- Where each source row lives after a round ----

  function Creates(plan: seq<Action>, n: nat): nat
    requires n <= |plan|
  {
    if n == 0 then 0 else Creates(plan, n - 1) + if plan[n - 1].Create? then 1 else 0
  }

  lemma {:induction false} CreatesGrow(plan: seq<Action>, i: nat, n: nat)
    requires i < n <= |plan| && plan[i].Create?
    ensures Creates(plan, i) < Creates(plan, n)
  {
    if i < n - 1 { CreatesGrow(plan, i, n - 1); }
  }

  function Home<S, R>(k: Kind<S, R>, rows: seq<R>, source: seq<S>, i: nat): nat
    requires i < |source|
  {
    var plan := Plan(k, rows, source);
    if plan[i].Update? || plan[i].Same? then plan[i].at else |rows| + Creates(plan, i)
  }

  /** What the round leaves of a source row. */
  function Left<S, R>(k: Kind<S, R>, rows: seq<R>, s: S): R {
    match Decide(k, rows, s)
    case Update(at) => k.patch(s, rows[at], rows[at])
    case Same(at) => rows[at]
    case Create => k.make(s)
    case Skip => k.make(s)
  }

  lemma {:induction false} AppliedSize<S, R>(k: Kind<S, R>, rows: seq<R>, source: seq<S>, n: nat)
    requires n <= |source|
    ensures var plan := Plan(k, rows, source); |Applied(k, rows, source, plan, n)| == |rows| + Creates(plan, n)
  {
    if n > 0 { AppliedSize(k, rows, source, n - 1); }
  }

  /** A row is as it was until its own source row comes. */
  lemma {:induction false} Untouched<S, R>(k: Kind<S, R>, rows: seq<R>, source: seq<S>, x: nat, n: nat)
    requires n <= |source| && x < |rows|
    requires forall i | 0 <= i < n && Plan(k, rows, source)[i].Update? :: Plan(k, rows, source)[i].at != x
    ensures Applied(k, rows, source, Plan(k, rows, source), n)[x] == rows[x]
  {
    if n > 0 { Untouched(k, rows, source, x, n - 1); }
  }

  lemma HomesApart<S, R>(k: Kind<S, R>, rows: seq<R>, source: seq<S>, i: nat, j: nat)
    requires Apart(k, rows, source) && i < j < |source| && !k.skips(source[i]) && !k.skips(source[j])
    ensures Home(k, rows, source, i) != Home(k, rows, source, j)
  {
    var plan := Plan(k, rows, source);
    assert plan[i] == Decide(k, rows, source[i]) && plan[j] == Decide(k, rows, source[j]);
    if plan[i].Create? { CreatesGrow(plan, i, j); }
  }

  /** After any later item, a source row's home holds what the round leaves of it. */
  lemma {:induction false} HomeHolds<S, R>(k: Kind<S, R>, rows: seq<R>, source: seq<S>, i: nat, n: nat)
    requires Apart(k, rows, source) && i < n <= |source| && !k.skips(source[i])
    ensures var after := Applied(k, rows, source, Plan(k, rows, source), n);
            Home(k, rows, source, i) < |after| && after[Home(k, rows, source, i)] == Left(k, rows, source[i])
  {
    var plan := Plan(k, rows, source);
    AppliedSize(k, rows, source, n - 1);
    assert plan[n - 1] == Decide(k, rows, source[n - 1]);
    if i == n - 1 {
      if plan[i].Update? || plan[i].Same? {
        forall j | 0 <= j < i && plan[j].Update? ensures plan[j].at != plan[i].at {
          assert plan[j] == Decide(k, rows, source[j]);
          HomesApart(k, rows, source, j, i);
        }
        Untouched(k, rows, source, plan[i].at, i);
      }
    } else {
      HomeHolds(k, rows, source, i, n - 1);
      if !k.skips(source[n - 1]) { HomesApart(k, rows, source, i, n - 1); }
    }
  }

  // ---- The second round ----

  lemma {:induction false} AliasAtMost<S, R>(k: Kind<S, R>, rows: seq<R>, a: string, from: nat, x: nat)
    requires from <= x < |rows| && k.rowAlias(rows[x]) == Some(a)
    ensures FindAlias(k, rows, a, from).Some? && FindAlias(k, rows, a, from).value <= x
    decreases x - from
  {
    if k.rowAlias(rows[from]) != Some(a) { AliasAtMost(k, rows, a, from + 1, x); }
  }

  lemma {:induction false} NameAtMost<S, R>(k: Kind<S, R>, rows: seq<R>, n: string, from: nat, x: nat)
    requires from <= x < |rows| && k.rowName(rows[x]) == n
    ensures FindName(k, rows, n, from).Some? && FindName(k, rows, n, from).value <= x
    decreases x - from
  {
    if k.rowName(rows[from]) != n { NameAtMost(k, rows, n, from + 1, x); }
  }

  lemma LeftBears<S(!new), R(!new)>(k: Kind<S, R>, rows: seq<R>, s: S)
    requires Lawful(k) && !k.skips(s)
    ensures Bears(k, s, Left(k, rows, s))
    ensures k.differs(s, Left(k, rows, s)) ==> Decide(k, rows, s).Create?
  {
    var at := Match(k, rows, s);
    if at.Some? { assert Meets(k, s, rows[at.value]); }
  }

  ghost predicate IsHome<S, R>(k: Kind<S, R>, rows: seq<R>, source: seq<S>, x: nat) {
    exists i | 0 <= i < |source| :: !k.skips(source[i]) && Home(k, rows, source, i) == x
  }

  lemma {:induction false} CreatedAt(plan: seq<Action>, c: nat, n: nat) returns (i: nat)
    requires n <= |plan| && c < Creates(plan, n)
    ensures i < n && plan[i].Create? && Creates(plan, i) == c
  {
    if c == Creates(plan, n - 1) { i := n - 1; } else { i := CreatedAt(plan, c, n - 1); }
  }

  lemma CreatedHome<S, R>(k: Kind<S, R>, rows: seq<R>, source: seq<S>, x: nat)
    requires |rows| <= x < |rows| + Creates(Plan(k, rows, source), |source|)
    ensures IsHome(k, rows, source, x)
  {
    var i := CreatedAt(Plan(k, rows, source), x - |rows|, |source|);
    assert Plan(k, rows, source)[i] == Decide(k, rows, source[i]);
    assert Home(k, rows, source, i) == x;
  }

  /** A row no source row lives in was there before, as it is. */
  lemma Unhomed<S, R>(k: Kind<S, R>, rows: seq<R>, source: seq<S>, x: nat)
    requires x < |Round(k, rows, source)| && !IsHome(k, rows, source, x)
    ensures x < |rows| && Round(k, rows, source)[x] == rows[x]
  {
    var plan := Plan(k, rows, source);
    AppliedSize(k, rows, source, |source|);
    if x >= |rows| {
      CreatedHome(k, rows, source, x);
    }
    forall i | 0 <= i < |source| && plan[i].Update? ensures plan[i].at != x {
      assert plan[i] == Decide(k, rows, source[i]);
      assert Home(k, rows, source, i) == plan[i].at;
    }
    Untouched(k, rows, source, x, |source|);
  }

  lemma OthersHome<S(!new), R(!new)>(k: Kind<S, R>, rows: seq<R>, source: seq<S>, i: nat, x: nat)
    requires Lawful(k) && Apart(k, rows, source) && i < |source| && !k.skips(source[i])
    requires IsHome(k, rows, source, x) && x != Home(k, rows, source, i)
    ensures x < |Round(k, rows, source)|
    ensures k.rowName(Round(k, rows, source)[x]) != k.name(source[i])
    ensures k.alias(source[i]).Some? ==> k.rowAlias(Round(k, rows, source)[x]) != k.alias(source[i])
  {
    var j :| 0 <= j < |source| && !k.skips(source[j]) && Home(k, rows, source, j) == x;
    HomeHolds(k, rows, source, j, |source|);
    LeftBears(k, rows, source[j]);
  }

  /** After a round no earlier row carries a source row's alias, */
  lemma NoEarlierAlias<S(!new), R(!new)>(k: Kind<S, R>, rows: seq<R>, source: seq<S>, i: nat, x: nat)
    requires Lawful(k) && Apart(k, rows, source) && i < |source| && !k.skips(source[i]) && k.alias(source[i]).Some?
    requires x < Home(k, rows, source, i) && x < |Round(k, rows, source)|
    ensures k.rowAlias(Round(k, rows, source)[x]) != k.alias(source[i])
  {
    if IsHome(k, rows, source, x) {
      OthersHome(k, rows, source, i, x);
    } else {
      Unhomed(k, rows, source, x);
      if k.rowAlias(rows[x]) == k.alias(source[i]) {
        AliasAtMost(k, rows, k.alias(source[i]).value, 0, x);
      }
    }
  }

  /** nor, for a row without one, its name. */
  lemma NoEarlierName<S(!new), R(!new)>(k: Kind<S, R>, rows: seq<R>, source: seq<S>, i: nat, x: nat)
    requires Lawful(k) && Apart(k, rows, source) && i < |source| && !k.skips(source[i]) && k.alias(source[i]).None?
    requires x < Home(k, rows, source, i) && x < |Round(k, rows, source)|
    ensures k.rowName(Round(k, rows, source)[x]) != k.name(source[i])
  {
    if IsHome(k, rows, source, x) {
      OthersHome(k, rows, source, i, x);
    } else {
      Unhomed(k, rows, source, x);
      if k.rowName(rows[x]) == k.name(source[i]) {
        NameAtMost(k, rows, k.name(source[i]), 0, x);
      }
    }
  }

  /** So the next plan finds each source row where the round left it. */
  lemma FoundAtHome<S(!new), R(!new)>(k: Kind<S, R>, rows: seq<R>, source: seq<S>, i: nat)
    requires Lawful(k) && Apart(k, rows, source) && i < |source| && !k.skips(source[i])
    ensures var after := Round(k, rows, source);
            var home := Home(k, rows, source, i);
            Match(k, after, source[i]) == Some(home) && home < |after| && after[home] == Left(k, rows, source[i])
  {
    var after, home, s := Round(k, rows, source), Home(k, rows, source, i), source[i];
    HomeHolds(k, rows, source, i, |source|);
    LeftBears(k, rows, s);
    if k.alias(s).Some? {
      AliasAtMost(k, after, k.alias(s).value, 0, home);
      var at := FindAlias(k, after, k.alias(s).value, 0).value;
      if at < home { NoEarlierAlias(k, rows, source, i, at); }
    } else {
      NameAtMost(k, after, k.name(s), 0, home);
      var at := FindName(k, after, k.name(s), 0).value;
      if at < home { NoEarlierName(k, rows, source, i, at); }
    }
  }

  /** Planning again after a round gives no creates, and updates only rows whose create could not carry everything. */
  lemma NoCreatesAgain<S(!new), R(!new)>(k: Kind<S, R>, rows: seq<R>, source: seq<S>, i: nat)
    requires Lawful(k) && Apart(k, rows, source) && i < |source|
    ensures var again := Plan(k, Round(k, rows, source), source)[i];
            && !again.Create?
            && (again.Update? ==> Plan(k, rows, source)[i].Create? && k.differs(source[i], k.make(source[i])))
  {
    assert Plan(k, Round(k, rows, source), source)[i] == Decide(k, Round(k, rows, source), source[i]);
    assert Plan(k, rows, source)[i] == Decide(k, rows, source[i]);
    if !k.skips(source[i]) {
      FoundAtHome(k, rows, source, i);
      LeftBears(k, rows, source[i]);
    }
  }

  lemma StaysApart<S(!new), R(!new)>(k: Kind<S, R>, rows: seq<R>, source: seq<S>)
    requires Lawful(k) && Apart(k, rows, source)
    ensures Apart(k, Round(k, rows, source), source)
  {
    var after := Round(k, rows, source);
    forall i, j | 0 <= i < j < |source| && !k.skips(source[i]) && !k.skips(source[j])
      ensures Match(k, after, source[i]) != Match(k, after, source[j]) {
      FoundAtHome(k, rows, source, i);
      FoundAtHome(k, rows, source, j);
      HomesApart(k, rows, source, i, j);
    }
  }

  ghost predicate Settled<S, R>(k: Kind<S, R>, rows: seq<R>, source: seq<S>) {
    forall i | 0 <= i < |source| :: Plan(k, rows, source)[i].Skip? || Plan(k, rows, source)[i].Same?
  }

  /** Two rounds settle it: the third plan writes nothing. */
  lemma TwoRoundsSettle<S(!new), R(!new)>(k: Kind<S, R>, rows: seq<R>, source: seq<S>)
    requires Lawful(k) && Apart(k, rows, source)
    ensures Settled(k, Round(k, Round(k, rows, source), source), source)
  {
    var once := Round(k, rows, source);
    StaysApart(k, rows, source);
    forall i | 0 <= i < |source|
        ensures var third := Plan(k, Round(k, once, source), source)[i]; third.Skip? || third.Same? {
      NoCreatesAgain(k, rows, source, i);
      NoCreatesAgain(k, once, source, i);
    }
  }

  /** And every source row then has a target row that bears its keys and needs no patch. */
  lemma TwoRoundsCarry<S(!new), R(!new)>(k: Kind<S, R>, rows: seq<R>, source: seq<S>, i: nat)
    requires Lawful(k) && Apart(k, rows, source) && i < |source| && !k.skips(source[i])
    ensures var twice := Round(k, Round(k, rows, source), source);
            var at := Match(k, twice, source[i]);
            at.Some? && Bears(k, source[i], twice[at.value]) && !k.differs(source[i], twice[at.value])
  {
    var once := Round(k, rows, source);
    StaysApart(k, rows, source);
    NoCreatesAgain(k, rows, source, i);
    FoundAtHome(k, once, source, i);
    LeftBears(k, once, source[i]);
    assert Plan(k, once, source)[i] == Decide(k, once, source[i]);
  }

  lemma {:induction false} SettledApplied<S, R>(k: Kind<S, R>, rows: seq<R>, source: seq<S>, n: nat)
    requires Settled(k, rows, source) && n <= |source|
    ensures Applied(k, rows, source, Plan(k, rows, source), n) == rows
  {
    if n > 0 { SettledApplied(k, rows, source, n - 1); }
  }

  /** A settled target is one a round leaves as it is. */
  lemma SettledStays<S, R>(k: Kind<S, R>, rows: seq<R>, source: seq<S>)
    requires Settled(k, rows, source)
    ensures Round(k, rows, source) == rows
  {
    SettledApplied(k, rows, source, |source|);
  }
}
