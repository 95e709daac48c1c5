/**
 * The writers of the billing columns that take no lock
 * (packages/billing/src/subscription.ts): `endMoveUpWait` clears the hold of a
 * move up, `endSubscription` clears the plan. Either may fall between any two
 * steps of the locked transactions, and what it overwrites is not fetched
 * again before the next of them.
 */
module Unlocked {
  import opened Common
  import opened Rungs
  import opened Subscription
  import opened Webhook

  /** Everything written to the row, in order. */
  datatype Write = Applied(commit: Commit) | WaitEnded | PlanEnded

  /** `s` is the locked transactions with their own history; `row` and `trail` have the other writes too. */
  datatype World = World(s: State, row: TeamRow, trail: seq<Write>)

  datatype Act = Under(step: Step) | EndWait | EndPlan

  const CLEARED := FRESH.(planStatus := OnPlan(Canceled))

  function Written(row: TeamRow, w: Write): TeamRow
  {
    match w
    case Applied(c) => Apply(row, c.visit.seen, c.visit.repair)
    case WaitEnded => row.(moveUpPendingUntil := None)
    case PlanEnded => CLEARED
  }

  function Wrote(w: World, write: Write): World { w.(row := Written(w.row, write), trail := w.trail + [write]) }

  /** The end of a wait clears the hold alone; the end of a plan clears every billing column. */
  lemma UnlockedWrites(row: TeamRow)
    ensures var waited := Written(row, WaitEnded);
            && waited.moveUpPendingUntil == None && waited.plan == row.plan && waited.planQuota == row.planQuota
            && waited.planStatus == row.planStatus && waited.subscription == row.subscription
            && waited.overageItem == row.overageItem && waited.pendingRung == row.pendingRung
            && waited.periodStart == row.periodStart && waited.periodEnd == row.periodEnd
            && waited.cancelAt == row.cancelAt
    ensures var ended := Written(row, PlanEnded);
            && ended.plan == Free && ended.planQuota == None && ended.planStatus == OnPlan(Canceled)
            && ended.subscription == None && ended.overageItem == None && ended.pendingRung == None
            && ended.moveUpPendingUntil == None && ended.periodStart == None && ended.periodEnd == None
            && ended.cancelAt == None
  {
  }

  /** No step of a locked transaction looks at the row before it applies what it fetched to it. */
  ghost function Do(w: World, act: Act): World
  {
    match act
    case EndWait => Wrote(w, WaitEnded)
    case EndPlan => Wrote(w, PlanEnded)
    case Under(step) =>
      var n := Next(w.s, step);
      if |n.history| > |w.s.history| then Wrote(w, Applied(n.history[|n.history| - 1])).(s := n) else w.(s := n)
  }

  ghost function RunAll(w: World, acts: seq<Act>): World
  {
    if acts == [] then w else Do(RunAll(w, acts[..|acts| - 1]), acts[|acts| - 1])
  }

  function Start(row: TeamRow): World { World(Init(row), row, []) }

  ghost predicate AdmittedAll(acts: seq<Act>, admits: Payloads)
  {
    forall a | a in acts && a.Under? && a.step.Emit? :: admits(a.step.about, a.step.hasCustomer)
  }

  // ---- The trail ----

  function Rewrite(row: TeamRow, trail: seq<Write>): TeamRow
  {
    if trail == [] then row else Written(Rewrite(row, trail[..|trail| - 1]), trail[|trail| - 1])
  }

  /** The locked applies among the writes. */
  function Commits(trail: seq<Write>): seq<Commit>
  {
    if trail == [] then [] else
      var front, last := Commits(trail[..|trail| - 1]), trail[|trail| - 1];
      if last.Applied? then front + [last.commit] else front
  }

  lemma {:induction false} RewriteSplit(row: TeamRow, a: seq<Write>, b: seq<Write>)
    ensures Rewrite(row, a + b) == Rewrite(Rewrite(row, a), b)
  {
    if b == [] {
      assert a + b == a;
    } else {
      RewriteSplit(row, a, b[..|b| - 1]);
      assert (a + b)[..|a + b| - 1] == a + b[..|b| - 1];
    }
  }

  lemma {:induction false} CommitsSplit(a: seq<Write>, b: seq<Write>)
    ensures Commits(a + b) == Commits(a) + Commits(b)
  {
    if b == [] {
      assert a + b == a;
    } else {
      CommitsSplit(a, b[..|b| - 1]);
      assert (a + b)[..|a + b| - 1] == a + b[..|b| - 1];
    }
  }

  lemma {:induction false} CommitsHave(trail: seq<Write>, c: Commit)
    ensures Applied(c) in trail <==> c in Commits(trail)
  {
    if trail != [] {
      CommitsHave(trail[..|trail| - 1], c);
      assert trail == trail[..|trail| - 1] + [trail[|trail| - 1]];
    }
  }

  /** The row is what all the writes make of the first, and the locked ones are the transactions'. */
  ghost predicate Follows(w: World, start: TeamRow)
  {
    w.row == Rewrite(start, w.trail) && Commits(w.trail) == w.s.history
  }

  ghost predicate Sound(w: World, start: TeamRow) { Inv(w.s) && Named(w.s) && Follows(w, start) }

  lemma HistoryGrows(s: State, step: Step)
    ensures var n := Next(s, step).history;
            n == s.history || (|n| == |s.history| + 1 && n[..|s.history|] == s.history)
  {
  }

  lemma WroteFollows(w: World, start: TeamRow, write: Write)
    requires w.row == Rewrite(start, w.trail)
    ensures Wrote(w, write).row == Rewrite(start, Wrote(w, write).trail)
    ensures Commits(Wrote(w, write).trail) == Commits(w.trail) + if write.Applied? then [write.commit] else []
  {
    assert (w.trail + [write])[..|w.trail|] == w.trail;
  }

  lemma DoFollows(w: World, start: TeamRow, act: Act)
    requires Follows(w, start)
    ensures Follows(Do(w, act), start)
  {
    match act
    case EndWait => WroteFollows(w, start, WaitEnded);
    case EndPlan => WroteFollows(w, start, PlanEnded);
    case Under(step) =>
      var n := Next(w.s, step).history;
      HistoryGrows(w.s, step);
      if |n| > |w.s.history| {
        WroteFollows(w, start, Applied(n[|n| - 1]));
        assert n == w.s.history + [n[|n| - 1]];
      }
  }

  lemma DoLocked(w: World, act: Act)
    requires Inv(w.s) && Named(w.s)
    requires act.Under? && act.step.Emit? ==> act.step.hasCustomer || act.step.about.None?
    ensures Inv(Do(w, act).s) && Named(Do(w, act).s)
  {
    if act.Under? {
      NextKeeps(w.s, act.step);
      NamedKept(w.s, act.step);
    }
  }

  lemma {:induction false} RunSound(row: TeamRow, acts: seq<Act>, admits: Payloads)
    requires NamesCustomers(admits) && AdmittedAll(acts, admits)
    ensures Sound(RunAll(Start(row), acts), row)
  {
    if acts == [] {
      InitOk(row);
    } else {
      var n := |acts| - 1;
      RunSound(row, acts[..n], admits);
      assert acts[n] in acts;
      if acts[n].Under? && acts[n].step.Emit? && acts[n].step.about.Some? {
        assert admits(acts[n].step.about, acts[n].step.hasCustomer);
      }
      DoFollows(RunAll(Start(row), acts[..n]), row, acts[n]);
      DoLocked(RunAll(Start(row), acts[..n]), acts[n]);
    }
  }

  // ---- What the unlocked writes leave of the row ----

  /** The p-th write applied `e`, fetched after Stripe's last change. */
  predicate SeenAt(w: World, e: nat, p: nat)
  {
    p < |w.trail| && w.trail[p].Applied? && w.trail[p].commit.clock == w.s.clock
    && w.trail[p].commit.visit.seen.id == e
  }

  /** A write that leaves the row of the one entitled subscription as it is. */
  predicate Harmless(w: Write, e: Sub)
  {
    match w
    case Applied(_) => true
    case WaitEnded => Stamp(e.pendingUntil).None?
    case PlanEnded => false
  }

  predicate Stands(w: World, e: nat, p: nat)
    requires e in w.s.subs
  {
    forall q | p < q < |w.trail| :: Harmless(w.trail[q], w.s.subs[e])
  }

  /** Only states of other subscriptions, not entitled, are applied. */
  predicate Others(trail: seq<Write>, e: Sub)
  {
    forall w | w in trail && w.Applied? :: !Entitled(w.commit.visit.seen) && w.commit.visit.seen.id != e.id
  }

  /**
   * From the row of the one entitled subscription: an ended plan does not come
   * back, and a hold that was cleared neither.
   */
  lemma {:induction false} TailLeaves(e: Sub, tail: seq<Write>)
    requires Settled(e) && Others(tail, e)
    ensures var row := Rewrite(SoloRow(e), tail);
            if PlanEnded in tail then !row.plan.Paid?
            else row == SoloRow(e).(
              moveUpPendingUntil := if WaitEnded in tail then None else SoloRow(e).moveUpPendingUntil)
  {
    SettledOverwrites(FRESH, e, None);
    if tail != [] {
      var n := |tail| - 1;
      TailLeaves(e, tail[..n]);
      assert tail == tail[..n] + [tail[n]] && tail[n] in tail;
    }
  }

  lemma TailStandsIff(e: Sub, tail: seq<Write>)
    requires Settled(e) && Others(tail, e)
    ensures Rewrite(SoloRow(e), tail) == SoloRow(e) <==> forall w | w in tail :: Harmless(w, e)
  {
    TailLeaves(e, tail);
    SettledOverwrites(FRESH, e, None);
    assert SoloRow(e).moveUpPendingUntil == Stamp(e.pendingUntil);
  }

  lemma {:induction false} NotSystem(row: TeamRow, trail: seq<Write>)
    requires !row.plan.System?
    ensures !Rewrite(row, trail).plan.System?
  {
    if trail != [] { NotSystem(row, trail[..|trail| - 1]); }
  }

  /** The last time the one entitled subscription was seen, if it was. */
  function LastSeen(w: World, e: nat, n: nat): (p: Option<nat>)
    requires n <= |w.trail|
    ensures p.Some? ==> p.value < n && SeenAt(w, e, p.value) && forall q | p.value < q < n :: !SeenAt(w, e, q)
    ensures p.None? ==> forall q | 0 <= q < n :: !SeenAt(w, e, q)
  {
    if n == 0 then None else if SeenAt(w, e, n - 1) then Some(n - 1) else LastSeen(w, e, n - 1)
  }

  /** Locked applies stand in the history in the order they were written. */
  lemma InOrder(trail: seq<Write>, p: nat, q: nat) returns (i: nat, j: nat)
    requires p < q < |trail| && trail[p].Applied? && trail[q].Applied?
    ensures i < j < |Commits(trail)|
    ensures Commits(trail)[i] == trail[p].commit && Commits(trail)[j] == trail[q].commit
  {
    var a, b := trail[..p + 1], trail[p + 1..];
    assert trail == a + b && b[q - p - 1] == trail[q] && a[..p] == trail[..p];
    CommitsSplit(a, b);
    CommitsHave(b, trail[q].commit);
    var x :| 0 <= x < |Commits(b)| && Commits(b)[x] == trail[q].commit;
    i, j := |Commits(a)| - 1, |Commits(a)| + x;
  }

  /** After it, only states of others were applied: under one lock, fetched states do not go back. */
  lemma LaterOthers(w: World, e: nat, p: nat, q: nat)
    requires Inv(w.s) && OneLock(w.s.history) && Commits(w.trail) == w.s.history
    requires OneEntitled(w.s, e) && SeenAt(w, e, p) && p < q < |w.trail|
    requires w.trail[q].Applied? && !SeenAt(w, e, q)
    ensures var seen := w.trail[q].commit.visit.seen; !Entitled(seen) && seen.id != e
  {
    var i, j := InOrder(w.trail, p, q);
    assert w.s.history[i] in w.s.history && w.s.history[j] in w.s.history;
    assert w.s.history[i].clock <= w.s.history[j].clock <= w.s.clock;
    QuietVisit(w.s, e, j);
  }

  lemma OthersAfter(w: World, start: TeamRow, e: nat, p: nat)
    requires Sound(w, start) && OneEntitled(w.s, e) && SeenAt(w, e, p)
    requires forall q | p < q < |w.trail| :: !SeenAt(w, e, q)
    ensures Others(w.trail[p + 1..], w.s.subs[e])
  {
    var tail := w.trail[p + 1..];
    forall x | x in tail && x.Applied? ensures !Entitled(x.commit.visit.seen) && x.commit.visit.seen.id != e {
      var k :| 0 <= k < |tail| && tail[k] == x;
      LaterOthers(w, e, p, p + 1 + k);
    }
  }

  /** At the write that applied it, the row is its own, whatever was written before. */
  lemma SeenDecides(w: World, start: TeamRow, e: nat, p: nat)
    requires Sound(w, start) && !start.plan.System? && OneEntitled(w.s, e) && SeenAt(w, e, p)
    ensures Rewrite(start, w.trail[..p + 1]) == SoloRow(w.s.subs[e])
  {
    var c := w.trail[p].commit;
    CommitsHave(w.trail, c);
    assert w.trail[p] in w.trail;
    var i :| 0 <= i < |w.s.history| && w.s.history[i] == c;
    QuietVisit(w.s, e, i);
    NotSystem(start, w.trail[..p]);
    SettledOverwrites(Rewrite(start, w.trail[..p]), w.s.subs[e], c.visit.repair);
    assert w.trail[..p + 1][..p] == w.trail[..p];
  }

  lemma TailHarmless(w: World, e: nat, p: nat)
    requires e in w.s.subs && p < |w.trail|
    ensures (forall x | x in w.trail[p + 1..] :: Harmless(x, w.s.subs[e])) <==> Stands(w, e, p)
  {
    forall q | p < q < |w.trail| ensures w.trail[q] in w.trail[p + 1..] {
      assert w.trail[p + 1..][q - p - 1] == w.trail[q];
    }
  }

  lemma StandsAt(w: World, start: TeamRow, e: nat, p: nat)
    requires Sound(w, start) && !start.plan.System? && OneEntitled(w.s, e) && SeenAt(w, e, p)
    requires forall q | p < q < |w.trail| :: !SeenAt(w, e, q)
    ensures w.row == SoloRow(w.s.subs[e]) <==> Stands(w, e, p)
  {
    var front, tail := w.trail[..p + 1], w.trail[p + 1..];
    SeenDecides(w, start, e, p);
    OthersAfter(w, start, e, p);
    assert w.trail == front + tail;
    RewriteSplit(start, front, tail);
    TailStandsIff(w.s.subs[e], tail);
    TailHarmless(w, e, p);
  }

  /**
   * With the unlocked writers, once Stripe stands still with one entitled
   * subscription fetched and applied since, the row is the one it alone gives
   * if and only if after one such apply no plan was ended, and no wait either
   * unless there was none to end.
   */
  lemma ConvergesUnlockedIff(row: TeamRow, acts: seq<Act>, admits: Payloads, e: nat)
    requires !row.plan.System? && NamesCustomers(admits) && AdmittedAll(acts, admits)
    requires var w := RunAll(Start(row), acts); OneEntitled(w.s, e) && exists p: nat :: SeenAt(w, e, p)
    ensures var w := RunAll(Start(row), acts);
            w.row == SoloRow(w.s.subs[e]) <==> exists p: nat :: SeenAt(w, e, p) && Stands(w, e, p)
  {
    var w := RunAll(Start(row), acts);
    RunSound(row, acts, admits);
    var last := LastSeen(w, e, |w.trail|).value;
    StandsAt(w, row, e, last);
    if p: nat :| SeenAt(w, e, p) && Stands(w, e, p) { assert p <= last; }
  }

  function UnderAll(steps: seq<Step>): (acts: seq<Act>)
    ensures |acts| == |steps|
  {
    seq(|steps|, i requires 0 <= i < |steps| => Under(steps[i]))
  }

  /** Steps that apply nothing. */
  lemma {:induction false} RunUnder(row: TeamRow, steps: seq<Step>)
    requires Run(Init(row), steps).history == []
    ensures RunAll(Start(row), UnderAll(steps)) == World(Run(Init(row), steps), row, [])
  {
    if steps != [] {
      var n := |steps| - 1;
      HistoryGrows(Run(Init(row), steps[..n]), steps[n]);
      RunUnder(row, steps[..n]);
      assert UnderAll(steps)[..n] == UnderAll(steps[..n]);
    }
  }

  lemma RunAllAppend(w: World, acts: seq<Act>, act: Act)
    ensures RunAll(w, acts + [act]) == Do(RunAll(w, acts), act)
  {
    assert (acts + [act])[..|acts|] == acts;
  }

  function OneFetched(row: TeamRow, e: Sub): State
  {
    State(1, map[e.id := e], map[], {}, map[0 := Fetched(ApplyLocked(e.id), OfCustomer, e, 1)],
          map[OfCustomer := 0], row, row, [])
  }

  function FetchActs(e: Sub): (acts: seq<Act>)
    ensures forall a | a in acts :: a.Under? && !a.step.Emit?
  {
    UnderAll([Change(e), Begin(0, ApplyLocked(e.id)), Step.Lock(0), Fetch(0, None)])
  }

  lemma OneFetch(row: TeamRow, e: Sub)
    ensures RunAll(Start(row), FetchActs(e)) == World(OneFetched(row, e), row, [])
  {
    FirstFetches(row, e);
    RunUnder(row, [Change(e), Begin(0, ApplyLocked(e.id)), Step.Lock(0), Fetch(0, None)]);
  }

  lemma OneApply(row: TeamRow, e: Sub)
    ensures var w := Do(World(OneFetched(row, e), row, []), Under(Finish(0, None)));
            && w.s.clock == 1 && w.s.subs == map[e.id := e] && w.s.txs == map[]
            && w.trail == [Applied(Commit(OfCustomer, 1, Visit(e, None)))]
  {
    var s := OneFetched(row, e);
    var n := Next(s, Finish(0, None));
    assert n.history == [Commit(OfCustomer, 1, Visit(e, None))];
  }

  /**
   * `endSubscription` may look before the subscription that its write then
   * takes from the row came to be: the team stays without a plan although the
   * one entitled subscription was fetched and applied since Stripe's last
   * change.
   */
  lemma EndedThoughEntitled(row: TeamRow, e: Sub) returns (acts: seq<Act>)
    requires !row.plan.System? && Settled(e)
    ensures forall a | a in acts && a.Under? :: !a.step.Emit?
    ensures var w := RunAll(Start(row), acts);
            && OneEntitled(w.s, e.id) && w.s.subs[e.id] == e && SeenAt(w, e.id, 0) && w.s.txs == map[]
            && w.row.plan == Free && w.row.planQuota == None && w.row.planStatus == OnPlan(Canceled)
            && w.row.subscription == None && w.row.overageItem == None && w.row.pendingRung == None
            && w.row.moveUpPendingUntil == None
  {
    var finish := Under(Finish(0, None));
    OneFetch(row, e);
    OneApply(row, e);
    RunAllAppend(Start(row), FetchActs(e), finish);
    RunAllAppend(Start(row), FetchActs(e) + [finish], EndPlan);
    acts := FetchActs(e) + [finish] + [EndPlan];
    var w := RunAll(Start(row), acts);
    assert w.s == Do(World(OneFetched(row, e), row, []), finish).s;
    assert w.trail == [Applied(Commit(OfCustomer, 1, Visit(e, None))), PlanEnded];
  }
}
