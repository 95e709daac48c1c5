/**
 * The reporting loop itself (packages/billing/src/overage.ts): one run over
 * the rows its select returned, which may be stale by the time the loop
 * reaches them. Each due row is driven through the protocol's pin, event and
 * catch-up.
 */
module OverageReport {
  import opened Common
  import opened OverageProtocol
  import opened Rungs
  import Subscription

  const DAY_MS := 86_400_000
  /** Stripe refuses meter events older than this. */
  const METER_MAX_AGE_MS := 35 * DAY_MS

  datatype Key = Key(team: nat, periodStart: int)

  /** One usage row joined with its team's billing columns, as the select read them; instants are in milliseconds. */
  datatype UsageRow = UsageRow(
    key: Key,
    plan: Plan,
    planQuota: Option<nat>,
    overageItem: Option<nat>,
    hasCustomer: bool,
    currentPeriodStart: Option<int>,
    currentPeriodEnd: Option<int>,
    moveUpPendingUntil: Option<int>,
    row: Row)

  /** The usage table and, per row, the events Stripe recorded. */
  datatype Table = Table(periods: map<Key, Row>, meter: map<Key, seq<Span>>)

  datatype Outcome = Skipped | Reported | Failed

  function MeterOf(t: Table, k: Key): seq<Span> { if k in t.meter then t.meter[k] else [] }

  function WithEvents(t: Table, k: Key, events: seq<Span>): Table
  {
    if events == MeterOf(t, k) then t else t.(meter := t.meter[k := events])
  }

  /** When the row's period ended, if it did not run past every recorded bound. */
  function PeriodEnd(u: UsageRow): Option<int>
  {
    if u.currentPeriodStart.Some? && u.key.periodStart < u.currentPeriodStart.value then u.currentPeriodStart
    else if u.currentPeriodEnd.Some? && u.key.periodStart < u.currentPeriodEnd.value then u.currentPeriodEnd
    else None
  }

  predicate Ended(u: UsageRow, now: int) { PeriodEnd(u).Some? && PeriodEnd(u).value <= now }

  /** The event's timestamp: now, or inside the period once it has ended. */
  function StampOf(u: UsageRow, now: int): (at: int)
    ensures at <= now
    ensures PeriodEnd(u).Some? && now >= PeriodEnd(u).value ==> at < PeriodEnd(u).value
    ensures PeriodEnd(u).Some? && u.key.periodStart + 1000 <= PeriodEnd(u).value && u.key.periodStart <= now
            ==> u.key.periodStart <= at < PeriodEnd(u).value
  {
    if Ended(u, now) then PeriodEnd(u).value - 1000 else now
  }

  function Included(u: UsageRow): nat
    requires !u.plan.System?
  {
    TeamRung(u.plan, u.planQuota).included
  }

  /**
   * The runner this row sets going, Idle when the loop passes it over or the
   * select, which asks for a metered item and a customer, leaves it out.
   */
  function Due(u: UsageRow, now: int, throughHold: bool): Runner
  {
    if u.overageItem.None? || !u.hasCustomer then Idle
    else if u.plan.System? || !TeamRung(u.plan, u.planQuota).monthly then Idle
    else if !Ended(u, now) && !throughHold && u.moveUpPendingUntil.Some? && u.moveUpPendingUntil.value > now then Idle
    else if now - StampOf(u, now) > METER_MAX_AGE_MS then Idle
    else Choose(u.row, Included(u))
  }

  /** One runner taking its three statements one after another on one row. */
  function Drive(row: Row, meter: seq<Span>, runner: Runner, answer: Answer): State
  {
    Run(State(row, meter, [], map[0 := runner]), [Pin(0), Send(0, answer), CatchUp(0)])
  }

  function Judge(t: Table, u: UsageRow, runner: Runner, answer: Answer): Outcome
  {
    if runner.Idle? then Skipped
    else if runner.Selected? && (u.key !in t.periods || PinRow(t.periods[u.key], runner.span).None?) then Skipped
    else if answer.Accepted? then Reported else Failed
  }

  /** What a runner that is due does to its row and to Stripe's record. */
  function DriveRow(t: Table, k: Key, runner: Runner, answer: Answer): Table
  {
    if k in t.periods then
      var s := Drive(t.periods[k], MeterOf(t, k), runner, answer);
      WithEvents(t.(periods := t.periods[k := s.row]), k, s.meter)
    else if runner.Pinned? && !answer.Refused? then
      // The row is gone; a pinned step's event still goes out.
      WithEvents(t, k, Record(MeterOf(t, k), runner.span))
    else t
  }

  function ReportRow(t: Table, u: UsageRow, now: int, throughHold: bool, answer: Answer): Table
  {
    var runner := Due(u, now, throughHold);
    if runner.Idle? then t else DriveRow(t, u.key, runner, answer)
  }

  function ReportRows(t: Table, us: seq<UsageRow>, now: int, throughHold: bool, answers: seq<Answer>): Table
    requires |answers| == |us|
  {
    if us == [] then t else
      var n := |us| - 1;
      ReportRow(ReportRows(t, us[..n], now, throughHold, answers[..n]), us[n], now, throughHold, answers[n])
  }

  /** How many rows of a run came to `outcome`. */
  function Tally(t: Table, us: seq<UsageRow>, now: int, throughHold: bool, answers: seq<Answer>, outcome: Outcome): nat
    requires |answers| == |us|
  {
    if us == [] then 0 else
      var n := |us| - 1;
      var before := ReportRows(t, us[..n], now, throughHold, answers[..n]);
      Tally(t, us[..n], now, throughHold, answers[..n], outcome)
      + if Judge(before, us[n], Due(us[n], now, throughHold), answers[n]) == outcome then 1 else 0
  }

  /** What a runner's three statements do, from whatever state the other runners left. */
  ghost predicate Drove(s: State, runner: Runner, answer: Answer, t: State)
    requires runner.Selected? || runner.Pinned?
  {
    var pinned := if runner.Pinned? then Some(s.row) else PinRow(s.row, runner.span);
    if pinned.None? then t.row == s.row && t.meter == s.meter
    else if answer.Refused? then t.row == pinned.value && t.meter == s.meter
    else t.meter == Record(s.meter, runner.span)
         && t.row == if answer.Lost? then pinned.value else CatchUpRow(pinned.value, runner.span)
  }

  lemma RunThree(s: State, a: Step, b: Step, c: Step)
    ensures Run(s, [a, b, c]) == Next(Next(Next(s, a), b), c)
  {
    var steps := [a, b, c];
    assert steps[..2] == [a, b] && steps[..2][..1] == [a] && steps[..2][..1][..0] == [];
    assert Run(s, steps[..2][..1]) == Next(s, a);
    assert Run(s, steps[..2]) == Next(Next(s, a), b);
  }

  lemma ThreeSteps(s: State, r: nat, answer: Answer)
    requires At(s, r).Selected? || At(s, r).Pinned?
    ensures Drove(s, At(s, r), answer, Run(s, [Pin(r), Send(r, answer), CatchUp(r)]))
  {
    RunThree(s, Pin(r), Send(r, answer), CatchUp(r));
    var s1 := Next(s, Pin(r));
    if At(s1, r).Pinned? {
      var s2 := Next(s1, Send(r, answer));
      assert At(s2, r) == if answer.Accepted? then Sent(At(s, r).span) else Idle;
    }
  }

  /** Driving a row is three steps of the protocol, and so keeps its invariant. */
  lemma DriveRefinesProtocol(s: State, r: nat, answer: Answer)
    requires At(s, r).Selected? || At(s, r).Pinned?
    ensures var t := Run(s, [Pin(r), Send(r, answer), CatchUp(r)]);
            var d := Drive(s.row, s.meter, At(s, r), answer);
            && t.row == d.row && t.meter == d.meter
            && (Inv(s) ==> Inv(t))
  {
    ThreeSteps(s, r, answer);
    DriveSteps(s.row, s.meter, At(s, r), answer);
    if Inv(s) {
      RunThree(s, Pin(r), Send(r, answer), CatchUp(r));
      NextKeeps(s, Pin(r));
      NextKeeps(Next(s, Pin(r)), Send(r, answer));
      NextKeeps(Next(Next(s, Pin(r)), Send(r, answer)), CatchUp(r));
    }
  }

  lemma DriveSteps(row: Row, meter: seq<Span>, runner: Runner, answer: Answer)
    requires runner.Selected? || runner.Pinned?
    ensures Drove(State(row, meter, [], map[0 := runner]), runner, answer, Drive(row, meter, runner, answer))
  {
    ThreeSteps(State(row, meter, [], map[0 := runner]), 0, answer);
  }

  // ---- Which rows are metered ----

  /** The period is over: by the start of a later one, or else by its recorded end. */
  predicate Over(u: UsageRow, now: int, end: int)
  {
    && end <= now
    && if u.currentPeriodStart.Some? && u.key.periodStart < u.currentPeriodStart.value
       then end == u.currentPeriodStart.value
       else u.currentPeriodEnd == Some(end) && u.key.periodStart < end
  }

  /** The team pays by the month, through Stripe; no move up waits on a running period; and the event is not too old. */
  ghost predicate Metered(u: UsageRow, now: int, throughHold: bool)
  {
    && u.overageItem != None && u.hasCustomer && (u.plan == Paid(Pro) || u.plan == Paid(Scale))
    && (throughHold || u.moveUpPendingUntil == None || u.moveUpPendingUntil.value <= now || exists end ::
          Over(u, now, end))
    && (forall end | Over(u, now, end) :: now - (end - 1000) <= 35 * 86_400_000)
  }

  /** The loop takes up just these rows, for what their own rung leaves uncovered, and no other. */
  lemma DueIff(u: UsageRow, now: int, throughHold: bool)
    ensures if Metered(u, now, throughHold) then Due(u, now, throughHold) == Choose(u.row, Included(u))
            else Due(u, now, throughHold) == Idle
  {
    if !u.plan.System? { MonthlyPlans(u.plan, u.planQuota); }
    if Ended(u, now) { assert Over(u, now, PeriodEnd(u).value); }
  }

  /** A row it does not take up stays as it is, and so does the meter; it is neither reported nor failed. */
  lemma PassedOver(t: Table, u: UsageRow, now: int, throughHold: bool, answer: Answer)
    requires !Metered(u, now, throughHold)
    ensures ReportRow(t, u, now, throughHold, answer) == t
    ensures Judge(t, u, Due(u, now, throughHold), answer) == Skipped
  {
    DueIff(u, now, throughHold);
  }

  /** A usage row joined with the billing columns an apply left. */
  function Joined(team: Subscription.TeamRow, key: Key, hasCustomer: bool, row: Row): UsageRow
  {
    UsageRow(key, team.plan, team.planQuota, team.overageItem, hasCustomer, team.periodStart, team.periodEnd,
             team.moveUpPendingUntil, row)
  }

  /**
   * Once a subscription is applied, what the loop leaves uncovered is the
   * volume of the rung Stripe sold, and only monthly ones.
   */
  lemma SoldIsMetered(team: Subscription.TeamRow, sub: Subscription.Sub, repair: Subscription.Repair, key: Key,
                      row: Row, now: int, throughHold: bool)
    requires Subscription.Takes(team, sub) && (sub.status.Active? || sub.status.Trialing?) && sub.rung.value in LADDER
    ensures var u := Joined(Subscription.Apply(team, sub, repair), key, true, row);
            && !u.plan.System? && Included(u) == sub.rung.value.included
            && (Metered(u, now, throughHold) ==> sub.rung.value.monthly && (sub.overage.Some? || repair.Some?))
            && (throughHold && (forall end :: !Over(u, now, end)) ==>
                  (Metered(u, now, throughHold) <==>
                     sub.rung.value.monthly && (sub.overage.Some? || repair.Some?)))
  {
    var after := Subscription.Apply(team, sub, repair);
    Subscription.ActiveRow(team, sub, repair);
    MonthlyPlans(after.plan, after.planQuota);
  }

  // ---- Progress ----

  /** The row is read fresh, and the loop takes such a row up. */
  ghost predicate ReadFresh(t: Table, u: UsageRow, now: int, throughHold: bool)
  {
    u.key in t.periods && u.row == t.periods[u.key] && Metered(u, now, throughHold)
  }

  /** Where the counter is to go: to the open pin, or to what is accepted past the volume. */
  function Goal(u: UsageRow): int
    requires !u.plan.System?
  {
    if u.row.pending.Some? then u.row.pending.value else u.row.accepted - Included(u)
  }

  /**
   * One run, whatever Stripe answers. With nothing past the counter nothing
   * happens. Otherwise an event for just what is past it goes out unless it
   * is refused, once; the counter follows if Stripe accepts it; if not, the
   * pin stays for the next run, and the row counts as failed.
   */
  lemma OneAttempt(t: Table, u: UsageRow, now: int, throughHold: bool, answer: Answer)
    requires ReadFresh(t, u, now, throughHold)
    ensures var after := ReportRow(t, u, now, throughHold, answer);
            var outcome := Judge(t, u, Due(u, now, throughHold), answer);
            var from, to := u.row.reported, Goal(u);
            var meter := MeterOf(t, u.key);
            if to <= from then after == t && outcome == Skipped
            else
              && after.periods == t.periods[u.key :=
                   if answer == Accepted then Row(u.row.accepted, to, None) else Row(u.row.accepted, from, Some(to))]
              && MeterOf(after, u.key) == (if answer == Refused || Span(from, to) in meter then meter
                                           else meter + [Span(from, to)])
              && (forall k | k != u.key :: MeterOf(after, k) == MeterOf(t, k))
              && outcome == (if answer == Accepted then Reported else Failed)
  {
    DueIff(u, now, throughHold);
    var runner := Choose(u.row, Included(u));
    if !runner.Idle? { DriveSteps(u.row, MeterOf(t, u.key), runner, answer); }
  }

  /** One complete run finishes an open pin, or, with none, brings the row to what is accepted past the volume. */
  lemma OneRun(t: Table, u: UsageRow, now: int, throughHold: bool)
    requires ReadFresh(t, u, now, throughHold)
    ensures var after := ReportRow(t, u, now, throughHold, Accepted);
            && u.key in after.periods
            && after.periods[u.key] ==
               match u.row.pending
               case Some(to) => if to <= u.row.reported then u.row else u.row.(reported := to, pending := None)
               case None => u.row.(reported := Max(u.row.reported, u.row.accepted - Included(u)))
  {
    OneAttempt(t, u, now, throughHold, Accepted);
  }

  /**
   * Two complete runs with no other writer, no hold and no Stripe failure end
   * with no pin, at the largest of the old counter, the old pin and what is
   * accepted past the volume, if and only if an open pin was above the
   * counter. A pin at or below it is never picked up again.
   */
  lemma TwoRunsSettle(t: Table, u: UsageRow, v: UsageRow, now: int, throughHold: bool)
    requires ReadFresh(t, u, now, throughHold)
    requires u.key == v.key && u.plan == v.plan && u.planQuota == v.planQuota
    requires ReadFresh(ReportRow(t, u, now, throughHold, Accepted), v, now, throughHold)
    ensures var once := ReportRow(t, u, now, throughHold, Accepted);
            var twice := ReportRow(once, v, now, throughHold, Accepted);
            var pin := u.row.pending;
            var due := Max(u.row.reported, u.row.accepted - Included(u));
            && u.key in twice.periods
            && (twice.periods[u.key].pending.None? <==> (pin.Some? ==> u.row.reported < pin.value))
            && ((pin.Some? ==> u.row.reported < pin.value) ==>
                  twice.periods[u.key].reported == if pin.Some? then Max(pin.value, due) else due)
            && (pin.Some? && pin.value <= u.row.reported ==> twice.periods[u.key] == u.row)
  {
    OneRun(t, u, now, throughHold);
    OneRun(ReportRow(t, u, now, throughHold, Accepted), v, now, throughHold);
  }

  /** Read stale, a row is pinned only if no one moved it; what becomes of the event is then the same. */
  lemma StaleRead(t: Table, u: UsageRow, now: int, throughHold: bool, answer: Answer)
    requires Metered(u, now, throughHold) && u.row.pending == None && u.row.accepted - Included(u) > u.row.reported
    requires u.key !in t.periods || t.periods[u.key].reported != u.row.reported || t.periods[u.key].pending != None
    ensures ReportRow(t, u, now, throughHold, answer) == t
    ensures Judge(t, u, Due(u, now, throughHold), answer) == Skipped
  {
    DueIff(u, now, throughHold);
    if u.key in t.periods {
      DriveSteps(t.periods[u.key], MeterOf(t, u.key), Choose(u.row, Included(u)), answer);
      assert t.periods[u.key := t.periods[u.key]] == t.periods;
    }
  }

  /**
   * A pin read before someone else moved on: the event goes out again, and the
   * row follows only if it still stands there.
   */
  lemma StalePin(t: Table, u: UsageRow, now: int, throughHold: bool, answer: Answer)
    requires Metered(u, now, throughHold) && u.row.pending != None && u.row.pending.value > u.row.reported
    ensures var after := ReportRow(t, u, now, throughHold, answer);
            var span := Span(u.row.reported, u.row.pending.value);
            var meter := MeterOf(t, u.key);
            && after.periods == (if answer == Accepted && u.key in t.periods && t.periods[u.key].reported == span.from
                                 then t.periods[u.key := Row(t.periods[u.key].accepted, span.to, None)] else t.periods)
            && MeterOf(after, u.key) == (if answer == Refused || span in meter then meter else meter + [span])
            && (forall k | k != u.key :: MeterOf(after, k) == MeterOf(t, k))
            && Judge(t, u, Due(u, now, throughHold), answer) == (if answer == Accepted then Reported else Failed)
  {
    DueIff(u, now, throughHold);
    if u.key in t.periods {
      DriveSteps(t.periods[u.key], MeterOf(t, u.key), Choose(u.row, Included(u)), answer);
      assert t.periods[u.key := t.periods[u.key]] == t.periods;
    }
  }

  /** Every row of a run counts once. */
  lemma {:induction false} TallySums(t: Table, us: seq<UsageRow>, now: int, throughHold: bool, answers: seq<Answer>)
    requires |answers| == |us|
    ensures Tally(t, us, now, throughHold, answers, Skipped) + Tally(t, us, now, throughHold, answers, Reported)
            + Tally(t, us, now, throughHold, answers, Failed) == |us|
  {
    if us != [] { TallySums(t, us[..|us| - 1], now, throughHold, answers[..|us| - 1]); }
  }

  class Reporter {
    var periods: map<Key, Row>
    var meter: map<Key, seq<Span>>

    ghost function View(): Table reads this { Table(periods, meter) }

    /** `answers[i]` is what becomes of the event of row i, if the loop sends one. */
    method ReportOverage(us: seq<UsageRow>, now: int, throughHold: bool, answers: seq<Answer>)
      returns (reported: nat, failed: nat)
      requires |answers| == |us|
      modifies this
      ensures View() == ReportRows(old(View()), us, now, throughHold, answers)
      ensures reported == Tally(old(View()), us, now, throughHold, answers, Reported)
      ensures failed == Tally(old(View()), us, now, throughHold, answers, Failed)
    {
      reported, failed := 0, 0;
      for i := 0 to |us|
        invariant View() == ReportRows(old(View()), us[..i], now, throughHold, answers[..i])
        invariant reported == Tally(old(View()), us[..i], now, throughHold, answers[..i], Reported)
        invariant failed == Tally(old(View()), us[..i], now, throughHold, answers[..i], Failed)
      {
        var outcome := ReportUsageRow(us[i], now, throughHold, answers[i]);
        if outcome == Reported { reported := reported + 1; }
        if outcome == Failed { failed := failed + 1; }
        assert us[..i + 1][..i] == us[..i] && answers[..i + 1][..i] == answers[..i];
      }
      assert us[..|us|] == us && answers[..|us|] == answers;
    }

    method ReportUsageRow(u: UsageRow, now: int, throughHold: bool, answer: Answer) returns (outcome: Outcome)
      modifies this
      ensures View() == ReportRow(old(View()), u, now, throughHold, answer)
      ensures outcome == Judge(old(View()), u, Due(u, now, throughHold), answer)
    {
      if u.overageItem.None? || !u.hasCustomer { return Skipped; }
      if u.plan.System? { return Skipped; }
      var rung := TeamRung(u.plan, u.planQuota);
      if !rung.monthly { return Skipped; }
      var from := u.row.reported;
      var to := if u.row.pending.Some? then u.row.pending.value else u.row.accepted - rung.included;
      if to <= from { return Skipped; }
      var at := StampOf(u, now);
      var running := !Ended(u, now);
      if running && !throughHold && u.moveUpPendingUntil.Some? && u.moveUpPendingUntil.value > now { return Skipped; }
      if now - at > METER_MAX_AGE_MS { return Skipped; }
      outcome := ReportStep(u, from, to, Due(u, now, throughHold), answer);
    }

    /** The pin, the event and the catch-up of a row that is due. */
    method ReportStep(u: UsageRow, from: int, to: int, ghost runner: Runner, answer: Answer) returns (outcome: Outcome)
      requires runner == if u.row.pending.Some? then Pinned(Span(from, to)) else Selected(Span(from, to))
      modifies this
      ensures View() == DriveRow(old(View()), u.key, runner, answer)
      ensures outcome == Judge(old(View()), u, runner, answer)
    {
      var span := Span(from, to);
      if u.key in periods { DriveSteps(periods[u.key], MeterOf(View(), u.key), runner, answer); }
      if u.row.pending.None? {
        if u.key !in periods { return Skipped; }
        var row := periods[u.key];
        if row.reported != from || row.pending.Some? {
          assert periods[u.key := row] == periods;
          return Skipped;
        }
        periods := periods[u.key := row.(pending := Some(to))];
      }
      if answer.Refused? {
        if u.key in periods {
          assert periods[u.key := periods[u.key]] == periods;
        }
        return Failed;
      }
      var events := if u.key in meter then meter[u.key] else [];
      if span !in events { meter := meter[u.key := events + [span]]; }
      if answer.Lost? {
        if u.key in periods { assert periods[u.key := periods[u.key]] == periods; }
        return Failed;
      }
      if u.key in periods && periods[u.key].reported == from {
        periods := periods[u.key := periods[u.key].(reported := to, pending := None)];
      } else if u.key in periods {
        assert periods[u.key := periods[u.key]] == periods;
      }
      outcome := Reported;
    }
  }
}
