/**
 * What a subscription fetched from Stripe makes of its team's billing columns
 * (packages/billing/src/subscription.ts).
 */
module Subscription {
  import opened Common
  import opened Rungs

  datatype Status =
    | Active | Trialing | PastDue | Unpaid | Canceled | Incomplete  // statuses the team row also has
    | IncompleteExpired | Paused

  datatype PlanStatus = NoneYet | OnPlan(status: Status)

  /** The metered item; `rung` is the rung its price belongs to. */
  datatype Item = Item(id: nat, rung: Option<nat>)

  /**
   * A subscription as retrieved: `rung` from its plan item, `schedule` the
   * rung of a schedule's last phase, instants in seconds.
   */
  datatype Sub = Sub(
    id: nat,
    status: Status,
    rung: Option<PaidRung>,
    overage: Option<Item>,
    schedule: Option<nat>,
    pendingUntil: Option<int>,
    periodStart: Option<int>,
    periodEnd: Option<int>,
    cancelAt: Option<int>)

  datatype TeamRow = TeamRow(
    plan: Plan,
    planQuota: Option<nat>,
    planStatus: PlanStatus,
    subscription: Option<nat>,
    overageItem: Option<nat>,
    pendingRung: Option<nat>,
    moveUpPendingUntil: Option<int>,
    periodStart: Option<int>,
    periodEnd: Option<int>,
    cancelAt: Option<int>)

  /** What Stripe answers when a missing metered item is added: its id, or a failure. */
  type Repair = Option<nat>

  predicate Entitled(sub: Sub) { sub.status.Active? || sub.status.Trialing? }

  function PlanStatusOf(status: Status): PlanStatus
  {
    match status
    case IncompleteExpired => OnPlan(Incomplete)
    case Paused => OnPlan(Canceled)
    case other => OnPlan(other)
  }

  function Stamp(seconds: Option<int>): Option<int>
  {
    if seconds.None? || seconds.value == 0 then None else Some(seconds.value * 1000)
  }

  function PendingRung(sub: Sub): Option<nat>
  {
    if sub.schedule.Some? && sub.rung.Some? && sub.schedule.value == sub.rung.value.key then None else sub.schedule
  }

  /** The metered item's id once a missing one has been asked for. */
  function OverageItem(sub: Sub, repair: Repair): Option<nat>
  {
    if sub.overage.Some? then Some(sub.overage.value.id)
    else if Entitled(sub) && sub.rung.Some? && sub.rung.value.monthly then repair else None
  }

  /** A fetched state the row does not take: Stripe's state of another, current subscription stands. */
  predicate Ignored(row: TeamRow, sub: Sub)
  {
    || row.plan.System?
    || (!Entitled(sub) && row.subscription.Some? && row.subscription.value != sub.id)
    || (Entitled(sub) && sub.rung.None?)
  }

  function Apply(row: TeamRow, sub: Sub, repair: Repair): TeamRow
  {
    if Ignored(row, sub) then row else
      var entitled := Entitled(sub);
      var plan := if entitled then sub.rung.value.plan else if sub.status.PastDue? then row.plan else Free;
      var quota :=
        if entitled then (if sub.rung.value.monthly then Some(sub.rung.value.included) else None)
        else if sub.status.PastDue? then row.planQuota else None;
      var item := if entitled || sub.status.PastDue? then OverageItem(sub, repair) else None;
      TeamRow(plan, quota, PlanStatusOf(sub.status), Some(sub.id), item,
              if entitled then PendingRung(sub) else None,
              Stamp(sub.pendingUntil), Stamp(sub.periodStart), Stamp(sub.periodEnd), Stamp(sub.cancelAt))
  }

  /** Nothing is left for an apply to repair at Stripe. */
  predicate Settled(sub: Sub)
  {
    Entitled(sub) && sub.rung.Some? &&
    (sub.rung.value.monthly ==> sub.overage.Some? && sub.overage.value.rung == Some(sub.rung.value.key))
  }

  const FRESH := TeamRow(Free, None, NoneYet, None, None, None, None, None, None, None)

  /** The row a subscription gives a team that never had another. */
  function SoloRow(sub: Sub): TeamRow { Apply(FRESH, sub, None) }

  /** Fetched states applied one after another, as the customer lock orders them. */
  datatype Visit = Visit(seen: Sub, repair: Repair)

  function Replay(row: TeamRow, visits: seq<Visit>): TeamRow
  {
    if visits == [] then row else
      var n := |visits| - 1;
      Apply(Replay(row, visits[..n]), visits[n].seen, visits[n].repair)
  }

  /** An entitled subscription leaves nothing of what was there before it. */
  lemma SettledOverwrites(row: TeamRow, sub: Sub, repair: Repair)
    requires Settled(sub) && !row.plan.System?
    ensures Apply(row, sub, repair) == SoloRow(sub)
    ensures SoloRow(sub).subscription == Some(sub.id) && SoloRow(sub).plan.Paid?
  {
  }

  lemma {:induction false} NeverSystem(row: TeamRow, visits: seq<Visit>)
    ensures Replay(row, visits).plan.System? <==> row.plan.System?
    ensures row.plan.System? ==> Replay(row, visits) == row
  {
    if visits != [] { NeverSystem(row, visits[..|visits| - 1]); }
  }

  /**
   * Confluence: when Stripe stands still with one entitled subscription, any
   * order and repetition of applies that includes it ends in the row it alone
   * would give.
   */
  lemma {:induction false} Confluence(row: TeamRow, visits: seq<Visit>, e: Sub)
    requires !row.plan.System? && Settled(e)
    requires forall v | v in visits :: v.seen == e || (!Entitled(v.seen) && v.seen.id != e.id)
    requires exists v | v in visits :: v.seen == e
    ensures Replay(row, visits) == SoloRow(e)
  {
    var n := |visits| - 1;
    var before := Replay(row, visits[..n]);
    NeverSystem(row, visits[..n]);
    var last := visits[n];
    assert last in visits;
    if last.seen == e {
      SettledOverwrites(before, e, last.repair);
    } else {
      var v :| v in visits && v.seen == e;
      assert v in visits[..n];
      Confluence(row, visits[..n], e);
      SettledOverwrites(row, e, None);
    }
  }

  /** One entitled subscription is what it takes: with two, or with none on a fresh row, the order shows. */
  lemma OrderShowsOtherwise(row: TeamRow, a: Visit, b: Visit)
    requires !row.plan.System? && a.seen.id != b.seen.id
    requires (Settled(a.seen) && Settled(b.seen))
             || (!Entitled(a.seen) && !Entitled(b.seen) && row.subscription.None?)
    ensures Replay(row, [a, b]) != Replay(row, [b, a])
  {
    ReplayTwo(row, a, b);
    ReplayTwo(row, b, a);
  }

  lemma ReplayTwo(row: TeamRow, a: Visit, b: Visit)
    ensures Replay(row, [a, b]) == Apply(Apply(row, a.seen, a.repair), b.seen, b.repair)
  {
    var ab := [a, b];
    assert ab[..1] == [a] && ab[..1][..0] == [];
    assert Replay(row, ab[..1]) == Apply(row, a.seen, a.repair);
  }

  lemma {:induction false} ReplaySplit(row: TeamRow, xs: seq<Visit>, ys: seq<Visit>)
    ensures Replay(row, xs + ys) == Replay(Replay(row, xs), ys)
  {
    if ys == [] {
      assert xs + ys == xs;
    } else {
      var n := |ys| - 1;
      ReplaySplit(row, xs, ys[..n]);
      assert (xs + ys)[..|xs| + n] == xs + ys[..n];
    }
  }

  // ---- What the row says of the subscription ----

  /** An instant of the row, in milliseconds, is one of the subscription's, in seconds; a zero is none. */
  predicate Instant(ms: Option<int>, seconds: Option<int>)
  {
    if ms == None then seconds == None || seconds == Some(0)
    else seconds != None && seconds != Some(0) && ms == Some(1000 * seconds.value)
  }

  predicate Dated(row: TeamRow, sub: Sub)
  {
    && Instant(row.periodStart, sub.periodStart) && Instant(row.periodEnd, sub.periodEnd)
    && Instant(row.cancelAt, sub.cancelAt) && Instant(row.moveUpPendingUntil, sub.pendingUntil)
  }

  /**
   * Does the row take the subscription's state? A past one only from the
   * subscription it names, or when it names none.
   */
  predicate Takes(row: TeamRow, sub: Sub)
  {
    && row.plan != System
    && ((sub.status == Active || sub.status == Trialing) ==> sub.rung.Some?)
    && (sub.status != Active && sub.status != Trialing ==>
          row.subscription == None || row.subscription == Some(sub.id))
  }

  /**
   * While a subscription is paid for, the row names it, and read back the way
   * the metering loop does it is on the very rung Stripe sold. It names the
   * metered item Stripe has; on a monthly rung without one, the item just
   * asked for. A scheduled rung shows if it is another one.
   */
  lemma ActiveRow(row: TeamRow, sub: Sub, repair: Repair)
    requires Takes(row, sub) && (sub.status == Active || sub.status == Trialing) && sub.rung.value in LADDER
    ensures var after := Apply(row, sub, repair);
            && !after.plan.System? && TeamRung(after.plan, after.planQuota) == sub.rung.value
            && after.planStatus == OnPlan(sub.status) && after.subscription == Some(sub.id) && Dated(after, sub)
            && (sub.overage.Some? ==> after.overageItem == Some(sub.overage.value.id))
            && (sub.overage.None? && sub.rung.value.monthly ==> after.overageItem == repair)
            && (sub.overage.None? && !sub.rung.value.monthly ==> after.overageItem == None)
            && after.pendingRung == (if sub.schedule == Some(sub.rung.value.key) then None else sub.schedule)
  {
    ReadsBack(sub.rung.value);
  }

  /** Payment overdue: plan and volume stay as they are, and so does the item Stripe has. */
  lemma PastDueRow(row: TeamRow, sub: Sub, repair: Repair)
    requires Takes(row, sub) && sub.status == PastDue
    ensures var after := Apply(row, sub, repair);
            && after.plan == row.plan && after.planQuota == row.planQuota && after.planStatus == OnPlan(PastDue)
            && after.subscription == Some(sub.id) && after.pendingRung == None && Dated(after, sub)
            && after.overageItem == if sub.overage.Some? then Some(sub.overage.value.id) else None
  {
  }

  /** Over for good, or never begun: the free plan, without volume, item or scheduled rung. */
  lemma EndedRow(row: TeamRow, sub: Sub, repair: Repair)
    requires Takes(row, sub) && sub.status != Active && sub.status != Trialing && sub.status != PastDue
    ensures var after := Apply(row, sub, repair);
            && after.plan == Free && after.planQuota == None && after.overageItem == None && after.pendingRung == None
            && after.subscription == Some(sub.id) && Dated(after, sub)
            && after.planStatus == OnPlan(if sub.status == IncompleteExpired then Incomplete
                                          else if sub.status == Paused then Canceled else sub.status)
  {
  }

  lemma NotTaken(row: TeamRow, sub: Sub, repair: Repair)
    requires !Takes(row, sub)
    ensures Apply(row, sub, repair) == row
  {
  }

  /** The team's billing columns, and the overage reports an apply makes before the row drops its item. */
  class TeamBilling {
    var row: TeamRow
    var flushes: nat

    constructor (row: TeamRow)
      ensures this.row == row && flushes == 0
    {
      this.row := row;
      flushes := 0;
    }

    /**
     * With a Stripe client at hand. A row that stops naming its metered item
     * reports what is unbilled first, while it still names it.
     */
    method ApplySubscription(sub: Sub, repair: Repair)
      modifies this
      ensures row == Apply(old(row), sub, repair)
      ensures flushes == old(flushes) + if old(row).overageItem.Some? && row.overageItem.None? then 1 else 0
    {
      if row.plan.System? { return; }
      var entitled := sub.status.Active? || sub.status.Trialing?;
      if !entitled && row.subscription.Some? && row.subscription.value != sub.id { return; }
      var overage := if sub.overage.Some? then Some(sub.overage.value.id) else None;
      var plan, quota := Free, None;
      if entitled {
        if sub.rung.None? { return; }
        var rung := sub.rung.value;
        plan := rung.plan;
        if rung.monthly {
          quota := Some(rung.included);
          if overage.None? { overage := repair; }
        }
      } else if sub.status.PastDue? {
        plan, quota := row.plan, row.planQuota;
      }
      var item := if entitled || sub.status.PastDue? then overage else None;
      if row.overageItem.Some? && item.None? { flushes := flushes + 1; }
      row := TeamRow(plan, quota, PlanStatusOf(sub.status), Some(sub.id), item,
                     if entitled then PendingRung(sub) else None,
                     Stamp(sub.pendingUntil), Stamp(sub.periodStart), Stamp(sub.periodEnd), Stamp(sub.cancelAt));
    }
  }
}
