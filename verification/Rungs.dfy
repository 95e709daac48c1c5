/**
 * The plan ladder, and the rung a team row sits on
 * (packages/core/src/plans.ts). A subscription's rung is written to the row
 * as a plan and a volume; whoever meters the team reads it back from them.
 */
module Rungs {
  import opened Common

  datatype PaidPlan = Starter | Pro | Scale
  datatype Plan = Free | System | Paid(paid: PaidPlan)

  /** `key` stands for the rung's name; a daily rung's volume is per day. */
  datatype Rung = Rung(key: nat, plan: Plan, included: nat, monthly: bool)

  const LADDER: seq<Rung> := [
    Rung(0, Free, 100, false),
    Rung(1, Paid(Starter), 1_500, false),
    Rung(2, Paid(Pro), 100_000, true),
    Rung(3, Paid(Pro), 200_000, true),
    Rung(4, Paid(Scale), 500_000, true),
    Rung(5, Paid(Scale), 1_000_000, true),
    Rung(6, Paid(Scale), 1_500_000, true),
    Rung(7, Paid(Scale), 2_500_000, true)
  ]

  /** A rung a subscription can be for. */
  type PaidRung = r: Rung | r.plan.Paid? witness Rung(1, Paid(Starter), 1_500, false)

  /** The plan's first rung from `i` on. */
  function FirstOf(plan: Plan, i: nat): (r: Option<Rung>)
    decreases |LADDER| - i
  {
    if i >= |LADDER| then None else if LADDER[i].plan == plan then Some(LADDER[i]) else FirstOf(plan, i + 1)
  }

  /** The plan's first monthly rung of that volume from `i` on. */
  function MonthlyOf(plan: Plan, quota: Option<nat>, i: nat): (r: Option<Rung>)
    decreases |LADDER| - i
  {
    if i >= |LADDER| then None
    else if LADDER[i].plan == plan && LADDER[i].monthly && Some(LADDER[i].included) == quota then Some(LADDER[i])
    else MonthlyOf(plan, quota, i + 1)
  }

  lemma {:induction false} FirstAt(plan: Plan, i: nat, j: nat)
    requires i <= j < |LADDER| && LADDER[j].plan == plan && forall x | i <= x < j :: LADDER[x].plan != plan
    ensures FirstOf(plan, i) == Some(LADDER[j])
    decreases j - i
  {
    if i < j { FirstAt(plan, i + 1, j); }
  }

  lemma EveryPlanHasOne(plan: Plan)
    requires !plan.System?
    ensures FirstOf(plan, 0).Some?
  {
    match plan
    case Free => FirstAt(plan, 0, 0);
    case Paid(Starter) => FirstAt(plan, 0, 1);
    case Paid(Pro) => FirstAt(plan, 0, 2);
    case Paid(Scale) => FirstAt(plan, 0, 4);
  }

  /** A monthly plan with no recorded volume sits on its first rung. */
  function TeamRung(plan: Plan, quota: Option<nat>): Rung
    requires !plan.System?
  {
    EveryPlanHasOne(plan);
    var monthly := MonthlyOf(plan, quota, 0);
    if monthly.Some? then monthly.value else FirstOf(plan, 0).value
  }

  // ---- What is written is read back ----

  lemma {:induction false} MonthlyAt(plan: Plan, quota: Option<nat>, i: nat, j: nat)
    requires i <= j < |LADDER| && LADDER[j].plan == plan && LADDER[j].monthly && quota == Some(LADDER[j].included)
    requires forall x | i <= x < j :: !(LADDER[x].plan == plan && Some(LADDER[x].included) == quota)
    ensures MonthlyOf(plan, quota, i) == Some(LADDER[j])
    decreases j - i
  {
    if i < j { MonthlyAt(plan, quota, i + 1, j); }
  }

  lemma {:induction false} NoMonthly(plan: Plan, i: nat)
    ensures MonthlyOf(plan, None, i) == None
    decreases |LADDER| - i
  {
    if i < |LADDER| { NoMonthly(plan, i + 1); }
  }

  /** The volume a rung is written to the row with. */
  function QuotaOf(rung: Rung): Option<nat> { if rung.monthly then Some(rung.included) else None }

  /** No two rungs are written alike, so a row tells which one it was written for. */
  lemma ReadsBack(rung: Rung)
    requires rung in LADDER
    ensures !rung.plan.System? && TeamRung(rung.plan, QuotaOf(rung)) == rung
  {
    var j :| 0 <= j < |LADDER| && LADDER[j] == rung;
    if rung.monthly {
      MonthlyAt(rung.plan, QuotaOf(rung), 0, j);
    } else {
      NoMonthly(rung.plan, 0);
      FirstAt(rung.plan, 0, j);
    }
  }

  /** Which plans are metered by the month, from whatever volume the row records. */
  lemma MonthlyPlans(plan: Plan, quota: Option<nat>)
    requires !plan.System?
    ensures TeamRung(plan, quota) in LADDER && TeamRung(plan, quota).plan == plan
    ensures TeamRung(plan, quota).monthly <==> plan == Paid(Pro) || plan == Paid(Scale)
  {
    EveryPlanHasOne(plan);
    FirstHas(plan, 0);
    MonthlyHas(plan, quota, 0);
  }

  lemma {:induction false} FirstHas(plan: Plan, i: nat)
    ensures var r := FirstOf(plan, i); r.Some? ==> r.value in LADDER && r.value.plan == plan
    decreases |LADDER| - i
  {
    if i < |LADDER| { FirstHas(plan, i + 1); }
  }

  lemma {:induction false} MonthlyHas(plan: Plan, quota: Option<nat>, i: nat)
    ensures var r := MonthlyOf(plan, quota, i); r.Some? ==> r.value in LADDER && r.value.plan == plan
    decreases |LADDER| - i
  {
    if i < |LADDER| { MonthlyHas(plan, quota, i + 1); }
  }
}
