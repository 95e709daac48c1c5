/**
 * Quota reservations (packages/core/src/quota.ts): one call charges every
 * counter that caps a send, or none of them. Other sends charge and release
 * the same counters meanwhile: what they hold is any number at any time.
 */
module Quota {
  import opened Common

  /** A team's counter of one day, the counter of the free pool it shares that day, or its billing period's. */
  datatype Key = TeamDay(day: int) | PoolDay(day: int) | Period

  /** `ceiling` is the daily limit with its tolerance; a monthly plan's day is capped only by an operator. */
  datatype Quota =
    | Unlimited
    | Daily(limit: nat, ceiling: nat, pool: Option<nat>)
    | Monthly(ceiling: nat, dayCeiling: Option<nat>)

  datatype Cap = Cap(key: Key, ceiling: Option<nat>)

  /** What each counter holds for others when statement `t` runs. */
  type Others = (nat, Key) -> nat

  function Get(own: map<Key, nat>, k: Key): nat { if k in own then own[k] else 0 }

  function Used(others: Others, t: nat, own: map<Key, nat>, k: Key): nat { others(t, k) + Get(own, k) }

  /** The counters a send of a day is charged to, in the order they are charged. */
  function Caps(q: Quota, day: int): seq<Cap> {
    match q
    case Unlimited => [Cap(TeamDay(day), None)]
    case Daily(_, ceiling, pool) =>
      [Cap(TeamDay(day), Some(ceiling))] + if pool.Some? then [Cap(PoolDay(day), pool)] else []
    case Monthly(ceiling, dayCeiling) => [Cap(Period, Some(ceiling)), Cap(TeamDay(day), dayCeiling)]
  }

  predicate CapFits(cap: Cap, others: Others, t: nat, own: map<Key, nat>, count: nat) {
    cap.ceiling.Some? ==> Used(others, t, own, cap.key) + count <= cap.ceiling.value
  }

  predicate Fits(q: Quota, day: int, others: Others, t: nat, own: map<Key, nat>, count: nat) {
    forall i | 0 <= i < |Caps(q, day)| :: CapFits(Caps(q, day)[i], others, t, own, count)
  }

  /** What fits, said outright: no capped counter of the day is taken past its ceiling. */
  lemma FitsSpec(q: Quota, day: int, others: Others, t: nat, own: map<Key, nat>, count: nat)
    ensures Fits(q, day, others, t, own, count) <==>
            match q
            case Unlimited => true
            case Daily(_, ceiling, pool) =>
              && others(t, TeamDay(day)) + Get(own, TeamDay(day)) + count <= ceiling
              && (pool.Some? ==> others(t, PoolDay(day)) + Get(own, PoolDay(day)) + count <= pool.value)
            case Monthly(ceiling, dayCeiling) =>
              && others(t, Period) + Get(own, Period) + count <= ceiling
              && (dayCeiling.Some? ==> others(t, TeamDay(day)) + Get(own, TeamDay(day)) + count <= dayCeiling.value)
  {
    var caps := Caps(q, day);
    if Fits(q, day, others, t, own, count) {
      assert CapFits(caps[0], others, t, own, count);
      if |caps| > 1 { assert CapFits(caps[1], others, t, own, count); }
    }
  }

  /** Is the counter one a send of the day is charged to? */
  predicate Counts(q: Quota, day: int, k: Key) {
    match q
    case Unlimited => k == TeamDay(day)
    case Daily(_, _, pool) => k == TeamDay(day) || (pool.Some? && k == PoolDay(day))
    case Monthly(_, _) => k == Period || k == TeamDay(day)
  }

  /** The charge of one send: each counter it counts on, by its recipients, and no other. */
  ghost predicate Grown(q: Quota, day: int, was: map<Key, nat>, own: map<Key, nat>, count: nat) {
    forall k :: Get(own, k) == Get(was, k) + if Counts(q, day, k) then count else 0
  }

  /** Every counter of the day is within its ceiling. */
  predicate Within(q: Quota, day: int, others: Others, t: nat, own: map<Key, nat>) {
    forall i | 0 <= i < |Caps(q, day)| :: CapFits(Caps(q, day)[i], others, t, own, 0)
  }

  lemma CapsCount(q: Quota, day: int, i: nat)
    requires i < |Caps(q, day)|
    ensures Counts(q, day, Caps(q, day)[i].key)
  {
  }

  /** A charge that fits leaves every counter it was made on within its ceiling. */
  lemma FitsLeavesWithin(
    q: Quota, day: int, others: Others, t: nat, was: map<Key, nat>, own: map<Key, nat>, count: nat)
    requires Fits(q, day, others, t, was, count) && Grown(q, day, was, own, count)
    ensures Within(q, day, others, t, own)
  {
    forall i | 0 <= i < |Caps(q, day)| ensures CapFits(Caps(q, day)[i], others, t, own, 0) {
      CapsCount(q, day, i);
      assert CapFits(Caps(q, day)[i], others, t, was, count);
      assert Get(own, Caps(q, day)[i].key) == Get(was, Caps(q, day)[i].key) + count;
    }
  }

  /** Does the billing period itself refuse, so that nothing can park? */
  predicate PeriodRefuses(q: Quota, others: Others, t: nat, own: map<Key, nat>, count: nat) {
    q.Monthly? && !CapFits(Cap(Period, Some(q.ceiling)), others, t, own, count)
  }

  function Left(ceiling: nat, used: nat): nat { Max(0, ceiling - used) }

  /** The room a refusal reports: the tightest of a daily plan's counters, or a monthly plan's day. */
  function Room(q: Quota, day: int, others: Others, t: nat, own: map<Key, nat>): nat {
    match q
    case Unlimited => 0
    case Daily(_, ceiling, pool) =>
      var team := Left(ceiling, Used(others, t, own, TeamDay(day)));
      if pool.Some? then Min(team, Left(pool.value, Used(others, t, own, PoolDay(day)))) else team
    case Monthly(_, dayCeiling) =>
      if dayCeiling.Some? then Left(dayCeiling.value, Used(others, t, own, TeamDay(day))) else 0
  }

  /** On a daily plan, what fits is what the room reported would hold. */
  lemma RoomIsFit(q: Quota, day: int, others: Others, t: nat, own: map<Key, nat>, count: nat)
    requires !q.Unlimited? && count > 0 && !PeriodRefuses(q, others, t, own, count)
    requires q.Monthly? ==> q.dayCeiling.Some?
    ensures Fits(q, day, others, t, own, count) <==> count <= Room(q, day, others, t, own)
  {
    FitsSpec(q, day, others, t, own, count);
  }

  datatype Result = Reserved | RefusedPeriod | RefusedDay(room: nat)

  function Answer(q: Quota, day: int, others: Others, t: nat, own: map<Key, nat>, count: nat): Result {
    if Fits(q, day, others, t, own, count) then Reserved
    else if PeriodRefuses(q, others, t, own, count) then RefusedPeriod
    else RefusedDay(Room(q, day, others, t + 1, own))
  }

  /** One transaction's view of the counters: what it holds on top of the others, and the statement it is at. */
  class Counters {
    const others: Others
    var own: map<Key, nat>
    var time: nat

    constructor (others: Others)
      ensures this.others == others && own == map[] && time == 0
    {
      this.others := others;
      own, time := map[], 0;
    }

    /** The guarded upsert: charges the counter if it stays within the ceiling. */
    method Upsert(k: Key, count: nat, ceiling: Option<nat>) returns (charged: bool)
      modifies this`own
      ensures charged == CapFits(Cap(k, ceiling), others, time, old(own), count)
      ensures own == if charged then old(own)[k := old(Get(own, k)) + count] else old(own)
    {
      if ceiling.Some? && others(time, k) + Get(own, k) + count > ceiling.value { return false; }
      own := own[k := Get(own, k) + count];
      return true;
    }

    /** `accepted = greatest(accepted - count, 0)`, which never has to floor: the transaction holds the count. */
    method GiveBack(k: Key, count: nat)
      requires count <= Get(own, k)
      modifies this`own
      ensures own == old(own)[k := old(Get(own, k)) - count]
      ensures Used(others, time, own, k) == Max(0, old(Used(others, time, own, k)) - count)
    {
      var accepted := Max(0, others(time, k) + Get(own, k) - count);
      own := own[k := accepted - others(time, k)];
    }

    method ReserveDaily(day: int, count: nat, ceiling: Option<nat>, pool: Option<nat>) returns (reserved: bool)
      modifies this`own
      ensures reserved == (CapFits(Cap(TeamDay(day), ceiling), others, time, old(own), count) &&
                           (pool.Some? ==> CapFits(Cap(PoolDay(day), pool), others, time, old(own), count)))
      ensures forall k :: Get(own, k) == old(Get(own, k)) +
                if reserved && (k == TeamDay(day) || (pool.Some? && k == PoolDay(day))) then count else 0
    {
      reserved := Upsert(TeamDay(day), count, ceiling);
      if reserved && pool.Some? {
        reserved := Upsert(PoolDay(day), count, pool);
        if !reserved { GiveBack(TeamDay(day), count); }
      }
    }

    method ReservePeriod(day: int, count: nat, ceiling: nat, dayCeiling: Option<nat>)
        returns (period: bool, reserved: bool)
      modifies this`own
      ensures period == CapFits(Cap(Period, Some(ceiling)), others, time, old(own), count)
      ensures reserved == (period && CapFits(Cap(TeamDay(day), dayCeiling), others, time, old(own), count))
      ensures forall k :: Get(own, k) == old(Get(own, k)) +
                if reserved && (k == TeamDay(day) || k == Period) then count else 0
    {
      ghost var was := own;
      reserved := false;
      period := Upsert(Period, count, Some(ceiling));
      if period {
        ghost var charged := own;
        reserved := ReserveDaily(day, count, dayCeiling, None);
        ghost var tried := own;
        assert Get(tried, Period) == Get(charged, Period) == Get(was, Period) + count;
        if !reserved { GiveBack(Period, count); }
        forall k ensures Get(own, k) == Get(was, k) + if reserved && (k == TeamDay(day) || k == Period) then count
            else 0 {
          assert Get(tried, k) == Get(charged, k) + if reserved && k == TeamDay(day) then count else 0;
        }
      }
    }

    /** Charges every counter of the send or none, whatever order they are tried in. */
    method ReserveQuota(q: Quota, day: int, count: nat) returns (result: Result)
      modifies this
      ensures result == Answer(q, day, others, old(time), old(own), count)
      ensures Grown(q, day, old(own), own, if result.Reserved? then count else 0)
      ensures time == old(time) + 2
    {
      FitsSpec(q, day, others, time, own, count);
      result := Reserved;
      match q {
        case Unlimited =>
          var _ := ReserveDaily(day, count, None, None);
        case Daily(_, ceiling, pool) =>
          var reserved := ReserveDaily(day, count, Some(ceiling), pool);
          if !reserved { result := RefusedDay(0); }
        case Monthly(ceiling, dayCeiling) =>
          var period, reserved := ReservePeriod(day, count, ceiling, dayCeiling);
          if !period { result := RefusedPeriod; } else if !reserved { result := RefusedDay(0); }
      }
      time := time + 1;
      if result.RefusedDay? { result := RefusedDay(Room(q, day, others, time, own)); }
      time := time + 1;
    }

    /** The compensating release takes back exactly one such charge. */
    method ReleaseQuota(q: Quota, day: int, count: nat)
      requires forall k | Counts(q, day, k) :: count <= Get(own, k)
      modifies this`own
      ensures Grown(q, day, own, old(own), count)
    {
      assert Counts(q, day, TeamDay(day)) && (q.Monthly? ==> Counts(q, day, Period));
      assert q.Daily? && q.pool.Some? ==> Counts(q, day, PoolDay(day));
      if q.Monthly? { GiveBack(Period, count); }
      GiveBack(TeamDay(day), count);
      if q.Daily? && q.pool.Some? { GiveBack(PoolDay(day), count); }
    }

    /** The transaction ends without committing. */
    method RollBack()
      modifies this`own
      ensures own == map[]
    {
      own := map[];
    }
  }
}
