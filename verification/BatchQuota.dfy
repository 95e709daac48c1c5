/**
 * The quota pass of a batch send (apps/api/src/app.ts): one reservation per
 * delivery day for the items accepted, the tail of a day that has no room
 * parked, and a batch under review parked whole.
 */
module BatchQuota {
  import opened Common
  import opened Quota

  datatype Item = Item(day: int, recipients: nat)

  datatype Refusal = MonthlyQuotaExceeded | QuotaBacklogFull

  // ---- A day's items ----

  /** The indices of a day's items, in request order. */
  function Group(items: seq<Item>, day: int, n: nat): (g: seq<nat>)
    requires n <= |items|
  {
    if n == 0 then [] else Group(items, day, n - 1) + if items[n - 1].day == day then [n - 1] else []
  }

  function GroupOf(items: seq<Item>, day: int): seq<nat> { Group(items, day, |items|) }

  ghost predicate Indexes(items: seq<Item>, g: seq<nat>) { forall j | 0 <= j < |g| :: g[j] < |items| }

  /** The recipients of the first k of a group. */
  function Recipients(items: seq<Item>, g: seq<nat>, k: nat): nat
    requires k <= |g| && Indexes(items, g)
  {
    if k == 0 then 0 else Recipients(items, g, k - 1) + items[g[k - 1]].recipients
  }

  lemma {:induction false} GroupIs(items: seq<Item>, day: int, n: nat)
    requires n <= |items|
    ensures forall j | 0 <= j < |Group(items, day, n)| ::
              Group(items, day, n)[j] < n && items[Group(items, day, n)[j]].day == day
    ensures forall i, j | 0 <= i < j < |Group(items, day, n)| :: Group(items, day, n)[i] < Group(items, day, n)[j]
    ensures forall i | 0 <= i < n && items[i].day == day :: i in Group(items, day, n)
  {
    if n > 0 {
      GroupIs(items, day, n - 1);
    }
  }

  /** The recipients of a day's items. */
  function DayTotal(items: seq<Item>, day: int, n: nat): nat
    requires n <= |items|
  {
    if n == 0 then 0 else
      DayTotal(items, day, n - 1) + if items[n - 1].day == day then items[n - 1].recipients else 0
  }

  lemma {:induction false} GroupTotal(items: seq<Item>, day: int, n: nat)
    requires n <= |items|
    ensures Indexes(items, Group(items, day, n))
    ensures Recipients(items, Group(items, day, n), |Group(items, day, n)|) == DayTotal(items, day, n)
  {
    if n > 0 {
      GroupTotal(items, day, n - 1);
      if items[n - 1].day == day {
        LastTotal(items, Group(items, day, n - 1), n - 1);
      } else {
        assert Group(items, day, n) == Group(items, day, n - 1);
      }
    }
  }

  lemma LastTotal(items: seq<Item>, front: seq<nat>, i: nat)
    requires Indexes(items, front) && i < |items|
    ensures Indexes(items, front + [i])
    ensures Recipients(items, front + [i], |front| + 1) == Recipients(items, front, |front|) + items[i].recipients
  {
    SameRecipients(items, front, front + [i], |front|);
  }

  /** How many items from the j-th on fit the room, `sum` of it being taken. */
  function FitFrom(items: seq<Item>, g: seq<nat>, j: nat, sum: nat, room: nat): (fit: nat)
    requires j <= |g| && Indexes(items, g)
    ensures j <= fit <= |g|
    decreases |g| - j
  {
    if j == |g| || sum + items[g[j]].recipients > room then j
    else FitFrom(items, g, j + 1, sum + items[g[j]].recipients, room)
  }

  function Fit(items: seq<Item>, g: seq<nat>, room: nat): nat
    requires Indexes(items, g)
  {
    FitFrom(items, g, 0, 0, room)
  }

  lemma {:induction false} FitFromIs(items: seq<Item>, g: seq<nat>, j: nat, room: nat)
    requires j <= |g| && Indexes(items, g) && Recipients(items, g, j) <= room
    ensures var fit := FitFrom(items, g, j, Recipients(items, g, j), room);
            Recipients(items, g, fit) <= room && (fit < |g| ==> Recipients(items, g, fit + 1) > room)
    decreases |g| - j
  {
    if j < |g| && Recipients(items, g, j) + items[g[j]].recipients <= room { FitFromIs(items, g, j + 1, room); }
  }

  lemma {:induction false} RecipientsGrow(items: seq<Item>, g: seq<nat>, i: nat, j: nat)
    requires i <= j <= |g| && Indexes(items, g)
    ensures Recipients(items, g, i) <= Recipients(items, g, j)
  {
    if i < j { RecipientsGrow(items, g, i, j - 1); }
  }

  /** A prefix of the group fits the room exactly when it is no longer than the fit. */
  lemma FitIsLongest(items: seq<Item>, g: seq<nat>, room: nat, k: nat)
    requires Indexes(items, g) && k <= |g|
    ensures Recipients(items, g, k) <= room <==> k <= Fit(items, g, room)
  {
    FitFromIs(items, g, 0, room);
    var fit := Fit(items, g, room);
    if k <= fit { RecipientsGrow(items, g, k, fit); } else { RecipientsGrow(items, g, fit + 1, k); }
  }

  // ---- What a day keeps ----

  /** How many of a day's items go out, given what the counters hold when each statement runs. */
  function Decide(q: Quota, others: Others, t: nat, own: map<Key, nat>, items: seq<Item>, day: int, g: seq<nat>)
      : (kept: nat)
    requires Indexes(items, g)
    ensures kept <= |g|
  {
    if Fits(q, day, others, t, own, Recipients(items, g, |g|)) then |g|
    else
      var fit := Fit(items, g, Room(q, day, others, t + 1, own));
      if fit > 0 && Fits(q, day, others, t + 2, own, Recipients(items, g, fit)) then fit else 0
  }

  /**
   * What a day keeps fits it: all of it, the longest prefix for the room read,
   * or nothing once others took that room.
   */
  lemma DecideSpec(q: Quota, others: Others, t: nat, own: map<Key, nat>, items: seq<Item>, day: int, g: seq<nat>,
      k: nat)
    requires Indexes(items, g) && g != [] && k <= |g|
    ensures var kept := Decide(q, others, t, own, items, day, g);
            var room := Room(q, day, others, t + 1, own);
            if Fits(q, day, others, t, own, Recipients(items, g, |g|)) then kept == |g|
            else
              var fit := Fit(items, g, room);
              && (Recipients(items, g, k) <= room <==> k <= fit)
              && (kept == fit || (kept == 0 && !Fits(q, day, others, t + 2, own, Recipients(items, g, fit))))
              && (kept > 0 ==> Fits(q, day, others, t + 2, own, Recipients(items, g, kept)))
  {
    FitIsLongest(items, g, Room(q, day, others, t + 1, own), k);
  }

  /** The statement a day that keeps items is charged at. */
  function ChargedAt(q: Quota, others: Others, t: nat, own: map<Key, nat>, items: seq<Item>, day: int, g: seq<nat>): nat
    requires Indexes(items, g)
  {
    if Fits(q, day, others, t, own, Recipients(items, g, |g|)) then t else t + 2
  }

  /** A day that keeps items leaves every counter they are charged to within its ceiling. */
  lemma DecideWithin(q: Quota, others: Others, t: nat, own: map<Key, nat>, items: seq<Item>, day: int, g: seq<nat>,
                     after: map<Key, nat>)
    requires Indexes(items, g) && Decide(q, others, t, own, items, day, g) > 0
    requires Grown(q, day, own, after, Recipients(items, g, Decide(q, others, t, own, items, day, g)))
    ensures Within(q, day, others, ChargedAt(q, others, t, own, items, day, g), after)
  {
    FitsLeavesWithin(q, day, others, ChargedAt(q, others, t, own, items, day, g), own, after,
                     Recipients(items, g, Decide(q, others, t, own, items, day, g)));
  }

  ghost predicate Quiet(others: Others) { forall t, k :: others(t, k) == others(0, k) }

  /** With no one else on the counters meanwhile, what a day keeps is the longest prefix that fits it. */
  lemma QuietDecide(q: Quota, others: Others, t: nat, own: map<Key, nat>, items: seq<Item>, day: int, g: seq<nat>,
      k: nat)
    requires Quiet(others) && Indexes(items, g) && 0 < k <= |g|
    requires forall i | 0 <= i < |items| :: items[i].recipients > 0
    requires !PeriodRefuses(q, others, t, own, Recipients(items, g, |g|))
    ensures Fits(q, day, others, t, own, Recipients(items, g, k)) <==> k <= Decide(q, others, t, own, items, day, g)
  {
    var all := Recipients(items, g, |g|);
    RecipientsGrow(items, g, k, |g|);
    RecipientsGrow(items, g, 1, k);
    SameRoom(q, day, others, t, own, t + 1);
    FitsSpec(q, day, others, t, own, all);
    if Fits(q, day, others, t, own, all) {
      FitsLess(q, day, others, t, own, Recipients(items, g, k), all);
    } else {
      var fit := Fit(items, g, Room(q, day, others, t, own));
      FitIsLongest(items, g, Room(q, day, others, t, own), k);
      FitIsLongest(items, g, Room(q, day, others, t, own), fit);
      SmallerPeriod(q, others, t, own, Recipients(items, g, k), all);
      RoomIsFit(q, day, others, t, own, Recipients(items, g, k));
      if fit > 0 {
        RecipientsGrow(items, g, 1, fit);
        RecipientsGrow(items, g, fit, |g|);
        SmallerPeriod(q, others, t, own, Recipients(items, g, fit), all);
        RoomIsFit(q, day, others, t, own, Recipients(items, g, fit));
        SameFits(q, day, others, t, own, Recipients(items, g, fit), t + 2);
      }
    }
  }

  lemma SameRoom(q: Quota, day: int, others: Others, t: nat, own: map<Key, nat>, u: nat)
    requires Quiet(others)
    ensures Room(q, day, others, t, own) == Room(q, day, others, u, own)
  {
    assert forall k :: others(t, k) == others(0, k) == others(u, k);
  }

  lemma SameFits(q: Quota, day: int, others: Others, t: nat, own: map<Key, nat>, count: nat, u: nat)
    requires Quiet(others)
    ensures Fits(q, day, others, t, own, count) == Fits(q, day, others, u, own, count)
  {
    assert forall k :: others(t, k) == others(0, k) == others(u, k);
    FitsSpec(q, day, others, t, own, count);
    FitsSpec(q, day, others, u, own, count);
  }

  lemma FitsLess(q: Quota, day: int, others: Others, t: nat, own: map<Key, nat>, count: nat, more: nat)
    requires count <= more && Fits(q, day, others, t, own, more)
    ensures Fits(q, day, others, t, own, count)
  {
    FitsSpec(q, day, others, t, own, count);
    FitsSpec(q, day, others, t, own, more);
  }

  lemma SmallerPeriod(q: Quota, others: Others, t: nat, own: map<Key, nat>, count: nat, more: nat)
    requires count <= more && !PeriodRefuses(q, others, t, own, more)
    ensures !PeriodRefuses(q, others, t, own, count)
  {
  }

  // ---- Conservation ----

  /** The recipients of the unparked items among the first n whose day is done and counts on the counter. */
  function Due(q: Quota, items: seq<Item>, parked: seq<bool>, done: set<int>, k: Key, n: nat): nat
    requires n <= |items| == |parked|
  {
    if n == 0 then 0 else
      Due(q, items, parked, done, k, n - 1) +
      if items[n - 1].day in done && !parked[n - 1] && Counts(q, items[n - 1].day, k) then items[n - 1].recipients
          else 0
  }

  /** The recipients of a day's unparked items. */
  function DayKept(items: seq<Item>, parked: seq<bool>, day: int, n: nat): nat
    requires n <= |items| == |parked|
  {
    if n == 0 then 0 else
      DayKept(items, parked, day, n - 1) +
      if items[n - 1].day == day && !parked[n - 1] then items[n - 1].recipients else 0
  }

  /** Every counter holds, for this batch, just the recipients of the unparked items that count on it. */
  ghost predicate Conserved(q: Quota, items: seq<Item>, parked: seq<bool>, done: set<int>, own: map<Key, nat>)
    requires |items| == |parked|
  {
    forall k :: Get(own, k) == Due(q, items, parked, done, k, |items|)
  }

  lemma {:induction false} OneMoreDay(
    q: Quota, items: seq<Item>, was: seq<bool>, parked: seq<bool>, done: set<int>, day: int, k: Key, n: nat)
    requires n <= |items| == |was| == |parked| && day !in done
    requires forall i | 0 <= i < |items| && items[i].day != day :: parked[i] == was[i]
    ensures Due(q, items, parked, done + {day}, k, n) ==
            Due(q, items, was, done, k, n) + if Counts(q, day, k) then DayKept(items, parked, day, n) else 0
  {
    if n > 0 { OneMoreDay(q, items, was, parked, done, day, k, n - 1); }
  }

  /** A day's items are unparked up to the k-th and parked from there on. */
  ghost predicate TailParked(items: seq<Item>, parked: seq<bool>, day: int, kept: nat)
    requires |items| == |parked|
  {
    GroupIs(items, day, |items|);
    var g := GroupOf(items, day);
    kept <= |g| && forall j | 0 <= j < |g| :: parked[g[j]] <==> j >= kept
  }

  lemma {:induction false} GroupPrefix(items: seq<Item>, day: int, n: nat, m: nat)
    requires n <= m <= |items|
    ensures Group(items, day, n) <= Group(items, day, m)
  {
    if n < m { GroupPrefix(items, day, n, m - 1); }
  }

  lemma {:induction false} SameRecipients(items: seq<Item>, front: seq<nat>, g: seq<nat>, k: nat)
    requires Indexes(items, g) && front <= g && k <= |front|
    ensures Indexes(items, front) && Recipients(items, front, k) == Recipients(items, g, k)
  {
    assert forall j | 0 <= j < |front| :: front[j] == g[j];
    if k > 0 { SameRecipients(items, front, g, k - 1); }
  }

  /** The item at the end of a group prefix is unparked exactly when it is one of the first `kept`. */
  lemma LastParked(items: seq<Item>, parked: seq<bool>, day: int, kept: nat, n: nat)
    requires 0 < n <= |items| == |parked| && TailParked(items, parked, day, kept) && items[n - 1].day == day
    ensures parked[n - 1] <==> |Group(items, day, n - 1)| >= kept
  {
    GroupIs(items, day, |items|);
    GroupPrefix(items, day, n, |items|);
    var at := |Group(items, day, n - 1)|;
    assert GroupOf(items, day)[at] == Group(items, day, n)[at] == n - 1;
  }

  lemma KeptNext(items: seq<Item>, parked: seq<bool>, day: int, kept: nat, n: nat)
    requires 0 < n <= |items| == |parked| && TailParked(items, parked, day, kept) && items[n - 1].day == day
    requires Indexes(items, Group(items, day, n - 1))
    requires DayKept(items, parked, day, n - 1) ==
             Recipients(items, Group(items, day, n - 1), Min(kept, |Group(items, day, n - 1)|))
    ensures Indexes(items, Group(items, day, n))
    ensures DayKept(items, parked, day, n) == Recipients(items, Group(items, day, n), Min(kept, |Group(items, day, n)|))
  {
    var front, g := Group(items, day, n - 1), Group(items, day, n);
    LastParked(items, parked, day, kept, n);
    SameRecipients(items, front, g, Min(kept, |front|));
    assert g[|front|] == n - 1;
  }

  /** What a day's unparked items come to, when they are its first ones. */
  lemma {:induction false} KeptIsPrefix(items: seq<Item>, parked: seq<bool>, day: int, kept: nat, n: nat)
    requires n <= |items| == |parked| && TailParked(items, parked, day, kept)
    ensures Indexes(items, Group(items, day, n))
    ensures DayKept(items, parked, day, n) == Recipients(items, Group(items, day, n), Min(kept, |Group(items, day, n)|))
  {
    if n > 0 {
      KeptIsPrefix(items, parked, day, kept, n - 1);
      if items[n - 1].day == day {
        KeptNext(items, parked, day, kept, n);
      } else {
        assert Group(items, day, n) == Group(items, day, n - 1);
      }
    }
  }

  // ---- One day ----

  ghost predicate Same(a: map<Key, nat>, b: map<Key, nat>) { forall k :: Get(a, k) == Get(b, k) }

  lemma SameOwn(q: Quota, day: int, others: Others, t: nat, a: map<Key, nat>, b: map<Key, nat>, count: nat)
    requires Same(a, b)
    ensures Fits(q, day, others, t, a, count) == Fits(q, day, others, t, b, count)
  {
    FitsSpec(q, day, others, t, a, count);
    FitsSpec(q, day, others, t, b, count);
  }

  method TotalOf(items: seq<Item>, g: seq<nat>) returns (sum: nat)
    requires Indexes(items, g)
    ensures sum == Recipients(items, g, |g|)
  {
    sum := 0;
    for j := 0 to |g|
      invariant sum == Recipients(items, g, j)
    {
      sum := sum + items[g[j]].recipients;
    }
  }

  /** The longest run of a day's items, from the first, that the room holds. */
  method LongestRun(items: seq<Item>, g: seq<nat>, room: nat) returns (fit: nat, sum: nat)
    requires Indexes(items, g)
    ensures fit == Fit(items, g, room) && sum == Recipients(items, g, fit)
  {
    fit, sum := 0, 0;
    while fit < |g| && sum + items[g[fit]].recipients <= room
      invariant fit <= |g| && sum == Recipients(items, g, fit)
      invariant FitFrom(items, g, fit, sum, room) == Fit(items, g, room)
    {
      sum := sum + items[g[fit]].recipients;
      fit := fit + 1;
    }
  }

  /** What one day reserves: all its items, the head that fits the room, or none; the period may refuse it outright. */
  method ReserveDay(c: Counters, q: Quota, items: seq<Item>, day: int, g: seq<nat>)
    returns (refused: bool, whole: bool, kept: nat)
    requires Indexes(items, g)
    modifies c
    ensures whole == Fits(q, day, c.others, old(c.time), old(c.own), Recipients(items, g, |g|))
    ensures refused == (!whole &&
                        PeriodRefuses(q, c.others, old(c.time), old(c.own), Recipients(items, g, |g|)))
    ensures kept <= |g| && (!refused ==> kept == Decide(q, c.others, old(c.time), old(c.own), items, day, g))
    ensures !refused ==> Grown(q, day, old(c.own), c.own, Recipients(items, g, kept))
    ensures !refused && kept > 0 ==>
              Within(q, day, c.others, ChargedAt(q, c.others, old(c.time), old(c.own), items, day, g), c.own)
  {
    ghost var own := c.own;
    var total := TotalOf(items, g);
    var reservation := c.ReserveQuota(q, day, total);
    if reservation.Reserved? {
      FitsLeavesWithin(q, day, c.others, old(c.time), own, c.own, total);
      return false, true, |g|;
    }
    if reservation.RefusedPeriod? { return true, false, 0; }
    var fit, sum := LongestRun(items, g, reservation.room);
    if fit > 0 {
      SameOwn(q, day, c.others, c.time, own, c.own, sum);
      var head := c.ReserveQuota(q, day, sum);
      if head.Reserved? {
        FitsLeavesWithin(q, day, c.others, old(c.time) + 2, own, c.own, sum);
        return false, false, fit;
      }
    }
    return false, false, 0;
  }

  /** A day's group of indices, filtered out of the batch in request order. */
  method FilterDay(items: seq<Item>, day: int) returns (g: seq<nat>)
    ensures g == GroupOf(items, day)
  {
    g := [];
    for i := 0 to |items|
      invariant g == Group(items, day, i)
    {
      if items[i].day == day { g := g + [i]; }
    }
  }

  method ParkTail(items: seq<Item>, parked: array<bool>, day: int, g: seq<nat>, kept: nat)
    requires parked.Length == |items| && g == GroupOf(items, day) && kept <= |g|
    requires forall i | 0 <= i < |items| && items[i].day == day :: !parked[i]
    modifies parked
    ensures TailParked(items, parked[..], day, kept)
    ensures forall i | 0 <= i < |items| && items[i].day != day :: parked[i] == old(parked[i])
  {
    GroupIs(items, day, |items|);
    for j := kept to |g|
      invariant forall x | 0 <= x < |g| :: parked[g[x]] <==> kept <= x < j
      invariant forall i | 0 <= i < |items| && items[i].day != day :: parked[i] == old(parked[i])
    {
      parked[g[j]] := true;
    }
  }

  /**
   * Why a day refuses the whole batch: its billing period has no room for the
   * day's recipients, or a daily plan has none and no more mail may wait.
   */
  function DayRefusal(q: Quota, others: Others, t: nat, own: map<Key, nat>, items: seq<Item>, day: int, full: bool)
    : (refusal: Option<Refusal>)
    ensures refusal == Some(MonthlyQuotaExceeded) <==>
            q.Monthly? && others(t, Period) + Get(own, Period) + DayTotal(items, day, |items|) > q.ceiling
    ensures refusal == Some(QuotaBacklogFull) <==>
            && q.Daily? && full
            && (|| others(t, TeamDay(day)) + Get(own, TeamDay(day)) + DayTotal(items, day, |items|) > q.ceiling
                || (q.pool.Some? &&
                    others(t, PoolDay(day)) + Get(own, PoolDay(day)) + DayTotal(items, day, |items|) > q.pool.value))
  {
    var total := DayTotal(items, day, |items|);
    FitsSpec(q, day, others, t, own, total);
    if PeriodRefuses(q, others, t, own, total) then Some(MonthlyQuotaExceeded)
    else if q.Daily? && full && !Fits(q, day, others, t, own, total) then Some(QuotaBacklogFull)
    else None
  }

  /** One day of the batch; `backlogFull` is whether the team already holds all the parked mail it may. */
  method PlaceDay(c: Counters, q: Quota, items: seq<Item>, parked: array<bool>, day: int, backlogFull: bool)
    returns (refused: Option<Refusal>, kept: nat)
    requires parked.Length == |items|
    requires forall i | 0 <= i < |items| && items[i].day == day :: !parked[i]
    modifies c, parked
    ensures forall i | 0 <= i < |items| && items[i].day != day :: parked[i] == old(parked[i])
    ensures refused == DayRefusal(q, c.others, old(c.time), old(c.own), items, day, backlogFull)
    ensures refused.Some? ==> parked[..] == old(parked[..])
    ensures refused.None? ==>
              && TailParked(items, parked[..], day, kept)
              && Indexes(items, GroupOf(items, day))
              && kept == Decide(q, c.others, old(c.time), old(c.own), items, day, GroupOf(items, day))
              && Grown(q, day, old(c.own), c.own, Recipients(items, GroupOf(items, day), kept))
              && (kept > 0 ==> Within(q, day, c.others, ChargedAt(q, c.others, old(c.time), old(c.own), items, day,
                                                                  GroupOf(items, day)), c.own))
  {
    var g := FilterDay(items, day);
    GroupTotal(items, day, |items|);
    FitsSpec(q, day, c.others, c.time, c.own, DayTotal(items, day, |items|));
    var over, whole;
    over, whole, kept := ReserveDay(c, q, items, day, g);
    if over { return Some(MonthlyQuotaExceeded), kept; }
    if !whole && q.Daily? && backlogFull { return Some(QuotaBacklogFull), kept; }
    ParkTail(items, parked, day, g, kept);
    return None, kept;
  }

  /** Placing a day keeps the account of every counter. */
  lemma DayConserves(q: Quota, items: seq<Item>, was: seq<bool>, parked: seq<bool>, done: set<int>, day: int,
                     before: map<Key, nat>, own: map<Key, nat>, kept: nat)
    requires |items| == |was| == |parked| && day !in done && Conserved(q, items, was, done, before)
    requires forall i | 0 <= i < |items| && items[i].day != day :: parked[i] == was[i]
    requires TailParked(items, parked, day, kept) && Indexes(items, GroupOf(items, day))
    requires Grown(q, day, before, own, Recipients(items, GroupOf(items, day), kept))
    ensures Conserved(q, items, parked, done + {day}, own)
  {
    KeptIsPrefix(items, parked, day, kept, |items|);
    forall k ensures Get(own, k) == Due(q, items, parked, done + {day}, k, |items|) {
      OneMoreDay(q, items, was, parked, done, day, k, |items|);
      assert Get(before, k) == Due(q, items, was, done, k, |items|);
    }
  }

  // ---- The whole batch ----

  ghost predicate Ascending(days: seq<int>) { forall i, j | 0 <= i < j < |days| :: days[i] < days[j] }

  ghost predicate DaysOf(items: seq<Item>, days: seq<int>) {
    Ascending(days) && forall d :: d in days <==> exists i | 0 <= i < |items| :: items[i].day == d
  }

  function InsertDay(days: seq<int>, day: int): seq<int> {
    if days == [] || days[|days| - 1] < day then days + [day]
    else if days[|days| - 1] == day then days
    else InsertDay(days[..|days| - 1], day) + [days[|days| - 1]]
  }

  lemma {:induction false} InsertDayHas(days: seq<int>, day: int)
    ensures forall d :: d in InsertDay(days, day) <==> d in days || d == day
  {
    if days != [] {
      var n := |days| - 1;
      InsertDayHas(days[..n], day);
      assert days == days[..n] + [days[n]];
    }
  }

  lemma {:induction false} InsertDayIs(days: seq<int>, day: int)
    requires Ascending(days)
    ensures Ascending(InsertDay(days, day)) && forall d :: d in InsertDay(days, day) <==> d in days || d == day
  {
    InsertDayHas(days, day);
    if days != [] && days[|days| - 1] > day {
      var n := |days| - 1;
      InsertDayIs(days[..n], day);
      var front := InsertDay(days[..n], day);
      forall i | 0 <= i < |front| ensures front[i] < days[n] {
        assert front[i] in front;
      }
    }
  }

  /** The batch's delivery days, each once, in the one order every batch takes them in. */
  method DeliveryDays(items: seq<Item>) returns (days: seq<int>)
    ensures DaysOf(items, days)
  {
    days := [];
    for n := 0 to |items|
      invariant Ascending(days)
      invariant forall d :: d in days <==> exists i | 0 <= i < n :: items[i].day == d
    {
      InsertDayIs(days, items[n].day);
      days := InsertDay(days, items[n].day);
    }
  }

  function SetOf(days: seq<int>, n: nat): set<int>
    requires n <= |days|
  {
    set i | 0 <= i < n :: days[i]
  }

  /** Each day so far keeps a prefix of its items. */
  ghost predicate TailsParked(items: seq<Item>, parked: seq<bool>, days: seq<int>, kept: seq<nat>)
    requires |items| == |parked| && |kept| <= |days|
  {
    forall n | 0 <= n < |kept| :: TailParked(items, parked, days[n], kept[n])
  }

  lemma TailUntouched(items: seq<Item>, was: seq<bool>, parked: seq<bool>, day: int, kept: nat)
    requires |items| == |was| == |parked| && TailParked(items, was, day, kept)
    requires forall i | 0 <= i < |items| && items[i].day == day :: parked[i] == was[i]
    ensures TailParked(items, parked, day, kept)
  {
    GroupIs(items, day, |items|);
  }

  lemma NothingDue(q: Quota, items: seq<Item>, parked: seq<bool>, done: set<int>, k: Key, n: nat)
    requires n <= |items| == |parked|
    requires forall i | 0 <= i < n :: parked[i] || items[i].day !in done
    ensures Due(q, items, parked, done, k, n) == 0
  {
  }

  /** What the days placed so far come to. */
  ghost predicate Placed(q: Quota, items: seq<Item>, parked: seq<bool>, days: seq<int>, kept: seq<nat>,
      own: map<Key, nat>)
    requires |items| == |parked| && |kept| <= |days|
  {
    && TailsParked(items, parked, days, kept)
    && Conserved(q, items, parked, SetOf(days, |kept|), own)
    && forall i | 0 <= i < |items| && items[i].day !in SetOf(days, |kept|) :: !parked[i]
  }

  lemma NonePlaced(q: Quota, items: seq<Item>, parked: seq<bool>, days: seq<int>)
    requires |items| == |parked| && forall i | 0 <= i < |items| :: !parked[i]
    ensures Placed(q, items, parked, days, [], map[])
  {
    assert SetOf(days, 0) == {};
    forall k ensures Due(q, items, parked, SetOf(days, 0), k, |items|) == 0 {
      NothingDue(q, items, parked, {}, k, |items|);
    }
  }

  lemma OneMorePlaced(q: Quota, items: seq<Item>, was: seq<bool>, parked: seq<bool>, days: seq<int>, kept: seq<nat>,
                      before: map<Key, nat>, own: map<Key, nat>, last: nat)
    requires |items| == |was| == |parked| && |kept| < |days| && Ascending(days)
    requires Placed(q, items, was, days, kept, before)
    requires forall i | 0 <= i < |items| && items[i].day != days[|kept|] :: parked[i] == was[i]
    requires TailParked(items, parked, days[|kept|], last) && Indexes(items, GroupOf(items, days[|kept|]))
    requires Grown(q, days[|kept|], before, own, Recipients(items, GroupOf(items, days[|kept|]), last))
    ensures Placed(q, items, parked, days, kept + [last], own)
  {
    var day := days[|kept|];
    var more := kept + [last];
    DayConserves(q, items, was, parked, SetOf(days, |kept|), day, before, own, last);
    assert SetOf(days, |more|) == SetOf(days, |kept|) + {day};
    forall n | 0 <= n < |more| ensures TailParked(items, parked, days[n], more[n]) {
      if n < |kept| { TailUntouched(items, was, parked, days[n], kept[n]); }
    }
  }

  /** When a day was decided, and what the batch held then. */
  datatype Step = Step(time: nat, own: map<Key, nat>)

  /** Each day kept what it had to, on top of what the days before it kept. */
  ghost predicate Decided(q: Quota, others: Others, items: seq<Item>, parked: seq<bool>, days: seq<int>, kept: seq<nat>,
                          steps: seq<Step>)
    requires |items| == |parked| && |kept| == |steps| <= |days|
  {
    forall x | 0 <= x < |kept| ::
      && Indexes(items, GroupOf(items, days[x]))
      && kept[x] == Decide(q, others, steps[x].time, steps[x].own, items, days[x], GroupOf(items, days[x]))
      && Conserved(q, items, parked, SetOf(days, x), steps[x].own)
  }

  lemma {:induction false} DueUntouched(q: Quota, items: seq<Item>, was: seq<bool>, parked: seq<bool>, done: set<int>,
      k: Key, n: nat)
    requires n <= |items| == |was| == |parked|
    requires forall i | 0 <= i < n && items[i].day in done :: parked[i] == was[i]
    ensures Due(q, items, parked, done, k, n) == Due(q, items, was, done, k, n)
  {
    if n > 0 { DueUntouched(q, items, was, parked, done, k, n - 1); }
  }

  lemma ConservedUntouched(q: Quota, items: seq<Item>, was: seq<bool>, parked: seq<bool>, done: set<int>,
      own: map<Key, nat>)
    requires |items| == |was| == |parked| && Conserved(q, items, was, done, own)
    requires forall i | 0 <= i < |items| && items[i].day in done :: parked[i] == was[i]
    ensures Conserved(q, items, parked, done, own)
  {
    forall k ensures Get(own, k) == Due(q, items, parked, done, k, |items|) {
      DueUntouched(q, items, was, parked, done, k, |items|);
    }
  }

  lemma OneMoreDecided(q: Quota, others: Others, items: seq<Item>, was: seq<bool>, parked: seq<bool>, days: seq<int>,
                       kept: seq<nat>, steps: seq<Step>, last: nat, step: Step)
    requires |items| == |was| == |parked| && |kept| == |steps| < |days| && Ascending(days)
    requires Decided(q, others, items, was, days, kept, steps)
    requires Conserved(q, items, was, SetOf(days, |kept|), step.own)
    requires forall i | 0 <= i < |items| && items[i].day != days[|kept|] :: parked[i] == was[i]
    requires Indexes(items, GroupOf(items, days[|kept|]))
    requires last == Decide(q, others, step.time, step.own, items, days[|kept|], GroupOf(items, days[|kept|]))
    ensures Decided(q, others, items, parked, days, kept + [last], steps + [step])
  {
    forall x | 0 <= x <= |kept| ensures Conserved(q, items, parked, SetOf(days, x), (steps + [step])[x].own) {
      ConservedUntouched(q, items, was, parked, SetOf(days, x), (steps + [step])[x].own);
    }
  }

  /** No day of the first n is a reason to refuse the batch. */
  ghost predicate Admitted(q: Quota, others: Others, items: seq<Item>, days: seq<int>, steps: seq<Step>,
                           full: int -> bool, n: nat)
    requires n <= |steps| <= |days|
  {
    forall x | 0 <= x < n :: DayRefusal(q, others, steps[x].time, steps[x].own, items, days[x], full(days[x])).None?
  }

  /** The batch is refused at the last day it came to, for that day's reason and on what the days before it hold. */
  ghost predicate RefusedAtLast(q: Quota, others: Others, items: seq<Item>, parked: seq<bool>, days: seq<int>,
                                kept: seq<nat>, steps: seq<Step>, full: int -> bool, refusal: Refusal)
    requires |items| == |parked| && |steps| <= |days|
  {
    var x := |kept|;
    && |steps| == x + 1 && Admitted(q, others, items, days, steps, full, x)
    && Conserved(q, items, parked, SetOf(days, x), steps[x].own)
    && DayRefusal(q, others, steps[x].time, steps[x].own, items, days[x], full(days[x])) == Some(refusal)
  }

  /** Where the pass is after the days it has placed. */
  ghost predicate Reached(q: Quota, others: Others, items: seq<Item>, parked: seq<bool>, days: seq<int>,
                          kept: seq<nat>, steps: seq<Step>, full: int -> bool, own: map<Key, nat>)
    requires |items| == |parked|
  {
    && |kept| == |steps| <= |days| && Placed(q, items, parked, days, kept, own)
    && Decided(q, others, items, parked, days, kept, steps) && Admitted(q, others, items, days, steps, full, |kept|)
  }

  lemma NextReached(q: Quota, others: Others, items: seq<Item>, was: seq<bool>, parked: seq<bool>, days: seq<int>,
                    kept: seq<nat>, steps: seq<Step>, full: int -> bool, last: nat, step: Step, own: map<Key, nat>)
    requires |items| == |was| == |parked| && |kept| < |days| && Ascending(days)
    requires Reached(q, others, items, was, days, kept, steps, full, step.own)
    requires var day := days[|kept|];
             && (forall i | 0 <= i < |items| && items[i].day != day :: parked[i] == was[i])
             && TailParked(items, parked, day, last) && Indexes(items, GroupOf(items, day))
             && last == Decide(q, others, step.time, step.own, items, day, GroupOf(items, day))
             && Grown(q, day, step.own, own, Recipients(items, GroupOf(items, day), last))
             && DayRefusal(q, others, step.time, step.own, items, day, full(day)).None?
    ensures Reached(q, others, items, parked, days, kept + [last], steps + [step], full, own)
  {
    OneMorePlaced(q, items, was, parked, days, kept, step.own, own, last);
    OneMoreDecided(q, others, items, was, parked, days, kept, steps, last, step);
  }

  lemma RefusedHere(q: Quota, others: Others, items: seq<Item>, parked: seq<bool>, days: seq<int>,
                    kept: seq<nat>, steps: seq<Step>, full: int -> bool, step: Step)
    requires |items| == |parked| && |kept| < |days|
    requires Reached(q, others, items, parked, days, kept, steps, full, step.own)
    requires DayRefusal(q, others, step.time, step.own, items, days[|kept|], full(days[|kept|])).Some?
    ensures RefusedAtLast(q, others, items, parked, days, kept, steps + [step], full,
                          DayRefusal(q, others, step.time, step.own, items, days[|kept|], full(days[|kept|])).value)
  {
  }

  lemma StillOpen(q: Quota, others: Others, items: seq<Item>, parked: seq<bool>, days: seq<int>,
                  kept: seq<nat>, steps: seq<Step>, full: int -> bool, own: map<Key, nat>)
    requires |items| == |parked| && |kept| < |days| && Ascending(days)
    requires Reached(q, others, items, parked, days, kept, steps, full, own)
    ensures forall i | 0 <= i < |items| && items[i].day == days[|kept|] :: !parked[i]
  {
    assert days[|kept|] !in SetOf(days, |kept|);
  }

  method PlaceDays(c: Counters, q: Quota, items: seq<Item>, days: seq<int>, parked: array<bool>,
      backlogFull: int -> bool)
    returns (refused: Option<Refusal>, kept: seq<nat>, ghost steps: seq<Step>)
    requires parked.Length == |items| && Ascending(days) && c.own == map[]
    requires forall i | 0 <= i < |items| :: !parked[i]
    modifies c, parked
    ensures |steps| <= |days|
    ensures refused.None? ==>
              |kept| == |days| && Reached(q, c.others, items, parked[..], days, kept, steps, backlogFull, c.own)
    ensures refused.Some? ==>
              RefusedAtLast(q, c.others, items, parked[..], days, kept, steps, backlogFull, refused.value)
  {
    kept, steps := [], [];
    NonePlaced(q, items, parked[..], days);
    while |kept| < |days|
      invariant |kept| <= |days| && Reached(q, c.others, items, parked[..], days, kept, steps, backlogFull, c.own)
    {
      ghost var step := Step(c.time, c.own);
      ghost var was := parked[..];
      var day := days[|kept|];
      StillOpen(q, c.others, items, was, days, kept, steps, backlogFull, c.own);
      var last;
      refused, last := PlaceDay(c, q, items, parked, day, backlogFull(day));
      if refused.Some? {
        RefusedHere(q, c.others, items, was, days, kept, steps, backlogFull, step);
        return refused, kept, steps + [step];
      }
      NextReached(q, c.others, items, was, parked[..], days, kept, steps, backlogFull, last, step, c.own);
      kept, steps := kept + [last], steps + [step];
    }
    refused := None;
  }

  lemma {:induction false} ParkOne(q: Quota, items: seq<Item>, parked: seq<bool>, done: set<int>, k: Key, i: nat,
      n: nat)
    requires i < |items| == |parked| && n <= |items| && !parked[i] && items[i].day in done
    ensures Due(q, items, parked[i := true], done, k, n) ==
            Due(q, items, parked, done, k, n) - if i < n && Counts(q, items[i].day, k) then items[i].recipients else 0
  {
    if n > 0 { ParkOne(q, items, parked, done, k, i, n - 1); }
  }

  lemma {:induction false} DueAtLeast(q: Quota, items: seq<Item>, parked: seq<bool>, done: set<int>, k: Key, i: nat,
      n: nat)
    requires i < n <= |items| == |parked| && !parked[i] && items[i].day in done && Counts(q, items[i].day, k)
    ensures items[i].recipients <= Due(q, items, parked, done, k, n)
  {
    if i < n - 1 { DueAtLeast(q, items, parked, done, k, i, n - 1); }
  }

  /** A review hold hands back every charge and parks what was not parked. */
  method HoldForReview(c: Counters, q: Quota, items: seq<Item>, parked: array<bool>, ghost done: set<int>)
    requires parked.Length == |items| && Conserved(q, items, parked[..], done, c.own)
    requires forall i | 0 <= i < |items| :: items[i].day in done
    modifies c, parked
    ensures forall i | 0 <= i < |items| :: parked[i]
    ensures forall k :: Get(c.own, k) == 0
  {
    for i := 0 to |items|
      invariant Conserved(q, items, parked[..], done, c.own)
      invariant forall x | 0 <= x < i :: parked[x]
    {
      if !parked[i] {
        ghost var was, before := parked[..], c.own;
        forall k | Counts(q, items[i].day, k) ensures items[i].recipients <= Get(c.own, k) {
          DueAtLeast(q, items, was, done, k, i, |items|);
        }
        c.ReleaseQuota(q, items[i].day, items[i].recipients);
        parked[i] := true;
        assert parked[..] == was[i := true];
        forall k ensures Get(c.own, k) == Due(q, items, parked[..], done, k, |items|) {
          ParkOne(q, items, was, done, k, i, |items|);
          assert Get(before, k) == Get(c.own, k) + if Counts(q, items[i].day, k) then items[i].recipients else 0;
        }
      }
    }
    forall k ensures Get(c.own, k) == 0 { NothingDue(q, items, parked[..], done, k, |items|); }
  }

  // ---- No limit is passed ----

  /** Right after each day that keeps items is charged, all its counters are within their ceilings. */
  ghost predicate EachWithin(q: Quota, others: Others, items: seq<Item>, parked: seq<bool>, days: seq<int>,
                             kept: seq<nat>, steps: seq<Step>)
    requires |items| == |parked| && |kept| == |steps| <= |days| && Decided(q, others, items, parked, days, kept, steps)
  {
    forall x, after | 0 <= x < |kept| && kept[x] > 0 && Conserved(q, items, parked, SetOf(days, x + 1), after) ::
      Within(q, days[x], others,
             ChargedAt(q, others, steps[x].time, steps[x].own, items, days[x], GroupOf(items, days[x])), after)
  }

  lemma DayWithin(q: Quota, others: Others, items: seq<Item>, parked: seq<bool>, days: seq<int>, kept: seq<nat>,
                  steps: seq<Step>, x: nat, after: map<Key, nat>)
    requires |items| == |parked| && |kept| == |steps| <= |days| && Ascending(days) && x < |kept| && kept[x] > 0
    requires TailsParked(items, parked, days, kept) && Decided(q, others, items, parked, days, kept, steps)
    requires Conserved(q, items, parked, SetOf(days, x + 1), after)
    ensures Within(q, days[x], others,
                   ChargedAt(q, others, steps[x].time, steps[x].own, items, days[x], GroupOf(items, days[x])), after)
  {
    var day, own, g := days[x], steps[x].own, GroupOf(items, days[x]);
    assert TailParked(items, parked, day, kept[x]);
    assert SetOf(days, x + 1) == SetOf(days, x) + {day} && day !in SetOf(days, x);
    KeptIsPrefix(items, parked, day, kept[x], |items|);
    forall k ensures Get(after, k) == Get(own, k) + if Counts(q, day, k) then Recipients(items, g, kept[x]) else 0 {
      OneMoreDay(q, items, parked, parked, SetOf(days, x), day, k, |items|);
      assert Get(own, k) == Due(q, items, parked, SetOf(days, x), k, |items|);
    }
    DecideWithin(q, others, steps[x].time, own, items, day, g, after);
  }

  lemma AllWithin(q: Quota, others: Others, items: seq<Item>, parked: seq<bool>, days: seq<int>, kept: seq<nat>,
                  steps: seq<Step>)
    requires |items| == |parked| && |kept| == |steps| <= |days| && Ascending(days)
    requires TailsParked(items, parked, days, kept) && Decided(q, others, items, parked, days, kept, steps)
    ensures EachWithin(q, others, items, parked, days, kept, steps)
  {
    forall x, after | 0 <= x < |kept| && kept[x] > 0 && Conserved(q, items, parked, SetOf(days, x + 1), after)
      ensures Within(q, days[x], others,
                     ChargedAt(q, others, steps[x].time, steps[x].own, items, days[x], GroupOf(items, days[x])),
                     after) {
      DayWithin(q, others, items, parked, days, kept, steps, x, after);
    }
  }

  lemma {:induction false} SameDue(q: Quota, items: seq<Item>, parked: seq<bool>, a: set<int>, b: set<int>, k: Key,
      n: nat)
    requires n <= |items| == |parked|
    requires forall i | 0 <= i < n && !parked[i] && Counts(q, items[i].day, k) ::
               items[i].day in a <==> items[i].day in b
    ensures Due(q, items, parked, a, k, n) == Due(q, items, parked, b, k, n)
  {
    if n > 0 { SameDue(q, items, parked, a, b, k, n - 1); }
  }

  /** An unparked item's day keeps items. */
  lemma UnparkedDay(items: seq<Item>, parked: seq<bool>, days: seq<int>, kept: seq<nat>, i: nat) returns (z: nat)
    requires |items| == |parked| && DaysOf(items, days) && |kept| == |days| && TailsParked(items, parked, days, kept)
    requires i < |items| && !parked[i]
    ensures z < |days| && days[z] == items[i].day && kept[z] > 0
  {
    assert items[i].day in days;
    z :| 0 <= z < |days| && days[z] == items[i].day;
    assert TailParked(items, parked, days[z], kept[z]);
    GroupIs(items, days[z], |items|);
    assert i in GroupOf(items, days[z]);
  }

  /** What the batch held once a day was charged. */
  function HeldAfter(q: Quota, items: seq<Item>, parked: seq<bool>, days: seq<int>, x: nat,
      own: map<Key, nat>): map<Key, nat>
    requires |items| == |parked| && x < |days|
  {
    map k | k in own.Keys :: Due(q, items, parked, SetOf(days, x + 1), k, |items|)
  }

  lemma HeldAfterConserves(q: Quota, items: seq<Item>, parked: seq<bool>, days: seq<int>, x: nat, own: map<Key, nat>)
    requires |items| == |parked| && x < |days| && Conserved(q, items, parked, SetOf(days, |days|), own)
    ensures Conserved(q, items, parked, SetOf(days, x + 1), HeldAfter(q, items, parked, days, x, own))
  {
    forall k ensures Get(HeldAfter(q, items, parked, days, x, own), k) ==
                     Due(q, items, parked, SetOf(days, x + 1), k, |items|) {
      DueGrows(q, items, parked, SetOf(days, x + 1), SetOf(days, |days|), k, |items|);
      assert Get(own, k) == Due(q, items, parked, SetOf(days, |days|), k, |items|);
    }
  }

  lemma {:induction false} DueGrows(q: Quota, items: seq<Item>, parked: seq<bool>, a: set<int>, b: set<int>, k: Key,
      n: nat)
    requires n <= |items| == |parked| && a <= b
    ensures Due(q, items, parked, a, k, n) <= Due(q, items, parked, b, k, n)
  {
    if n > 0 { DueGrows(q, items, parked, a, b, k, n - 1); }
  }

  /** The last day that keeps items, from day x on. */
  lemma {:induction false} LastKept(kept: seq<nat>, x: nat, n: nat) returns (y: nat)
    requires x < n <= |kept| && kept[x] > 0
    ensures x <= y < n && kept[y] > 0 && forall z | y < z < n :: kept[z] == 0
  {
    if kept[n - 1] > 0 { y := n - 1; } else { y := LastKept(kept, x, n - 1); }
  }

  /** A counter that no later day charges holds at the end what it held then. */
  lemma HeldToTheEnd(q: Quota, items: seq<Item>, parked: seq<bool>, days: seq<int>, kept: seq<nat>,
                     own: map<Key, nat>, x: nat, k: Key)
    requires |items| == |parked| && DaysOf(items, days) && |kept| == |days| && x < |days|
    requires TailsParked(items, parked, days, kept) && Conserved(q, items, parked, SetOf(days, |days|), own)
    requires forall z | x < z < |days| && kept[z] > 0 :: !Counts(q, days[z], k)
    ensures Get(HeldAfter(q, items, parked, days, x, own), k) == Get(own, k)
  {
    HeldAfterConserves(q, items, parked, days, x, own);
    var all, some := SetOf(days, |days|), SetOf(days, x + 1);
    forall i | 0 <= i < |items| && !parked[i] && Counts(q, items[i].day, k)
      ensures items[i].day in all && items[i].day in some {
      var z := UnparkedDay(items, parked, days, kept, i);
      assert days[z] in all;
    }
    SameDue(q, items, parked, some, all, k, |items|);
  }

  lemma QuietCap(cap: Cap, others: Others, t: nat, u: nat, a: map<Key, nat>, b: map<Key, nat>)
    requires Quiet(others) && CapFits(cap, others, t, a, 0) && Get(a, cap.key) == Get(b, cap.key)
    ensures CapFits(cap, others, u, b, 0)
  {
    assert others(t, cap.key) == others(0, cap.key) == others(u, cap.key);
  }

  /** With no one else on the counters, every day that keeps items ends with all its counters within their ceilings. */
  lemma QuietWithin(q: Quota, others: Others, items: seq<Item>, parked: seq<bool>, days: seq<int>, kept: seq<nat>,
                    steps: seq<Step>, own: map<Key, nat>, x: nat, t: nat)
    requires Quiet(others) && |items| == |parked| && DaysOf(items, days) && |kept| == |steps| == |days|
    requires TailsParked(items, parked, days, kept) && Decided(q, others, items, parked, days, kept, steps)
    requires Conserved(q, items, parked, SetOf(days, |days|), own) && x < |days| && kept[x] > 0
    ensures Within(q, days[x], others, t, own)
  {
    var y := LastKept(kept, x, |kept|);
    var caps := Caps(q, days[x]);
    forall i | 0 <= i < |caps| ensures CapFits(caps[i], others, t, own, 0) {
      var z := if caps[i].key == Period then y else x;
      var held := HeldAfter(q, items, parked, days, z, own);
      assert Caps(q, days[z])[i] == caps[i];
      HeldAfterConserves(q, items, parked, days, z, own);
      DayWithin(q, others, items, parked, days, kept, steps, z, held);
      HeldToTheEnd(q, items, parked, days, kept, own, z, caps[i].key);
      assert CapFits(Caps(q, days[z])[i], others,
                     ChargedAt(q, others, steps[z].time, steps[z].own, items, days[z], GroupOf(items, days[z])),
                     held, 0);
      QuietCap(caps[i], others,
               ChargedAt(q, others, steps[z].time, steps[z].own, items, days[z], GroupOf(items, days[z])),
               t, held, own);
    }
  }

  // ---- When the batch goes out whole ----

  /** The recipients of all items. */
  function Total(items: seq<Item>, n: nat): nat
    requires n <= |items|
  {
    if n == 0 then 0 else Total(items, n - 1) + items[n - 1].recipients
  }

  /** What others hold and the batch's own recipients of the day, and of the period, are within every ceiling. */
  ghost predicate Roomy(q: Quota, others: Others, items: seq<Item>, day: int) {
    var count := DayTotal(items, day, |items|);
    match q
    case Unlimited => true
    case Daily(_, ceiling, pool) =>
      others(0, TeamDay(day)) + count <= ceiling && (pool.Some? ==> others(0, PoolDay(day)) + count <= pool.value)
    case Monthly(ceiling, dayCeiling) =>
      && others(0, Period) + Total(items, |items|) <= ceiling
      && (dayCeiling.Some? ==> others(0, TeamDay(day)) + count <= dayCeiling.value)
  }

  lemma {:induction false} DueBefore(q: Quota, items: seq<Item>, parked: seq<bool>, done: set<int>, day: int, n: nat)
    requires n <= |items| == |parked| && day !in done
    ensures Due(q, items, parked, done, TeamDay(day), n) == Due(q, items, parked, done, PoolDay(day), n) == 0
    ensures Due(q, items, parked, done, Period, n) + DayTotal(items, day, n) <= Total(items, n)
  {
    if n > 0 { DueBefore(q, items, parked, done, day, n - 1); }
  }

  /** A roomy day fits whole, on top of the days before it. */
  lemma RoomyFits(q: Quota, others: Others, items: seq<Item>, parked: seq<bool>, days: seq<int>, x: nat, t: nat,
                  own: map<Key, nat>)
    requires Quiet(others) && |items| == |parked| && Ascending(days) && x < |days|
    requires Conserved(q, items, parked, SetOf(days, x), own) && Roomy(q, others, items, days[x])
    ensures Fits(q, days[x], others, t, own, DayTotal(items, days[x], |items|))
  {
    var day := days[x];
    DueBefore(q, items, parked, SetOf(days, x), day, |items|);
    assert forall k :: others(t, k) == others(0, k) && Get(own, k) == Due(q, items, parked, SetOf(days, x), k, |items|);
    FitsSpec(q, day, others, t, own, DayTotal(items, day, |items|));
  }

  lemma {:induction false} NoneParked(items: seq<Item>, parked: seq<bool>, day: int, n: nat)
    requires n <= |items| == |parked| && forall i | 0 <= i < |items| :: !parked[i]
    ensures DayKept(items, parked, day, n) == DayTotal(items, day, n) && AllKept(items, parked, n) == Total(items, n)
  {
    if n > 0 { NoneParked(items, parked, day, n - 1); }
  }

  /** A batch that went out whole left every day roomy. */
  lemma WholeIsRoomy(q: Quota, others: Others, items: seq<Item>, parked: seq<bool>, days: seq<int>, kept: seq<nat>,
                     steps: seq<Step>, own: map<Key, nat>, x: nat)
    requires Quiet(others) && |items| == |parked| && DaysOf(items, days) && |kept| == |steps| == |days|
    requires TailsParked(items, parked, days, kept) && Decided(q, others, items, parked, days, kept, steps)
    requires Conserved(q, items, parked, SetOf(days, |days|), own) && x < |days|
    requires forall i | 0 <= i < |items| :: !parked[i]
    ensures Roomy(q, others, items, days[x])
  {
    var day := days[x];
    assert day in days;
    var i :| 0 <= i < |items| && items[i].day == day;
    var z := UnparkedDay(items, parked, days, kept, i);
    QuietWithin(q, others, items, parked, days, kept, steps, own, x, 0);
    ChargeIsKept(q, items, parked, days, kept, own, x);
    NoneParked(items, parked, day, |items|);
    assert Fits(q, day, others, 0, own, 0);
    FitsSpec(q, day, others, 0, own, 0);
  }

  /** Days that keep all their items leave none parked. */
  lemma AllKeptParksNone(items: seq<Item>, parked: seq<bool>, days: seq<int>, kept: seq<nat>)
    requires |items| == |parked| && DaysOf(items, days) && |kept| == |days| && TailsParked(items, parked, days, kept)
    requires forall x | 0 <= x < |days| :: kept[x] == |GroupOf(items, days[x])|
    ensures forall i | 0 <= i < |items| :: !parked[i]
  {
    forall i | 0 <= i < |items| ensures !parked[i] {
      assert items[i].day in days;
      var z :| 0 <= z < |days| && days[z] == items[i].day;
      assert TailParked(items, parked, days[z], kept[z]);
      GroupIs(items, days[z], |items|);
      assert i in GroupOf(items, days[z]);
    }
  }

  /** With no one else on the counters, a batch that is not refused goes out whole if and only if every day is roomy. */
  lemma WholeIff(q: Quota, others: Others, items: seq<Item>, parked: seq<bool>, days: seq<int>, kept: seq<nat>,
                 steps: seq<Step>, own: map<Key, nat>)
    requires Quiet(others) && |items| == |parked| && DaysOf(items, days) && |kept| == |steps| == |days|
    requires TailsParked(items, parked, days, kept) && Decided(q, others, items, parked, days, kept, steps)
    requires Conserved(q, items, parked, SetOf(days, |days|), own)
    ensures (forall i | 0 <= i < |items| :: !parked[i]) <==>
            (forall x | 0 <= x < |days| :: Roomy(q, others, items, days[x]))
  {
    if forall i | 0 <= i < |items| :: !parked[i] {
      forall x | 0 <= x < |days| ensures Roomy(q, others, items, days[x]) {
        WholeIsRoomy(q, others, items, parked, days, kept, steps, own, x);
      }
    }
    if forall x | 0 <= x < |days| :: Roomy(q, others, items, days[x]) {
      forall x | 0 <= x < |days| ensures kept[x] == |GroupOf(items, days[x])| {
        GroupTotal(items, days[x], |items|);
        RoomyFits(q, others, items, parked, days, x, steps[x].time, steps[x].own);
      }
      AllKeptParksNone(items, parked, days, kept);
    }
  }

  /** A roomy day is no reason to refuse. */
  lemma RefusedIsNotRoomy(q: Quota, others: Others, items: seq<Item>, parked: seq<bool>, days: seq<int>,
                          kept: seq<nat>, steps: seq<Step>, full: int -> bool, refusal: Refusal)
    requires Quiet(others) && |items| == |parked| && Ascending(days) && |steps| <= |days|
    requires RefusedAtLast(q, others, items, parked, days, kept, steps, full, refusal)
    ensures !Roomy(q, others, items, days[|kept|])
  {
    var x := |kept|;
    if Roomy(q, others, items, days[x]) {
      RoomyFits(q, others, items, parked, days, x, steps[x].time, steps[x].own);
      FitsSpec(q, days[x], others, steps[x].time, steps[x].own, DayTotal(items, days[x], |items|));
      assert false;
    }
  }

  /**
   * The pass over a batch whose items are all inserted. It is refused exactly
   * at the first day that is a reason to, or when a held batch finds the
   * review queue full, and then commits nothing. Otherwise every day keeps
   * the prefix of its items decided for it and every counter holds just their
   * recipients; under review nothing goes out and nothing stays charged.
   */
  method PlaceBatch(c: Counters, q: Quota, items: seq<Item>, parked: array<bool>, underReview: bool,
                    backlogFull: int -> bool, reviewFull: bool)
    returns (refused: Option<Refusal>, days: seq<int>, kept: seq<nat>, ghost steps: seq<Step>)
    requires parked.Length == |items| && c.own == map[] && forall i | 0 <= i < |items| :: !parked[i]
    modifies c, parked
    ensures DaysOf(items, days) && |steps| <= |days|
    ensures refused.Some? ==> c.own == map[]
    ensures refused.Some? ==>
              if underReview && reviewFull && |kept| == |days|
              then
                && refused == Some(QuotaBacklogFull) && |steps| == |days|
                && Admitted(q, c.others, items, days, steps, backlogFull, |days|)
              else RefusedAtLast(q, c.others, items, parked[..], days, kept, steps, backlogFull, refused.value)
    ensures refused.None? ==>
              && !(underReview && reviewFull) && |kept| == |steps| == |days|
              && Admitted(q, c.others, items, days, steps, backlogFull, |days|)
    ensures refused.None? && !underReview ==>
              && TailsParked(items, parked[..], days, kept)
              && Decided(q, c.others, items, parked[..], days, kept, steps)
              && Conserved(q, items, parked[..], SetOf(days, |days|), c.own)
              && EachWithin(q, c.others, items, parked[..], days, kept, steps)
              && (Quiet(c.others) ==> forall x | 0 <= x < |days| && kept[x] > 0 ::
                    Within(q, days[x], c.others, c.time, c.own))
    ensures refused.None? && underReview ==>
              (forall i | 0 <= i < |items| :: parked[i]) && forall k :: Get(c.own, k) == 0
    ensures Quiet(c.others) && !underReview ==>
              ((refused.None? && forall i | 0 <= i < |items| :: !parked[i]) <==>
               forall x | 0 <= x < |days| :: Roomy(q, c.others, items, days[x]))
  {
    days := DeliveryDays(items);
    refused, kept, steps := PlaceDays(c, q, items, days, parked, backlogFull);
    if refused.Some? {
      if Quiet(c.others) {
        RefusedIsNotRoomy(q, c.others, items, parked[..], days, kept, steps, backlogFull, refused.value);
      }
      c.RollBack();
      return;
    }
    if underReview {
      forall i | 0 <= i < |items| ensures items[i].day in SetOf(days, |days|) { assert items[i].day in days; }
      HoldForReview(c, q, items, parked, SetOf(days, |days|));
      if reviewFull {
        c.RollBack();
        return Some(QuotaBacklogFull), days, kept, steps;
      }
    } else {
      AllWithin(q, c.others, items, parked[..], days, kept, steps);
      if Quiet(c.others) {
        WholeIff(q, c.others, items, parked[..], days, kept, steps, c.own);
        forall x | 0 <= x < |days| && kept[x] > 0 ensures Within(q, days[x], c.others, c.time, c.own) {
          QuietWithin(q, c.others, items, parked[..], days, kept, steps, c.own, x, c.time);
        }
      }
    }
  }

  // ---- What conservation says of each counter ----

  lemma {:induction false} DueOnDay(q: Quota, items: seq<Item>, parked: seq<bool>, done: set<int>, day: int, k: Key,
      n: nat)
    requires n <= |items| == |parked| && day in done
    requires k == TeamDay(day) || (q.Daily? && q.pool.Some? && k == PoolDay(day))
    ensures Due(q, items, parked, done, k, n) == DayKept(items, parked, day, n)
  {
    if n > 0 { DueOnDay(q, items, parked, done, day, k, n - 1); }
  }

  /** The recipients of all unparked items. */
  function AllKept(items: seq<Item>, parked: seq<bool>, n: nat): nat
    requires n <= |items| == |parked|
  {
    if n == 0 then 0 else AllKept(items, parked, n - 1) + if !parked[n - 1] then items[n - 1].recipients else 0
  }

  lemma {:induction false} DueInPeriod(q: Quota, items: seq<Item>, parked: seq<bool>, done: set<int>, n: nat)
    requires n <= |items| == |parked| && q.Monthly? && forall i | 0 <= i < n :: items[i].day in done
    ensures Due(q, items, parked, done, Period, n) == AllKept(items, parked, n)
  {
    if n > 0 { DueInPeriod(q, items, parked, done, n - 1); }
  }

  /**
   * The batch's charge on each day, and in all, is the recipients it sends to:
   * its unparked items of that day, a prefix of them.
   */
  lemma ChargeIsKept(q: Quota, items: seq<Item>, parked: seq<bool>, days: seq<int>, kept: seq<nat>, own: map<Key, nat>,
      x: nat)
    requires |items| == |parked| && DaysOf(items, days) && |kept| == |days| && x < |days|
    requires TailsParked(items, parked, days, kept) && Conserved(q, items, parked, SetOf(days, |days|), own)
    ensures Get(own, TeamDay(days[x])) == DayKept(items, parked, days[x], |items|)
    ensures Indexes(items, GroupOf(items, days[x])) && kept[x] <= |GroupOf(items, days[x])|
    ensures Get(own, TeamDay(days[x])) == Recipients(items, GroupOf(items, days[x]), kept[x])
    ensures q.Daily? && q.pool.Some? ==> Get(own, PoolDay(days[x])) == Get(own, TeamDay(days[x]))
    ensures q.Monthly? ==> Get(own, Period) == AllKept(items, parked, |items|)
  {
    var done, day := SetOf(days, |days|), days[x];
    DueOnDay(q, items, parked, done, day, TeamDay(day), |items|);
    if q.Daily? && q.pool.Some? { DueOnDay(q, items, parked, done, day, PoolDay(day), |items|); }
    assert TailParked(items, parked, days[x], kept[x]);
    KeptIsPrefix(items, parked, day, kept[x], |items|);
    if q.Monthly? {
      forall i | 0 <= i < |items| ensures items[i].day in done { assert items[i].day in days; }
      DueInPeriod(q, items, parked, done, |items|);
    }
  }
}
