/**
 * The client's pacing of its own requests (packages/cli/src/http.ts): slots
 * handed out one gap apart, holds taken from the rate headers, the rate
 * halved on a 429 and climbing back one request per second each second.
 * Requests run side by side, so these steps come in any order; times are in
 * milliseconds, and the clock is read anew each time and may even run back.
 */
module Pacer {
  import opened Common

  datatype Pacer = Pacer(target: real, rps: real, rampedAt: real, nextSlot: real, holdUntil: real, starts: seq<real>)

  datatype Event =
    | Acquire(now: real)
    | Headers(now: real, remaining: Option<real>, reset: Option<real>)
    | Limited(now: real)
    | SetRps(next: real)

  const MAX_WAIT_MS := 120_000.0
  const REMAINING_RESERVE := 2.0

  function Fresh(rps: real): Pacer { Pacer(rps, rps, 0.0, 0.0, 0.0, []) }

  function MaxR(a: real, b: real): real { if a < b then b else a }

  function MinR(a: real, b: real): real { if a < b then a else b }

  function ClampWait(ms: real): real { MinR(MAX_WAIT_MS, MaxR(0.0, ms)) }

  /** Whole seconds since the last step of the ramp. */
  function Steps(p: Pacer, now: real): int { ((now - p.rampedAt) / 1000.0).Floor }

  /** `currentRps`: the climb is worked out only when the rate is asked for. */
  function Ramp(p: Pacer, now: real): Pacer {
    if p.rps < p.target && Steps(p, now) > 0 then
      p.(rps := MinR(p.target, p.rps + Steps(p, now) as real), rampedAt := p.rampedAt + Steps(p, now) as real * 1000.0)
    else p
  }

  function SlotAt(p: Pacer, now: real): real { MaxR(now, MaxR(p.nextSlot, p.holdUntil)) }

  function Next(p: Pacer, e: Event): Pacer
    requires p.rps > 0.0
  {
    match e
    case Acquire(now) =>
      var at := SlotAt(p, now);
      var ramped := Ramp(p, now);
      ramped.(nextSlot := at + 1000.0 / ramped.rps, starts := p.starts + [at])
    case Headers(now, remaining, reset) =>
      if remaining.Some? && reset.Some? && remaining.value <= REMAINING_RESERVE
      then p.(holdUntil := MaxR(p.holdUntil, now + ClampWait(reset.value * 1000.0)))
      else p
    case Limited(now) => p.(rps := MaxR(1.0, p.rps / 2.0), rampedAt := now)
    case SetRps(next) => p.(rps := if p.rps >= p.target then next else MinR(p.rps, next), target := next)
  }

  /** Every target asked for lies between 1 and r. */
  ghost predicate Targets(events: seq<Event>, r: real) {
    forall e | e in events :: TargetOk(e, r)
  }

  ghost predicate Paced(p: Pacer, r: real) {
    && 1.0 <= p.rps <= p.target <= r
    && Apart(p.starts + [p.nextSlot], 1000.0 / r)
  }

  ghost predicate Apart(slots: seq<real>, gap: real) {
    forall i | 0 <= i < |slots| - 1 :: slots[i + 1] >= slots[i] + gap
  }

  lemma Scales(a: real, b: real, c: real)
    requires a < b && c > 0.0
    ensures a * c < b * c
  {
  }

  lemma NonNegative(a: real, b: real)
    requires a >= 0.0 && b >= 0.0
    ensures a * b >= 0.0
  {
  }

  lemma SameProduct(a: real, x: real, b: real, y: real)
    requires 0.0 < x <= y && a * x == b * y > 0.0
    ensures a >= b
  {
    if a < b {
      Scales(a, b, x);
      if b > 0.0 {
        NonNegative(b, y - x);
      } else {
        NonNegative(-b, y);
      }
    }
  }

  lemma GapShrinks(rate: real, r: real)
    requires 1.0 <= rate <= r
    ensures 1000.0 / rate >= 1000.0 / r
  {
    assert 1000.0 / rate * rate == 1000.0;
    assert 1000.0 / r * r == 1000.0;
    SameProduct(1000.0 / rate, rate, 1000.0 / r, r);
  }

  lemma AcquireKeeps(p: Pacer, now: real, r: real)
    requires Paced(p, r)
    ensures Paced(Next(p, Acquire(now)), r)
  {
    var n := Next(p, Acquire(now));
    GapShrinks(n.rps, r);
    var was, slots := p.starts + [p.nextSlot], n.starts + [n.nextSlot];
    forall i | 0 <= i < |slots| - 1 ensures slots[i + 1] >= slots[i] + 1000.0 / r {
      if i + 1 < |was| { assert was[i + 1] >= was[i] + 1000.0 / r; }
    }
  }

  predicate TargetOk(e: Event, r: real) { e.SetRps? ==> 1.0 <= e.next <= r }

  lemma NextKeeps(p: Pacer, e: Event, r: real)
    requires Paced(p, r) && TargetOk(e, r)
    ensures Paced(Next(p, e), r)
  {
    if e.Acquire? { AcquireKeeps(p, e.now, r); }
  }

  /** The pacer after the events. */
  function Run(rps: real, events: seq<Event>): (p: Pacer)
    requires rps > 0.0 && forall e | e in events && e.SetRps? :: e.next > 0.0
    ensures p.rps > 0.0
  {
    if events == [] then Fresh(rps) else Next(Run(rps, events[..|events| - 1]), events[|events| - 1])
  }

  lemma {:induction false} RunKeeps(rps: real, events: seq<Event>, r: real)
    requires 1.0 <= rps <= r && Targets(events, r)
    ensures Paced(Run(rps, events), r)
  {
    if events != [] {
      RunKeeps(rps, events[..|events| - 1], r);
      NextKeeps(Run(rps, events[..|events| - 1]), events[|events| - 1], r);
    }
  }

  /** The effective rate stays between 1 and the target. */
  lemma RateBounded(rps: real, events: seq<Event>, r: real)
    requires 1.0 <= rps <= r && Targets(events, r)
    ensures 1.0 <= Run(rps, events).rps <= Run(rps, events).target <= r
  {
    RunKeeps(rps, events, r);
  }

  lemma {:induction false} Spaced(p: Pacer, r: real, i: nat, j: nat)
    requires Paced(p, r) && i <= j < |p.starts|
    ensures p.starts[j] - p.starts[i] >= (j - i) as real * (1000.0 / r)
  {
    if i < j {
      Spaced(p, r, i, j - 1);
      var slots := p.starts + [p.nextSlot];
      assert slots[j] >= slots[j - 1] + 1000.0 / r;
      assert (j - i) as real == (j - 1 - i) as real + 1.0;
    }
  }

  /**
   * Whatever comes in between, two starts are a gap of the fastest target apart
   * for each start from one to the other.
   */
  lemma StartsSpaced(rps: real, events: seq<Event>, r: real, i: nat, j: nat)
    requires 1.0 <= rps <= r && Targets(events, r) && i <= j < |Run(rps, events).starts|
    ensures Run(rps, events).starts[j] - Run(rps, events).starts[i] >= (j - i) as real * (1000.0 / r)
  {
    RunKeeps(rps, events, r);
    Spaced(Run(rps, events), r, i, j);
  }

  // ---- Any window ----

  function Within(starts: seq<real>, from: real, w: real): set<nat> {
    set k: nat | k < |starts| && from <= starts[k] <= from + w
  }

  lemma {:induction false} SizeOfRange(s: set<nat>, low: nat, high: nat)
    requires low <= high && forall k | k in s :: low <= k <= high
    ensures |s| <= high - low + 1
  {
    if low == high {
      assert s <= {low};
      SubsetSize(s, {low});
    } else {
      SizeOfRange(s - {high}, low, high - 1);
      assert s <= (s - {high}) + {high};
      SubsetSize(s, (s - {high}) + {high});
    }
  }

  lemma {:induction false} Ends(s: set<nat>) returns (low: nat, high: nat)
    requires s != {}
    ensures low in s && high in s && forall k | k in s :: low <= k <= high
  {
    var x :| x in s;
    if s == {x} { return x, x; }
    low, high := Ends(s - {x});
    if x < low { low := x; }
    if x > high { high := x; }
    forall k | k in s ensures low <= k <= high { if k != x { assert k in s - {x}; } }
  }

  lemma FromGaps(n: int, w: real, r: real)
    requires r >= 1.0 && n as real * (1000.0 / r) <= w
    ensures n as real <= w * r / 1000.0
  {
    var gap := 1000.0 / r;
    NonNegative(w - n as real * gap, r);
    assert n as real * gap * r == n as real * (gap * r);
    assert gap * r == 1000.0;
  }

  /** Any window of w milliseconds holds at most w * r / 1000 + 1 starts. */
  lemma WindowBound(rps: real, events: seq<Event>, r: real, from: real, w: real)
    requires 1.0 <= rps <= r && Targets(events, r) && w >= 0.0
    ensures |Within(Run(rps, events).starts, from, w)| as real <= w * r / 1000.0 + 1.0
  {
    RunKeeps(rps, events, r);
    var p := Run(rps, events);
    var s := Within(p.starts, from, w);
    if s == {} {
      NonNegative(w, r);
    } else {
      var low, high := Ends(s);
      Spaced(p, r, low, high);
      FromGaps(high - low, w, r);
      SizeOfRange(s, low, high);
    }
  }

  // ---- Holds ----

  /** An answer that says two requests or fewer are left. */
  predicate NearlySpent(e: Event) { e.Headers? && e.remaining.Some? && e.reset.Some? && e.remaining.value <= 2.0 }

  /** The wait it asks for: its seconds until the reset, at least none and at most two minutes. */
  function Until(e: Event): real
    requires NearlySpent(e)
  {
    var ms := e.reset.value * 1000.0;
    e.now + if ms <= 0.0 then 0.0 else if ms >= 120_000.0 then 120_000.0 else ms
  }

  /** The hold is the longest wait any answer so far asked for, and no longer. */
  lemma {:induction false} HoldIs(rps: real, events: seq<Event>)
    requires rps > 0.0 && forall e | e in events && e.SetRps? :: e.next > 0.0
    ensures var hold := Run(rps, events).holdUntil;
            && (forall e | e in events && NearlySpent(e) :: Until(e) <= hold)
            && (hold == 0.0 || exists e | e in events :: NearlySpent(e) && Until(e) == hold)
  {
    if events != [] {
      var n := |events| - 1;
      HoldIs(rps, events[..n]);
      assert events == events[..n] + [events[n]];
      assert forall e :: e in events <==> e in events[..n] || e == events[n];
      var was, hold := Run(rps, events[..n]).holdUntil, Run(rps, events).holdUntil;
      if hold != was {
        assert NearlySpent(events[n]) && Until(events[n]) == hold;
      } else if e :| e in events[..n] && NearlySpent(e) && Until(e) == hold {
        assert e in events;
      }
    }
  }

  /** Each start is at its own time, the next slot or the hold, whichever is last: after every wait asked for. */
  lemma HoldRespected(rps: real, events: seq<Event>, i: nat, j: nat)
    requires rps > 0.0 && (forall e | e in events && e.SetRps? :: e.next > 0.0) && j < |events| && events[j].Acquire?
    ensures var was, starts := Run(rps, events[..j]), Run(rps, events[..j + 1]).starts;
            && starts != []
            && var start := starts[|starts| - 1];
            && start >= events[j].now && start >= was.nextSlot
            && (i < j && NearlySpent(events[i]) ==> start >= Until(events[i]))
            && (|| start == events[j].now || start == was.nextSlot || start == 0.0
                || exists e | e in events[..j] :: NearlySpent(e) && start == Until(e))
  {
    assert events[..j + 1][..j] == events[..j];
    if i < j { assert events[i] == events[..j][i]; }
    HoldIs(rps, events[..j]);
  }

  // ---- The ramp ----

  lemma FloorAdds(x: real, n: int)
    ensures (x - n as real).Floor == x.Floor - n
  {
  }

  /** Asking on the way does not change the rate found later: the lazy climb is the climb. */
  lemma RampSplits(p: Pacer, now: real, later: real)
    requires now <= later
    ensures Ramp(Ramp(p, now), later).rps == Ramp(p, later).rps
  {
    if p.rps < p.target && Steps(p, now) > 0 {
      var k := Steps(p, now);
      var x := (later - p.rampedAt) / 1000.0;
      assert (later - (p.rampedAt + k as real * 1000.0)) / 1000.0 == x - k as real;
      FloorAdds(x, k);
      assert (now - p.rampedAt) / 1000.0 <= x;
    }
  }

  /** After a 429 and k quiet seconds, the rate is k above the half it fell to, up to the target. */
  lemma Recovers(p: Pacer, at: real, k: nat)
    requires 1.0 <= p.rps <= p.target
    ensures var cut := Next(p, Limited(at));
            && cut.rps == MaxR(1.0, p.rps / 2.0)
            && Ramp(cut, at + k as real * 1000.0).rps == MinR(p.target, cut.rps + k as real)
  {
    assert (at + k as real * 1000.0 - at) / 1000.0 == k as real;
  }

  /** A 429 leaves the rate above the target exactly when the target is under 1: the floor of 1 is not the target's. */
  lemma CutAboveTargetIff(p: Pacer, at: real)
    requires 0.0 < p.rps <= p.target
    ensures Next(p, Limited(at)).rps > p.target <==> p.target < 1.0
  {
  }

  /** So an unthrottled client with such a target is sped up by being limited. */
  lemma FloorAboveTarget(target: real, at: real)
    requires 0.0 < target < 1.0
    ensures var p := Fresh(target); p.rps == target && Next(p, Limited(at)).rps == 1.0 > Next(p, Limited(at)).target
  {
    CutAboveTargetIff(Fresh(target), at);
  }

  /** The target is the last one asked for. */
  function Target(rps: real, events: seq<Event>): real {
    if events == [] then rps else
      var last := events[|events| - 1];
      if last.SetRps? then last.next else Target(rps, events[..|events| - 1])
  }

  /** A client never limited runs at its target, whatever it is changed to; */
  lemma {:induction false} UnlimitedFollows(rps: real, events: seq<Event>)
    requires rps > 0.0 && (forall e | e in events && e.SetRps? :: e.next > 0.0)
    requires forall e | e in events :: !e.Limited?
    ensures Run(rps, events).rps == Run(rps, events).target == Target(rps, events)
  {
    if events != [] { UnlimitedFollows(rps, events[..|events| - 1]); }
  }

  /** and one still climbing does not jump to a new target. */
  lemma ClimbsOn(p: Pacer, next: real)
    requires 0.0 < p.rps < p.target && next > 0.0
    ensures var after := Next(p, SetRps(next));
            after.target == next && after.rps <= p.rps && (next >= p.rps ==> after.rps == p.rps)
  {
  }

  class Pacing {
    var targetRps: real
    var rps: real
    var rampedAt: real
    var nextSlot: real
    var holdUntil: real
    ghost var starts: seq<real>

    ghost function View(): Pacer
      reads this
    {
      Pacer(targetRps, rps, rampedAt, nextSlot, holdUntil, starts)
    }

    constructor (rps: real)
      ensures View() == Fresh(rps)
      ensures forall r | 1.0 <= rps <= r :: Paced(View(), r)
    {
      this.targetRps, this.rps := rps, rps;
      rampedAt, nextSlot, holdUntil := 0.0, 0.0, 0.0;
      starts := [];
    }

    method CurrentRps(now: real) returns (rate: real)
      modifies this
      ensures View() == Ramp(old(View()), now) && rate == rps
      ensures forall r :: old(Paced(View(), r)) ==> Paced(View(), r)
    {
      if rps < targetRps {
        var steps := ((now - rampedAt) / 1000.0).Floor;
        if steps > 0 {
          rps := MinR(targetRps, rps + steps as real);
          rampedAt := rampedAt + steps as real * 1000.0;
        }
      }
      return rps;
    }

    /** Answers how long to sleep before the request may start. */
    method Acquire(now: real) returns (sleep: real)
      requires rps > 0.0
      modifies this
      ensures View() == Next(old(View()), Event.Acquire(now))
      ensures forall r :: old(Paced(View(), r)) ==> Paced(View(), r)
      ensures sleep == SlotAt(old(View()), now) - now >= 0.0
    {
      forall r | Paced(View(), r) ensures Paced(Next(View(), Event.Acquire(now)), r) { AcquireKeeps(View(), now, r); }
      var at := MaxR(now, MaxR(nextSlot, holdUntil));
      var rate := CurrentRps(now);
      nextSlot := at + 1000.0 / rate;
      starts := starts + [at];
      return at - now;
    }

    method ReadRateHeaders(now: real, remaining: Option<real>, reset: Option<real>)
      requires rps > 0.0
      modifies this
      ensures View() == Next(old(View()), Headers(now, remaining, reset))
      ensures forall r :: old(Paced(View(), r)) ==> Paced(View(), r)
    {
      if remaining.Some? && reset.Some? && remaining.value <= REMAINING_RESERVE {
        holdUntil := MaxR(holdUntil, now + ClampWait(reset.value * 1000.0));
      }
    }

    method RateLimited(now: real)
      requires rps > 0.0
      modifies this
      ensures View() == Next(old(View()), Limited(now))
      ensures forall r :: old(Paced(View(), r)) ==> Paced(View(), r)
    {
      rps := MaxR(1.0, rps / 2.0);
      rampedAt := now;
    }

    method SetRps(next: real)
      requires rps > 0.0
      modifies this
      ensures View() == Next(old(View()), Event.SetRps(next))
      ensures forall r | 1.0 <= next <= r :: old(Paced(View(), r)) ==> Paced(View(), r)
    {
      rps := if rps >= targetRps then next else MinR(rps, next);
      targetRps := next;
    }
  }

  // ---- The retry loop ----

  /** How the n-th attempt of a request may end. `planLimit` is a 403 that names a plan limit. */
  datatype Outcome = Network | Status(code: nat, planLimit: bool)

  datatype Reply = Success(code: nat) | NoAuth(code: nat) | Failed(code: nat) | GaveUp

  predicate Broken(o: Outcome) { o.Network? || o.code >= 500 }

  predicate Limits(o: Outcome) { o.Status? && o.code == 429 }

  function Count(outcomes: nat -> Outcome, n: nat, which: Outcome -> bool): nat {
    if n == 0 then 0 else Count(outcomes, n - 1, which) + if which(outcomes(n - 1)) then 1 else 0
  }

  function Pow2(n: nat): nat { if n == 0 then 1 else 2 * Pow2(n - 1) }

  /**
   * A request is answered by the first outcome that is neither a broken
   * exchange nor a 429, unless it runs out of attempts for one or the other
   * first; a broken exchange backs off twice as long as the last.
   */
  method Request(outcomes: nat -> Outcome, maxAttempts: nat, rateLimitAttempts: nat)
    returns (reply: Reply, attempts: nat, backoff: nat)
    requires maxAttempts > 0 && rateLimitAttempts > 0
    ensures 0 < attempts < maxAttempts + rateLimitAttempts
    ensures forall k: nat | k < attempts - 1 ::
              var o := outcomes(k); o.Network? || o.code >= 500 || o.code == 429
    ensures var last := outcomes(attempts - 1);
            match reply
            case GaveUp => last.Network? || last.code >= 500 || last.code == 429
            case NoAuth(code) => last.Status? && last.code == code && (code == 401 || (code == 403 && !last.planLimit))
            case Failed(code) => && last.Status? && last.code == code && 400 <= code < 500
                                 && code != 401 && code != 429 && (code == 403 ==> last.planLimit)
            case Success(code) => last.Status? && last.code == code < 400
    ensures reply == GaveUp <==> Count(outcomes, attempts, Broken) == maxAttempts ||
                                 Count(outcomes, attempts, Limits) == rateLimitAttempts
    ensures backoff == 1000 * (Pow2(Count(outcomes, attempts - 1, Broken)) - 1)
  {
    var rateLimited, failures := 0, 0;
    attempts, backoff := 0, 0;
    while true
      invariant failures < maxAttempts && rateLimited < rateLimitAttempts
      invariant failures == Count(outcomes, attempts, Broken) && rateLimited == Count(outcomes, attempts, Limits)
      invariant attempts == failures + rateLimited
      invariant forall k: nat | k < attempts :: Broken(outcomes(k)) || Limits(outcomes(k))
      invariant backoff == 1000 * (Pow2(failures) - 1)
      decreases maxAttempts - failures + rateLimitAttempts - rateLimited
    {
      var o := outcomes(attempts);
      attempts := attempts + 1;
      if o.Network? {
        failures := failures + 1;
        if failures >= maxAttempts { return GaveUp, attempts, backoff; }
        backoff := backoff + 1000 * Pow2(failures - 1);
        continue;
      }
      if o.code == 401 || (o.code == 403 && !o.planLimit) { return NoAuth(o.code), attempts, backoff; }
      if o.code == 429 {
        rateLimited := rateLimited + 1;
        if rateLimited >= rateLimitAttempts { return GaveUp, attempts, backoff; }
        continue;
      }
      if o.code >= 500 {
        failures := failures + 1;
        if failures >= maxAttempts { return GaveUp, attempts, backoff; }
        backoff := backoff + 1000 * Pow2(failures - 1);
        continue;
      }
      if o.code >= 400 { return Failed(o.code), attempts, backoff; }
      return Success(o.code), attempts, backoff;
    }
  }
}
