/**
 * One team's usage row for one billing period, the Stripe meter, and any
 * number of runners that interleave statement by statement
 * (packages/billing/src/overage.ts). A runner selects the row, pins the
 * counter its event will advance to, sends the event, then lets the row catch
 * up; it may crash between any two statements, and Stripe may take an event
 * whose answer never arrives. A move up to a larger rung settles, without an
 * event, what the old volume already covered.
 */
module OverageProtocol {
  import opened Common

  datatype Row = Row(accepted: int, reported: int, pending: Option<int>)

  /** A step of the counter. Its two ends are the event's identifier, its length the event's value. */
  datatype Span = Span(from: int, to: int)

  datatype Runner =
    | Idle
    | Selected(span: Span)  // read the row with no pin on it; the pin comes next
    | Pinned(span: Span)    // the step is pinned, by this runner or an earlier one; the event comes next
    | Sent(span: Span)      // Stripe answered; the catch-up comes next

  datatype Answer = Accepted | Lost | Refused

  datatype Step =
    | Usage(accepted: int)
    | Select(runner: nat, included: int)
    | Pin(runner: nat)
    | Send(runner: nat, answer: Answer)
    | CatchUp(runner: nat)
    | Crash(runner: nat)
    | MoveUp(included: int)

  /** One stretch of the counter, and whether an event metered it or a move up settled it. */
  datatype Entry = Entry(span: Span, metered: bool)

  /** `meter` is what Stripe recorded; `book` also remembers, in order, what moves up settled. */
  datatype State = State(row: Row, meter: seq<Span>, book: seq<Entry>, runners: map<nat, Runner>)

  const START := State(Row(0, 0, None), [], [], map[])

  function At(s: State, r: nat): Runner { if r in s.runners then s.runners[r] else Idle }

  function Become(s: State, r: nat, next: Runner): State { s.(runners := s.runners[r := next]) }

  /** The step a runner reading this row would report, or Idle when nothing is due. */
  function Choose(row: Row, included: int): Runner
  {
    match row.pending
    case Some(to) => if to <= row.reported then Idle else Pinned(Span(row.reported, to))
    case None =>
      var to := row.accepted - included;
      if to <= row.reported then Idle else Selected(Span(row.reported, to))
  }

  /** The pin: a compare-and-set on the counter still being where the runner read it, and unpinned. */
  function PinRow(row: Row, span: Span): Option<Row>
  {
    if row.reported == span.from && row.pending.None? then Some(row.(pending := Some(span.to))) else None
  }

  /** The catch-up: applies only while the counter is still where the runner read it. */
  function CatchUpRow(row: Row, span: Span): Row
  {
    if row.reported == span.from then row.(reported := span.to, pending := None) else row
  }

  /** Stripe records an identifier once; a repeat is dropped. */
  function Record(meter: seq<Span>, span: Span): seq<Span>
  {
    if span in meter then meter else meter + [span]
  }

  function MovedUp(row: Row, included: int): Row
  {
    row.(reported := Max(row.reported, row.accepted - included))
  }

  /** One atomic statement of the whole system. A step its runner is not ready for does nothing. */
  function Next(s: State, step: Step): State
  {
    match step
    case Usage(n) => s.(row := s.row.(accepted := n))
    case Select(r, included) => if At(s, r).Idle? then Become(s, r, Choose(s.row, included)) else s
    case Pin(r) => if !At(s, r).Selected? then s else
      (match PinRow(s.row, At(s, r).span)
       case None => Become(s, r, Idle)
       case Some(row) => Become(s.(row := row), r, Pinned(At(s, r).span)))
    case Send(r, answer) => if !At(s, r).Pinned? then s else Sending(s, r, answer)
    case CatchUp(r) => if !At(s, r).Sent? then s else
      Become(s.(row := CatchUpRow(s.row, At(s, r).span)), r, Idle)
    case Crash(r) => Become(s, r, Idle)
    case MoveUp(included) =>
      var row := MovedUp(s.row, included);
      if row == s.row then s else
        s.(row := row, book := s.book + [Entry(Span(s.row.reported, row.reported), false)])
  }

  function Sending(s: State, r: nat, answer: Answer): State
    requires At(s, r).Pinned?
  {
    var span := At(s, r).span;
    if answer.Refused? then Become(s, r, Idle) else
      var book := if span in s.meter then s.book else s.book + [Entry(span, true)];
      Become(s.(meter := Record(s.meter, span), book := book), r, if answer.Lost? then Idle else Sent(span))
  }

  function Run(s: State, steps: seq<Step>): State
  {
    if steps == [] then s else Next(Run(s, steps[..|steps| - 1]), steps[|steps| - 1])
  }

  /** A move up is taken only while no pin is open. */
  predicate Guarded(s: State, step: Step) { step.MoveUp? ==> s.row.pending.None? }

  predicate GuardedRun(s: State, steps: seq<Step>)
  {
    steps != [] ==>
      var n := |steps| - 1;
      GuardedRun(s, steps[..n]) && Guarded(Run(s, steps[..n]), steps[n])
  }

  // ---- What the book says ----

  /** The entries follow one another from 0 to `end`, none empty. */
  predicate Chain(book: seq<Entry>, end: int)
  {
    if book == [] then end == 0 else
      var last := book[|book| - 1].span;
      last.to == end && last.from < last.to && Chain(book[..|book| - 1], last.from)
  }

  function Spans(book: seq<Entry>, metered: bool): seq<Span>
  {
    if book == [] then [] else
      var last := book[|book| - 1];
      Spans(book[..|book| - 1], metered) + if last.metered == metered then [last.span] else []
  }

  function Total(spans: seq<Span>): int
  {
    if spans == [] then 0 else
      var last := spans[|spans| - 1];
      Total(spans[..|spans| - 1]) + last.to - last.from
  }

  predicate Apart(a: Span, b: Span) { a.to <= b.from || b.to <= a.from }

  predicate Disjoint(spans: seq<Span>)
  {
    forall i, j | 0 <= i < j < |spans| :: Apart(spans[i], spans[j])
  }

  /** No unit of the counter is both metered and settled, nor either of them twice. */
  predicate CountedOnce(book: seq<Entry>)
  {
    forall i, j | 0 <= i < j < |book| :: Apart(book[i].span, book[j].span)
  }

  /** The steps join end to end. */
  predicate Joined(spans: seq<Span>, end: int)
  {
    && (forall i | 0 <= i < |spans| :: spans[i].from < spans[i].to)
    && (forall i | 0 <= i < |spans| - 1 :: spans[i].to == spans[i + 1].from)
    && (if spans == [] then end == 0 else spans[0].from == 0 && spans[|spans| - 1].to == end)
  }

  /** The open pin's event is on the meter while its catch-up is still to come. */
  predicate Landed(s: State)
  {
    s.row.pending.Some? && Span(s.row.reported, s.row.pending.value) in s.meter
  }

  function Frontier(s: State): int { if Landed(s) then s.row.pending.value else s.row.reported }

  // ---- The invariant ----

  /** A runner past the pin either still owns the open pin, or its event landed and the row moved on. */
  predicate Owned(s: State, span: Span)
  {
    || (s.row.reported == span.from && s.row.pending == Some(span.to))
    || (span in s.meter && span.to <= s.row.reported)
  }

  predicate RunnerOk(s: State, runner: Runner)
  {
    match runner
    case Idle => true
    case Selected(span) => span.from < span.to && span.from <= s.row.reported
    case Pinned(span) => span.from < span.to && Owned(s, span)
    case Sent(span) => span.from < span.to && Owned(s, span) && span in s.meter
  }

  predicate Inv(s: State)
  {
    && Chain(s.book, Frontier(s))
    && s.meter == Spans(s.book, true)
    && (s.row.pending.Some? ==> s.row.reported < s.row.pending.value)
    && (forall r | r in s.runners :: RunnerOk(s, s.runners[r]))
  }

  lemma {:induction false} ChainBounds(book: seq<Entry>, end: int, i: nat)
    requires Chain(book, end) && i < |book|
    ensures 0 <= book[i].span.from < book[i].span.to <= end
    decreases |book|
  {
    var n := |book| - 1;
    var last := book[n].span;
    if n > 0 { ChainBounds(book[..n], last.from, n - 1); }
    if i < n {
      ChainBounds(book[..n], last.from, i);
      assert book[..n][i] == book[i];
    }
  }

  lemma {:induction false} ChainOrdered(book: seq<Entry>, end: int, i: nat, j: nat)
    requires Chain(book, end) && i < j < |book|
    ensures book[i].span.to <= book[j].span.from
    decreases |book|
  {
    var n := |book| - 1;
    if j == n {
      ChainBounds(book[..n], book[n].span.from, i);
      assert book[..n][i] == book[i];
    } else {
      ChainOrdered(book[..n], book[n].span.from, i, j);
      assert book[..n][i] == book[i] && book[..n][j] == book[j];
    }
  }

  lemma ChainCountedOnce(book: seq<Entry>, end: int)
    requires Chain(book, end)
    ensures CountedOnce(book)
  {
    forall i, j | 0 <= i < j < |book| ensures Apart(book[i].span, book[j].span) {
      ChainOrdered(book, end, i, j);
    }
  }

  lemma {:induction false} SpansFromBook(book: seq<Entry>, metered: bool, span: Span)
    requires span in Spans(book, metered)
    ensures Entry(span, metered) in book
  {
    var n := |book| - 1;
    if span in Spans(book[..n], metered) {
      SpansFromBook(book[..n], metered, span);
    }
  }

  lemma {:induction false} SpansAppend(book: seq<Entry>, e: Entry, metered: bool)
    ensures Spans(book + [e], metered) == Spans(book, metered) + if e.metered == metered then [e.span] else []
  {
    assert (book + [e])[..|book|] == book;
  }

  /** A step on the meter ends at or before the frontier. */
  lemma MeteredBounds(s: State, span: Span)
    requires Chain(s.book, Frontier(s)) && s.meter == Spans(s.book, true) && span in s.meter
    ensures 0 <= span.from < span.to <= Frontier(s)
  {
    SpansFromBook(s.book, true, span);
    var i :| 0 <= i < |s.book| && s.book[i] == Entry(span, true);
    ChainBounds(s.book, Frontier(s), i);
  }

  lemma ChainAppend(book: seq<Entry>, e: Entry)
    requires Chain(book, e.span.from) && e.span.from < e.span.to
    ensures Chain(book + [e], e.span.to)
  {
    assert (book + [e])[..|book|] == book;
  }

  lemma PinKeeps(s: State, r: nat)
    requires Inv(s)
    ensures Inv(Next(s, Pin(r)))
  {
    var t := Next(s, Pin(r));
    if At(s, r).Selected? && PinRow(s.row, At(s, r).span).Some? {
      if Landed(t) { MeteredBounds(s, At(s, r).span); }
      assert Frontier(t) == Frontier(s);
    }
  }

  lemma SendKeeps(s: State, r: nat, answer: Answer)
    requires Inv(s)
    ensures Inv(Next(s, Send(r, answer)))
  {
    if At(s, r).Pinned? && !answer.Refused? {
      var span := At(s, r).span;
      var t := Next(s, Send(r, answer));
      assert RunnerOk(s, s.runners[r]);
      if span in s.meter {
        assert t.meter == s.meter && t.book == s.book && t.row == s.row;
      } else {
        assert !Landed(s) && Landed(t);
        ChainAppend(s.book, Entry(span, true));
        SpansAppend(s.book, Entry(span, true), true);
      }
    }
  }

  lemma CatchUpKeeps(s: State, r: nat)
    requires Inv(s)
    ensures Inv(Next(s, CatchUp(r)))
  {
    if At(s, r).Sent? {
      var span := At(s, r).span;
      assert RunnerOk(s, s.runners[r]);
      if s.row.reported == span.from {
        MeteredBounds(s, span);
        assert s.row.pending == Some(span.to) && Frontier(s) == span.to;
      }
    }
  }

  lemma MoveUpKeeps(s: State, included: int)
    requires Inv(s) && s.row.pending.None?
    ensures Inv(Next(s, MoveUp(included)))
  {
    var row := MovedUp(s.row, included);
    if row != s.row {
      var e := Entry(Span(s.row.reported, row.reported), false);
      ChainAppend(s.book, e);
      SpansAppend(s.book, e, true);
    }
  }

  lemma NextKeeps(s: State, step: Step)
    requires Inv(s) && Guarded(s, step)
    ensures Inv(Next(s, step))
  {
    match step
    case Usage(_) =>
    case Select(r, included) =>
    case Pin(r) => PinKeeps(s, r);
    case Send(r, answer) => SendKeeps(s, r, answer);
    case CatchUp(r) => CatchUpKeeps(s, r);
    case Crash(_) =>
    case MoveUp(included) => MoveUpKeeps(s, included);
  }

  lemma {:induction false} RunKeeps(steps: seq<Step>)
    requires GuardedRun(START, steps)
    ensures Inv(Run(START, steps))
  {
    if steps != [] {
      var n := |steps| - 1;
      RunKeeps(steps[..n]);
      NextKeeps(Run(START, steps[..n]), steps[n]);
    }
  }

  // ---- Exactly-once metering ----

  lemma {:induction false} BookTotals(book: seq<Entry>, end: int)
    requires Chain(book, end)
    ensures Total(Spans(book, true)) + Total(Spans(book, false)) == end
  {
    if book != [] {
      var n := |book| - 1;
      BookTotals(book[..n], book[n].span.from);
      var m := book[n].metered;
      TotalAppend(Spans(book[..n], m), book[n].span);
      assert Spans(book, m) == Spans(book[..n], m) + [book[n].span];
      assert Spans(book, !m) == Spans(book[..n], !m);
      assert m || !m;
    }
  }

  lemma TotalAppend(spans: seq<Span>, span: Span)
    ensures Total(spans + [span]) == Total(spans) + span.to - span.from
  {
    assert (spans + [span])[..|spans|] == spans;
  }

  /** Every metered step lies in order after the ones before it. */
  lemma {:induction false} MeteredOrdered(book: seq<Entry>, end: int)
    requires Chain(book, end)
    ensures Disjoint(Spans(book, true))
    ensures forall span | span in Spans(book, true) :: span.to <= end
  {
    if book != [] {
      var n := |book| - 1;
      MeteredOrdered(book[..n], book[n].span.from);
    }
  }

  lemma {:induction false} NoMoveNoSettled(steps: seq<Step>)
    requires forall step | step in steps :: !step.MoveUp?
    ensures GuardedRun(START, steps)
    ensures forall e | e in Run(START, steps).book :: e.metered
  {
    if steps != [] {
      var n := |steps| - 1;
      NoMoveNoSettled(steps[..n]);
      assert steps[n] in steps;
    }
  }

  lemma {:induction false} AllMeteredJoined(book: seq<Entry>, end: int)
    requires Chain(book, end)
    requires forall e | e in book :: e.metered
    ensures |Spans(book, true)| == |book|
    ensures Joined(Spans(book, true), end)
  {
    if book != [] {
      var n := |book| - 1;
      assert book[n] in book;
      AllMeteredJoined(book[..n], book[n].span.from);
    }
  }

  /**
   * With no move up, whatever the interleaving, the crashes, the refused
   * events and the lost answers: the recorded events are steps joined end to
   * end from 0, and they sum to the reported counter, or to the pinned one
   * while its event has landed and its catch-up has not.
   */
  lemma ExactlyOnce(steps: seq<Step>)
    requires forall step | step in steps :: !step.MoveUp?
    ensures var s := Run(START, steps);
            && Disjoint(s.meter)
            && Joined(s.meter, if Landed(s) then s.row.pending.value else s.row.reported)
            && Total(s.meter) == if Landed(s) then s.row.pending.value else s.row.reported
  {
    var s := Run(START, steps);
    NoMoveNoSettled(steps);
    RunKeeps(steps);
    AllMeteredJoined(s.book, Frontier(s));
    MeteredOrdered(s.book, Frontier(s));
    BookTotals(s.book, Frontier(s));
    SettledEmpty(s.book);
  }

  lemma {:induction false} SettledEmpty(book: seq<Entry>)
    requires forall e | e in book :: e.metered
    ensures Spans(book, false) == []
  {
    if book != [] {
      assert book[|book| - 1] in book;
      SettledEmpty(book[..|book| - 1]);
    }
  }

  // ---- Metering across moves up ----

  /** No step in flight, pinned or recorded ends past `cap`. */
  predicate Capped(s: State, cap: int)
  {
    && (s.row.pending.Some? ==> s.row.pending.value <= cap)
    && (forall span | span in s.meter :: span.to <= cap)
    && (forall r | r in s.runners && !s.runners[r].Idle? :: s.runners[r].span.to <= cap)
  }

  lemma {:induction false} RunCapped(steps: seq<Step>, peak: int, least: int)
    requires 0 <= peak
    requires forall step | step in steps && step.Usage? :: step.accepted <= peak
    requires forall step | step in steps && step.Select? :: least <= step.included
    ensures var s := Run(START, steps); s.row.accepted <= peak && Capped(s, peak - least)
  {
    if steps != [] {
      var n := |steps| - 1;
      assert steps[n] in steps;
      RunCapped(steps[..n], peak, least);
    }
  }

  /**
   * With any number of moves up, each taken with no pin open, and runners
   * that may hold a stale rung: the steps stay disjoint from one another and
   * from what the moves settled, the two together account for the whole
   * counter, and the total metered never passes the highest accepted count
   * less the smallest included volume any runner read.
   */
  lemma AcrossMoves(steps: seq<Step>, peak: int, least: int)
    requires GuardedRun(START, steps)
    requires 0 <= peak
    requires forall step | step in steps && step.Usage? :: step.accepted <= peak
    requires forall step | step in steps && step.Select? :: least <= step.included
    ensures var s := Run(START, steps);
            && Disjoint(s.meter)
            && CountedOnce(s.book)
            && Total(s.meter) + Total(Spans(s.book, false)) == Frontier(s)
            && Total(s.meter) <= Max(0, peak - least)
  {
    var s := Run(START, steps);
    RunKeeps(steps);
    RunCapped(steps, peak, least);
    MeteredOrdered(s.book, Frontier(s));
    ChainCountedOnce(s.book, Frontier(s));
    BookTotals(s.book, Frontier(s));
    MeteredTotal(s.book, Frontier(s), peak - least);
  }

  /** Disjoint ordered steps from 0 sum to no more than where the last of them ends. */
  lemma {:induction false} MeteredTotal(book: seq<Entry>, end: int, cap: int)
    requires Chain(book, end)
    requires forall span | span in Spans(book, true) :: span.to <= cap
    ensures Total(Spans(book, true)) <= Max(0, Min(cap, end))
    ensures 0 <= end
  {
    if book != [] {
      var n := |book| - 1;
      var last := book[n];
      forall span | span in Spans(book[..n], true) ensures span.to <= cap {
        assert span in Spans(book, true);
      }
      MeteredTotal(book[..n], last.span.from, cap);
      if last.metered {
        TotalAppend(Spans(book[..n], true), last.span);
        assert last.span in Spans(book, true);
      } else {
        assert Spans(book, true) == Spans(book[..n], true);
      }
    }
  }

  // ---- What a move up settles ----

  /**
   * What was accepted inside the old volume is never judged again under the
   * new one: after the move, any later count bills just what was accepted
   * past both the new volume and what was settled or reported before.
   */
  lemma MoveUpBillsOnlyLater(row: Row, included: int, later: int)
    requires row.pending == None && later >= row.accepted
    ensures var moved := MovedUp(row, included);
            && moved.accepted == row.accepted && moved.pending == None && moved.reported >= row.reported
            && (later - included <= row.accepted - included || later - included <= row.reported ==>
                  Choose(moved.(accepted := later), included) == Idle)
            && (later - included > row.accepted - included && later - included > row.reported ==>
                  Choose(moved.(accepted := later), included) ==
                  Selected(Span(if row.accepted - included > row.reported then row.accepted - included
                                else row.reported, later - included)))
  {
  }

  // ---- What the guard is for ----

  /**
   * Exactly when a move up is safe against a runner that read the row just
   * before it: no pin is open, or the move does not advance the counter.
   * Otherwise the runner's event covers what the move settled.
   */
  lemma MoveUpSafeIff(s: State, r: nat, read: int, included: int)
    requires Inv(s) && At(s, r).Idle?
    ensures var t := Run(s, [Select(r, read), MoveUp(included), Send(r, Accepted)]);
            CountedOnce(t.book) <==> s.row.pending.None? || s.row.accepted - included <= s.row.reported
  {
    var steps := [Select(r, read), MoveUp(included), Send(r, Accepted)];
    var a := Next(s, Select(r, read));
    var b := Next(a, MoveUp(included));
    var c := Next(b, Send(r, Accepted));
    assert steps[..2] == [Select(r, read), MoveUp(included)] && steps[..2][..1] == [Select(r, read)];
    assert steps[..2][..1][..0] == [];
    assert Run(s, steps[..2][..1]) == a;
    assert Run(s, steps[..2]) == b;
    assert Run(s, steps) == c;
    NextKeeps(s, Select(r, read));
    if s.row.pending.None? || s.row.accepted - included <= s.row.reported {
      if s.row.pending.None? { MoveUpKeeps(a, included); } else { assert b == a; }
      SendKeeps(b, r, Accepted);
      ChainCountedOnce(c.book, Frontier(c));
    } else {
      Overlap(s, b, c, Span(s.row.reported, s.row.pending.value), r);
    }
  }

  lemma Overlap(s: State, b: State, c: State, span: Span, r: nat)
    requires Inv(s) && s.row.pending == Some(span.to) && s.row.reported == span.from
    requires b.meter == s.meter && b.book == s.book + [Entry(Span(span.from, b.row.reported), false)]
    requires span.from < b.row.reported && At(b, r) == Pinned(span)
    requires c == Next(b, Send(r, Accepted))
    ensures !CountedOnce(c.book)
  {
    var jump := |s.book|;
    assert c.book[jump].span == Span(span.from, b.row.reported);
    if span in s.meter {
      SpansFromBook(s.book, true, span);
      var i :| 0 <= i < |s.book| && s.book[i] == Entry(span, true);
      assert c.book[i].span == span && !Apart(c.book[i].span, c.book[jump].span);
    } else {
      assert c.book[jump + 1].span == span && !Apart(c.book[jump].span, c.book[jump + 1].span);
    }
  }

  const RACE := [Usage(150), Select(0, 50), Pin(0), Send(0, Accepted), MoveUp(100),
                 CatchUp(0), Select(1, 100), Send(1, Accepted)]

  lemma RaceStep(n: nat, s: State)
    requires n < |RACE| && Run(START, RACE[..n]) == s
    ensures Run(START, RACE[..n + 1]) == Next(s, RACE[n])
  {
    assert RACE[..n + 1][..n] == RACE[..n];
  }

  /** Up to the move up, which finds the first runner's event on the meter and its catch-up still to come. */
  lemma RaceFirstHalf()
    ensures var s := Run(START, RACE[..5]);
            && s.row == Row(150, 50, Some(100)) && s.meter == [Span(0, 100)]
            && At(s, 0) == Sent(Span(0, 100)) && At(s, 1) == Idle
  {
    var s1 := Next(START, RACE[0]);
    var s2 := Next(s1, RACE[1]);
    var s3 := Next(s2, RACE[2]);
    var s4 := Next(s3, RACE[3]);
    RaceStep(0, START);
    RaceStep(1, s1);
    assert At(s2, 0) == Selected(Span(0, 100));
    RaceStep(2, s2);
    assert s3.row == Row(150, 0, Some(100)) && At(s3, 0) == Pinned(Span(0, 100));
    RaceStep(3, s3);
    assert s4.meter == [] + [Span(0, 100)];
    RaceStep(4, s4);
  }

  lemma RaceSecondHalf()
    ensures Run(START, RACE).meter == [Span(0, 100), Span(50, 100)]
  {
    RaceFirstHalf();
    var s5 := Run(START, RACE[..5]);
    var s6 := Next(s5, RACE[5]);
    var s7 := Next(s6, RACE[6]);
    RaceStep(5, s5);
    assert s6.row == Row(150, 50, Some(100)) && At(s6, 1) == Idle;
    RaceStep(6, s6);
    assert At(s7, 1) == Pinned(Span(50, 100)) && s7.meter == [Span(0, 100)];
    RaceStep(7, s7);
    assert RACE[..8] == RACE;
    assert Run(START, RACE).meter == [Span(0, 100)] + [Span(50, 100)];
  }

  /**
   * The check for an open pin and the move up are separate statements in the
   * program, so a runner may pin between them. This run does: 100 units are
   * due, and 150 are metered.
   */
  lemma UnguardedMoveBillsTwice()
    ensures var s := Run(START, RACE);
            s.meter == [Span(0, 100), Span(50, 100)] && Total(s.meter) == 150 && !Disjoint(s.meter)
  {
    RaceSecondHalf();
    var meter := Run(START, RACE).meter;
    TotalAppend([], Span(0, 100));
    TotalAppend([Span(0, 100)], Span(50, 100));
    assert [] + [Span(0, 100)] == [Span(0, 100)] && meter == [Span(0, 100)] + [Span(50, 100)];
    assert !Apart(meter[0], meter[1]);
  }
}
