/**
 * Every writer of one customer's billing columns as a transaction that locks,
 * then fetches from Stripe, then applies (packages/billing/src/webhook.ts and
 * packages/billing/src/subscription.ts), interleaved with one another, with
 * rollbacks, and with Stripe changing at any moment. Stripe's clock counts
 * its changes; an event carries the clock of the change it announces.
 */
module Webhook {
  import opened Common
  import opened Rungs
  import opened Subscription

  /** What an event is about: no subscription for a type that is not handled; a payload may lack the customer. */
  datatype Event = Event(sub: Option<nat>, hasCustomer: bool, clock: nat)

  datatype Work = Deliver(event: nat) | Reconcile | ApplyLocked(sub: nat)

  /** The advisory lock is keyed by the customer, or by the subscription when the payload names no customer. */
  datatype LockKey = OfCustomer | OfSubscription(sub: nat)

  datatype Tx =
    | Open(work: Work)
    | Holding(work: Work, key: LockKey)
    | Fetched(work: Work, key: LockKey, sub: Sub, clock: nat)

  datatype Commit = Commit(key: LockKey, clock: nat, visit: Visit)

  datatype State = State(
    clock: nat,
    subs: map<nat, Sub>,
    events: map<nat, Event>,
    ledger: set<nat>,
    txs: map<nat, Tx>,
    locks: map<LockKey, nat>,
    start: TeamRow,
    row: TeamRow,
    history: seq<Commit>)

  datatype Step =
    | Change(sub: Sub)                       // Stripe changes or creates a subscription
    | Emit(event: nat, about: Option<nat>, hasCustomer: bool)
    | Begin(tx: nat, work: Work)             // a delivery inserts its ledger row first
    | Lock(tx: nat)
    | Fetch(tx: nat, newest: Option<nat>)    // `newest` is the list's answer to a reconcile
    | Finish(tx: nat, repair: Repair)        // apply and commit
    | Abort(tx: nat)

  function Init(row: TeamRow): State { State(0, map[], map[], {}, map[], map[], row, row, []) }

  function KeyOf(s: State, work: Work): LockKey
  {
    if work.Deliver? && work.event in s.events && !s.events[work.event].hasCustomer && s.events[work.event].sub.Some?
    then OfSubscription(s.events[work.event].sub.value) else OfCustomer
  }

  /** The ledger row is inserted by an open transaction, or already kept. */
  predicate Taken(s: State, event: nat)
  {
    event in s.ledger || exists tx | tx in s.txs :: s.txs[tx].work == Deliver(event)
  }

  function Target(s: State, work: Work, newest: Option<nat>): Option<nat>
  {
    match work
    case Deliver(e) => if e in s.events then s.events[e].sub else None
    case Reconcile => newest
    case ApplyLocked(id) => Some(id)
  }

  function Kept(s: State, work: Work): set<nat>
  {
    if work.Deliver? then s.ledger + {work.event} else s.ledger
  }

  function Drop(s: State, tx: nat): State
    requires tx in s.txs
  {
    var t := s.txs[tx];
    s.(txs := s.txs - {tx}, locks := if t.Open? then s.locks else s.locks - {t.key})
  }

  ghost function Next(s: State, step: Step): State
  {
    match step
    case Change(sub) => s.(clock := s.clock + 1, subs := s.subs[sub.id := sub])
    case Emit(e, sub, hasCustomer) =>
      if e in s.events then s else s.(events := s.events[e := Event(sub, hasCustomer, s.clock)])
    case Begin(tx, work) => Beginning(s, tx, work)
    case Lock(tx) =>
      if tx !in s.txs || !s.txs[tx].Open? then s else
        var key := KeyOf(s, s.txs[tx].work);
        if key in s.locks then s else
          s.(txs := s.txs[tx := Holding(s.txs[tx].work, key)], locks := s.locks[key := tx])
    case Fetch(tx, newest) => if tx !in s.txs || !s.txs[tx].Holding? then s else Fetching(s, tx, newest)
    case Finish(tx, repair) => if tx !in s.txs || !s.txs[tx].Fetched? then s else
      var t := s.txs[tx];
      Drop(s, tx).(
        row := Apply(s.row, t.sub, repair),
        ledger := Kept(s, t.work),
        history := s.history + [Commit(t.key, t.clock, Visit(t.sub, repair))])
    case Abort(tx) => if tx in s.txs then Drop(s, tx) else s
  }

  /** A delivery already kept is acknowledged; one about no subscription is kept at once. */
  ghost function Beginning(s: State, tx: nat, work: Work): State
  {
    if tx in s.txs then s
    else if !work.Deliver? then s.(txs := s.txs[tx := Open(work)])
    else if work.event !in s.events || Taken(s, work.event) then s
    else if s.events[work.event].sub.None? then s.(ledger := s.ledger + {work.event})
    else s.(txs := s.txs[tx := Open(work)])
  }

  /** Nothing to apply ends a reconcile; a subscription Stripe does not know rolls the transaction back. */
  ghost function Fetching(s: State, tx: nat, newest: Option<nat>): State
    requires tx in s.txs && s.txs[tx].Holding?
  {
    var t := s.txs[tx];
    var id := Target(s, t.work, newest);
    if id.Some? && id.value in s.subs
    then s.(txs := s.txs[tx := Fetched(t.work, t.key, s.subs[id.value], s.clock)])
    else Drop(s, tx)
  }

  ghost function Run(s: State, steps: seq<Step>): State
  {
    if steps == [] then s else Next(Run(s, steps[..|steps| - 1]), steps[|steps| - 1])
  }

  // ---- The invariant ----

  function Visits(history: seq<Commit>): seq<Visit>
  {
    seq(|history|, i requires 0 <= i < |history| => history[i].visit)
  }

  /** Each lock is held by the one transaction past it, and each such transaction holds its own. */
  predicate LocksOk(s: State)
  {
    && (forall tx | tx in s.txs && !s.txs[tx].Open? :: s.txs[tx].key in s.locks && s.locks[s.txs[tx].key] == tx)
    && (forall key | key in s.locks ::
          s.locks[key] in s.txs && !s.txs[s.locks[key]].Open? && s.txs[s.locks[key]].key == key)
  }

  /** A fetched state is no older than what its transaction announces, nor than any applied under its lock. */
  predicate FetchOk(s: State, t: Tx)
  {
    t.Fetched? ==>
      && t.clock <= s.clock
      && (t.clock == s.clock ==> t.sub.id in s.subs && s.subs[t.sub.id] == t.sub)
      && (forall i | 0 <= i < |s.history| && s.history[i].key == t.key :: s.history[i].clock <= t.clock)
      && (t.work.Deliver? ==>
            && t.work.event in s.events
            && s.events[t.work.event].sub == Some(t.sub.id)
            && s.events[t.work.event].clock <= t.clock)
  }

  /** Under one lock, fetched states are applied in the order Stripe went through them. */
  predicate ForwardUnderLock(history: seq<Commit>)
  {
    forall i, j | 0 <= i < j < |history| && history[i].key == history[j].key :: history[i].clock <= history[j].clock
  }

  /** An event kept in the ledger was covered by an apply of its subscription, fetched no earlier. */
  predicate Covered(s: State, e: nat)
  {
    e in s.events && s.events[e].sub.Some? ==>
      exists i | 0 <= i < |s.history| ::
        s.history[i].visit.seen.id == s.events[e].sub.value && s.history[i].clock >= s.events[e].clock
  }

  /** What the last change left is what Stripe still has. */
  predicate CurrentOk(s: State)
  {
    forall i | 0 <= i < |s.history| ::
      && s.history[i].clock <= s.clock
      && (s.history[i].clock == s.clock ==>
            var seen := s.history[i].visit.seen; seen.id in s.subs && s.subs[seen.id] == seen)
  }

  predicate EventsOk(s: State)
  {
    (forall id | id in s.subs :: s.subs[id].id == id) && forall e | e in s.events :: s.events[e].clock <= s.clock
  }

  predicate TxsOk(s: State)
  {
    forall tx | tx in s.txs :: FetchOk(s, s.txs[tx]) && (s.txs[tx].work.Deliver? ==> s.txs[tx].work.event in s.events)
  }

  predicate LedgerOk(s: State) { forall e | e in s.ledger :: e in s.events && Covered(s, e) }

  predicate HistoryOk(s: State)
  {
    ForwardUnderLock(s.history) && CurrentOk(s) && s.row == Replay(s.start, Visits(s.history))
  }

  predicate Inv(s: State) { LocksOk(s) && EventsOk(s) && TxsOk(s) && LedgerOk(s) && HistoryOk(s) }

  lemma CoverStays(s: State, t: State)
    requires Inv(s) && t.history == s.history && t.ledger == s.ledger
    requires forall e | e in s.events :: e in t.events && t.events[e] == s.events[e]
    ensures forall e | e in t.ledger :: e in t.events && Covered(t, e)
  {
    forall e | e in t.ledger ensures e in t.events && Covered(t, e) { assert Covered(s, e); }
  }

  lemma FetchesStay(s: State, t: State)
    requires TxsOk(s) && t.history == s.history && t.clock == s.clock && t.subs == s.subs && t.events == s.events
    requires forall tx | tx in t.txs && t.txs[tx].Fetched? :: tx in s.txs && s.txs[tx] == t.txs[tx]
    ensures forall tx | tx in t.txs :: FetchOk(t, t.txs[tx])
  {
    forall tx | tx in t.txs ensures FetchOk(t, t.txs[tx]) {
      if t.txs[tx].Fetched? { assert FetchOk(s, s.txs[tx]); }
    }
  }

  lemma OpenKeeps(s: State, tx: nat, work: Work)
    requires Inv(s) && tx !in s.txs && (work.Deliver? ==> work.event in s.events)
    ensures Inv(s.(txs := s.txs[tx := Open(work)]))
  {
    var t := s.(txs := s.txs[tx := Open(work)]);
    CoverStays(s, t);
    FetchesStay(s, t);
  }

  lemma KeepUnhandled(s: State, e: nat)
    requires Inv(s) && e in s.events && s.events[e].sub.None?
    ensures Inv(s.(ledger := s.ledger + {e}))
  {
    var t := s.(ledger := s.ledger + {e});
    forall k | k in t.ledger ensures Covered(t, k) { assert k in s.ledger ==> Covered(s, k); }
    forall tx | tx in t.txs ensures FetchOk(t, t.txs[tx]) { assert FetchOk(s, s.txs[tx]); }
  }

  lemma BeginKeeps(s: State, tx: nat, work: Work)
    requires Inv(s)
    ensures Inv(Next(s, Begin(tx, work)))
  {
    var t := Beginning(s, tx, work);
    if t == s {
    } else if t.txs == s.txs {
      KeepUnhandled(s, work.event);
    } else {
      OpenKeeps(s, tx, work);
    }
  }

  function Locked(s: State, tx: nat, key: LockKey): State
    requires tx in s.txs
  {
    s.(txs := s.txs[tx := Holding(s.txs[tx].work, key)], locks := s.locks[key := tx])
  }

  lemma LockedLocks(s: State, tx: nat, key: LockKey)
    requires LocksOk(s) && tx in s.txs && s.txs[tx].Open? && key !in s.locks
    ensures LocksOk(Locked(s, tx, key))
  {
  }

  lemma LockedTxs(s: State, tx: nat, key: LockKey)
    requires TxsOk(s) && tx in s.txs && s.txs[tx].Open?
    ensures TxsOk(Locked(s, tx, key))
  {
    FetchesStay(s, Locked(s, tx, key));
  }

  lemma LockTaken(s: State, tx: nat, key: LockKey)
    requires Inv(s) && tx in s.txs && s.txs[tx].Open? && key !in s.locks
    ensures Inv(Locked(s, tx, key))
  {
    CoverStays(s, Locked(s, tx, key));
    LockedLocks(s, tx, key);
    LockedTxs(s, tx, key);
  }

  lemma LockKeeps(s: State, tx: nat)
    requires Inv(s)
    ensures Inv(Next(s, Lock(tx)))
  {
    if tx in s.txs && s.txs[tx].Open? {
      var key := KeyOf(s, s.txs[tx].work);
      if key !in s.locks { LockTaken(s, tx, key); }
    }
  }

  lemma DropKeeps(s: State, tx: nat)
    requires Inv(s) && tx in s.txs
    ensures Inv(Drop(s, tx))
  {
    var t := Drop(s, tx);
    CoverStays(s, t);
    FetchesStay(s, t);
  }

  lemma FetchedKeeps(s: State, tx: nat, id: nat)
    requires Inv(s) && tx in s.txs && s.txs[tx].Holding? && id in s.subs
    requires s.txs[tx].work.Deliver? ==> Target(s, s.txs[tx].work, None) == Some(id)
    ensures Inv(s.(txs := s.txs[tx := Fetched(s.txs[tx].work, s.txs[tx].key, s.subs[id], s.clock)]))
  {
    var t := s.(txs := s.txs[tx := Fetched(s.txs[tx].work, s.txs[tx].key, s.subs[id], s.clock)]);
    CoverStays(s, t);
    forall x | x in t.txs ensures FetchOk(t, t.txs[x]) { assert FetchOk(s, s.txs[x]); }
  }

  lemma FetchKeeps(s: State, tx: nat, newest: Option<nat>)
    requires Inv(s)
    ensures Inv(Next(s, Fetch(tx, newest)))
  {
    if tx in s.txs && s.txs[tx].Holding? {
      var id := Target(s, s.txs[tx].work, newest);
      if id.Some? && id.value in s.subs { FetchedKeeps(s, tx, id.value); } else { DropKeeps(s, tx); }
    }
  }

  lemma VisitsAppend(history: seq<Commit>, c: Commit)
    ensures Visits(history + [c]) == Visits(history) + [c.visit]
  {
  }

  lemma FinishHistory(s: State, tx: nat, repair: Repair)
    requires Inv(s) && tx in s.txs && s.txs[tx].Fetched?
    ensures HistoryOk(Next(s, Finish(tx, repair)))
  {
    var x := s.txs[tx];
    var t := Next(s, Finish(tx, repair));
    assert FetchOk(s, x);
    VisitsAppend(s.history, Commit(x.key, x.clock, Visit(x.sub, repair)));
    assert Visits(t.history)[..|s.history|] == Visits(s.history);
  }

  lemma CoverGrows(s: State, t: State, e: nat)
    requires Covered(s, e) && t.events == s.events && s.history <= t.history
    ensures Covered(t, e)
  {
    if e in s.events && s.events[e].sub.Some? {
      var i :| 0 <= i < |s.history| && s.history[i].visit.seen.id == s.events[e].sub.value
               && s.history[i].clock >= s.events[e].clock;
      assert t.history[i] == s.history[i];
    }
  }

  lemma FinishLedger(s: State, tx: nat, repair: Repair)
    requires Inv(s) && tx in s.txs && s.txs[tx].Fetched?
    ensures LedgerOk(Next(s, Finish(tx, repair)))
  {
    var x := s.txs[tx];
    var t := Next(s, Finish(tx, repair));
    assert FetchOk(s, x);
    assert t.history[|s.history|] == Commit(x.key, x.clock, Visit(x.sub, repair));
    forall e | e in t.ledger ensures e in t.events && Covered(t, e) {
      if e in s.ledger { CoverGrows(s, t, e); }
    }
  }

  /** No other transaction has fetched under the lock of the one that commits. */
  lemma FinishTxs(s: State, tx: nat, repair: Repair)
    requires Inv(s) && tx in s.txs && s.txs[tx].Fetched?
    ensures TxsOk(Next(s, Finish(tx, repair)))
  {
    var t := Next(s, Finish(tx, repair));
    forall other | other in t.txs ensures FetchOk(t, t.txs[other]) {
      assert FetchOk(s, s.txs[other]) && other != tx;
      if s.txs[other].Fetched? { assert s.txs[other].key != s.txs[tx].key; }
    }
  }

  lemma FinishKeeps(s: State, tx: nat, repair: Repair)
    requires Inv(s)
    ensures Inv(Next(s, Finish(tx, repair)))
  {
    if tx in s.txs && s.txs[tx].Fetched? {
      FinishHistory(s, tx, repair);
      FinishLedger(s, tx, repair);
      FinishTxs(s, tx, repair);
    }
  }

  lemma ChangeKeeps(s: State, sub: Sub)
    requires Inv(s)
    ensures Inv(Next(s, Change(sub)))
  {
    var t := Next(s, Change(sub));
    CoverStays(s, t);
    forall tx | tx in t.txs ensures FetchOk(t, t.txs[tx]) { assert FetchOk(s, s.txs[tx]); }
  }

  lemma EmitKeeps(s: State, e: nat, about: Option<nat>, hasCustomer: bool)
    requires Inv(s)
    ensures Inv(Next(s, Emit(e, about, hasCustomer)))
  {
    if e !in s.events {
      var t := Next(s, Emit(e, about, hasCustomer));
      CoverStays(s, t);
      forall tx | tx in t.txs ensures FetchOk(t, t.txs[tx]) { assert FetchOk(s, s.txs[tx]); }
    }
  }

  lemma InitOk(row: TeamRow)
    ensures Inv(Init(row))
  {
    assert Visits([]) == [];
  }

  lemma NextKeeps(s: State, step: Step)
    requires Inv(s)
    ensures Inv(Next(s, step)) && Next(s, step).start == s.start
  {
    match step
    case Change(sub) => ChangeKeeps(s, sub);
    case Emit(e, about, hasCustomer) => EmitKeeps(s, e, about, hasCustomer);
    case Begin(tx, work) => BeginKeeps(s, tx, work);
    case Lock(tx) => LockKeeps(s, tx);
    case Fetch(tx, newest) => FetchKeeps(s, tx, newest);
    case Finish(tx, repair) => FinishKeeps(s, tx, repair);
    case Abort(tx) => if tx in s.txs { DropKeeps(s, tx); }
  }

  lemma {:induction false} RunInv(row: TeamRow, steps: seq<Step>)
    ensures Inv(Run(Init(row), steps)) && Run(Init(row), steps).start == row
  {
    if steps != [] {
      RunInv(row, steps[..|steps| - 1]);
      NextKeeps(Run(Init(row), steps[..|steps| - 1]), steps[|steps| - 1]);
    } else {
      InitOk(row);
    }
  }

  /**
   * In every run: states fetched under one lock are applied in Stripe's
   * order, and every event kept in the ledger was covered by an apply of its
   * subscription fetched no earlier than the change it announces.
   */
  lemma RunKeeps(row: TeamRow, steps: seq<Step>)
    ensures var s := Run(Init(row), steps);
            && Inv(s) && s.start == row
            && ForwardUnderLock(s.history)
            && (forall e | e in s.ledger :: Covered(s, e))
  {
    RunInv(row, steps);
  }

  // ---- Convergence ----

  /** Every transaction went through the customer's own lock. */
  predicate OneLock(history: seq<Commit>) { forall c | c in history :: c.key == OfCustomer }

  /** Where the applies fetched after Stripe's last change begin. */
  function QuietFrom(history: seq<Commit>, clock: nat): (n: nat)
    ensures n <= |history|
    ensures forall i | n <= i < |history| :: history[i].clock >= clock
    ensures n > 0 ==> history[n - 1].clock < clock
  {
    if history == [] || history[|history| - 1].clock < clock then |history|
    else QuietFrom(history[..|history| - 1], clock)
  }

  lemma QuietSuffix(s: State, i: nat)
    requires Inv(s) && OneLock(s.history)
    requires i < |s.history| && s.history[i].clock == s.clock
    ensures QuietFrom(s.history, s.clock) <= i
  {
    var n := QuietFrom(s.history, s.clock);
    assert s.history[i] in s.history;
    if n > 0 { assert s.history[n - 1] in s.history; }
  }

  /** Only `e` is entitled, and nothing is left to repair on it. */
  predicate OneEntitled(s: State, e: nat)
  {
    && e in s.subs && Settled(s.subs[e])
    && forall id | id in s.subs && id != e :: !Entitled(s.subs[id])
  }

  /** `e` was fetched and applied after Stripe's last change. */
  predicate SeenSince(s: State, e: nat)
  {
    exists i | 0 <= i < |s.history| :: s.history[i].clock == s.clock && s.history[i].visit.seen.id == e
  }

  lemma QuietVisit(s: State, e: nat, k: nat)
    requires Inv(s) && OneEntitled(s, e) && k < |s.history| && s.history[k].clock >= s.clock
    ensures var seen := s.history[k].visit.seen;
            if seen.id == e then seen == s.subs[e] else !Entitled(seen)
  {
  }

  lemma SuffixHas(history: seq<Commit>, n: nat, i: nat)
    requires n <= i < |history|
    ensures history[i].visit in Visits(history)[n..]
  {
    assert Visits(history)[n..][i - n] == history[i].visit;
  }

  lemma QuietFound(s: State, e: nat, i: nat)
    requires Inv(s) && OneLock(s.history) && OneEntitled(s, e)
    requires i < |s.history| && s.history[i].clock == s.clock && s.history[i].visit.seen.id == e
    ensures var tail := Visits(s.history)[QuietFrom(s.history, s.clock)..]; exists v | v in tail :: v.seen == s.subs[e]
  {
    QuietSuffix(s, i);
    QuietVisit(s, e, i);
    SuffixHas(s.history, QuietFrom(s.history, s.clock), i);
  }

  lemma QuietTail(s: State, e: nat)
    requires Inv(s) && OneEntitled(s, e)
    ensures var tail := Visits(s.history)[QuietFrom(s.history, s.clock)..];
            forall v | v in tail :: v.seen == s.subs[e] || (!Entitled(v.seen) && v.seen.id != e)
  {
    var n := QuietFrom(s.history, s.clock);
    var tail := Visits(s.history)[n..];
    forall v | v in tail ensures v.seen == s.subs[e] || (!Entitled(v.seen) && v.seen.id != e) {
      var k :| 0 <= k < |tail| && tail[k] == v;
      QuietVisit(s, e, n + k);
    }
  }

  /** Whatever came before a confluent tail leaves no trace. */
  lemma TailDecides(row: TeamRow, visits: seq<Visit>, n: nat, e: Sub)
    requires !row.plan.System? && Settled(e) && n <= |visits|
    requires exists v | v in visits[n..] :: v.seen == e
    requires forall v | v in visits[n..] :: v.seen == e || (!Entitled(v.seen) && v.seen.id != e.id)
    ensures Replay(row, visits) == SoloRow(e)
  {
    NeverSystem(row, visits[..n]);
    Confluence(Replay(row, visits[..n]), visits[n..], e);
    ReplaySplit(row, visits[..n], visits[n..]);
    assert visits == visits[..n] + visits[n..];
  }

  lemma ConvergesAt(s: State, e: nat)
    requires Inv(s) && !s.start.plan.System? && OneLock(s.history)
    requires OneEntitled(s, e) && SeenSince(s, e)
    ensures s.row == SoloRow(s.subs[e])
  {
    var i :| 0 <= i < |s.history| && s.history[i].clock == s.clock && s.history[i].visit.seen.id == e;
    QuietFound(s, e, i);
    QuietTail(s, e);
    TailDecides(s.start, Visits(s.history), QuietFrom(s.history, s.clock), s.subs[e]);
  }

  // ---- Payloads that name their customer ----

  /** Which payloads the endpoint is sent: what they are about, and whether they name the customer. */
  type Payloads = (Option<nat>, bool) -> bool

  ghost predicate Admitted(steps: seq<Step>, admits: Payloads)
  {
    forall st | st in steps && st.Emit? :: admits(st.about, st.hasCustomer)
  }

  /** Every payload about a subscription names its customer. */
  ghost predicate NamesCustomers(admits: Payloads) { forall id: nat :: !admits(Some(id), false) }

  /** Every event names its customer or is about nothing, and every lock taken is the customer's. */
  ghost predicate Named(s: State)
  {
    && (forall e | e in s.events :: s.events[e].hasCustomer || s.events[e].sub.None?)
    && (forall tx | tx in s.txs && !s.txs[tx].Open? :: s.txs[tx].key == OfCustomer)
    && OneLock(s.history)
  }

  lemma NamedKept(s: State, step: Step)
    requires Named(s) && (step.Emit? ==> step.hasCustomer || step.about.None?)
    ensures Named(Next(s, step))
  {
    if step.Finish? && step.tx in s.txs && s.txs[step.tx].Fetched? {
      assert Next(s, step).history[..|s.history|] == s.history;
    }
  }

  lemma {:induction false} AllNamed(row: TeamRow, steps: seq<Step>, admits: Payloads)
    requires NamesCustomers(admits) && Admitted(steps, admits)
    ensures Named(Run(Init(row), steps))
  {
    if steps != [] {
      var n := |steps| - 1;
      AllNamed(row, steps[..n], admits);
      assert steps[n] in steps;
      if steps[n].Emit? && steps[n].about.Some? { assert admits(steps[n].about, steps[n].hasCustomer); }
      NamedKept(Run(Init(row), steps[..n]), steps[n]);
    }
  }

  /**
   * Once Stripe stands still with exactly one entitled subscription, any
   * order and repetition of locked transactions that fetched it since ends
   * in the row it alone would give, as long as payloads name their customer.
   */
  lemma Converges(row: TeamRow, steps: seq<Step>, admits: Payloads, e: nat)
    requires !row.plan.System? && NamesCustomers(admits) && Admitted(steps, admits)
    requires var s := Run(Init(row), steps); OneEntitled(s, e) && SeenSince(s, e)
    ensures var s := Run(Init(row), steps); s.row == SoloRow(s.subs[e])
  {
    AllNamed(row, steps, admits);
    RunKeeps(row, steps);
    ConvergesAt(Run(Init(row), steps), e);
  }

  lemma KeptEventSeen(s: State, e: nat, event: nat)
    requires Inv(s) && event in s.ledger && event in s.events
    requires s.events[event].sub == Some(e) && s.events[event].clock == s.clock
    ensures SeenSince(s, e)
  {
    assert Covered(s, event);
    var i :| 0 <= i < |s.history| && s.history[i].visit.seen.id == e && s.history[i].clock >= s.events[event].clock;
    assert s.history[i].clock == s.clock;
  }

  /** So once a delivery that announces the last change is kept, the row is Stripe's. */
  lemma KeptEventConverges(row: TeamRow, steps: seq<Step>, admits: Payloads, e: nat, event: nat)
    requires !row.plan.System? && NamesCustomers(admits) && Admitted(steps, admits)
    requires var s := Run(Init(row), steps);
             && OneEntitled(s, e) && event in s.ledger && event in s.events
             && s.events[event].sub == Some(e) && s.events[event].clock == s.clock
    ensures var s := Run(Init(row), steps); s.row == SoloRow(s.subs[e])
  {
    RunKeeps(row, steps);
    KeptEventSeen(Run(Init(row), steps), e, event);
    Converges(row, steps, admits, e);
  }

  // ---- Once everything has ended ----

  /** No subscription is entitled, and `e`, the one the row names, has ended for good. */
  predicate AllEnded(s: State, e: nat)
  {
    && s.row.subscription == Some(e) && e in s.subs && !s.subs[e].status.PastDue?
    && forall id | id in s.subs :: !Entitled(s.subs[id])
  }

  /** Applies of ended subscriptions only, among them the one the row ends up naming. */
  lemma {:induction false} EndedTail(row: TeamRow, visits: seq<Visit>, e: Sub)
    requires !row.plan.System? && !Entitled(e) && !e.status.PastDue?
    requires forall v | v in visits :: !Entitled(v.seen) && (v.seen.id == e.id ==> v.seen == e)
    requires Replay(row, visits).subscription == Some(e.id)
    ensures (exists v | v in visits :: v.seen == e) ==> Replay(row, visits) == SoloRow(e)
  {
    if visits != [] {
      var n := |visits| - 1;
      NeverSystem(row, visits[..n]);
      assert visits[n] in visits;
      if visits[n].seen.id != e.id {
        EndedTail(row, visits[..n], e);
        if v :| v in visits && v.seen == e { assert v in visits[..n]; }
      }
    }
  }

  lemma EndedVisit(s: State, e: nat, k: nat)
    requires Inv(s) && AllEnded(s, e) && k < |s.history| && s.history[k].clock >= s.clock
    ensures var seen := s.history[k].visit.seen; !Entitled(seen) && (seen.id == e ==> seen == s.subs[e])
  {
  }

  lemma EndedVisits(s: State, e: nat, n: nat)
    requires Inv(s) && AllEnded(s, e) && n <= |s.history|
    requires forall i | n <= i < |s.history| :: s.history[i].clock >= s.clock
    ensures forall v | v in Visits(s.history)[n..] :: !Entitled(v.seen) && (v.seen.id == e ==> v.seen == s.subs[e])
  {
    var tail := Visits(s.history)[n..];
    forall v | v in tail ensures !Entitled(v.seen) && (v.seen.id == e ==> v.seen == s.subs[e]) {
      var k :| 0 <= k < |tail| && tail[k] == v;
      EndedVisit(s, e, n + k);
    }
  }

  /** Whatever came before such a tail leaves no trace either. */
  lemma EndedTailDecides(row: TeamRow, visits: seq<Visit>, n: nat, e: Sub)
    requires !row.plan.System? && !Entitled(e) && !e.status.PastDue? && n <= |visits|
    requires exists v | v in visits[n..] :: v.seen == e
    requires forall v | v in visits[n..] :: !Entitled(v.seen) && (v.seen.id == e.id ==> v.seen == e)
    requires Replay(row, visits).subscription == Some(e.id)
    ensures Replay(row, visits) == SoloRow(e)
  {
    NeverSystem(row, visits[..n]);
    ReplaySplit(row, visits[..n], visits[n..]);
    assert visits == visits[..n] + visits[n..];
    EndedTail(Replay(row, visits[..n]), visits[n..], e);
  }

  lemma EndedAt(s: State, e: nat)
    requires Inv(s) && !s.start.plan.System? && OneLock(s.history) && AllEnded(s, e) && SeenSince(s, e)
    ensures s.row == SoloRow(s.subs[e])
  {
    var i :| 0 <= i < |s.history| && s.history[i].clock == s.clock && s.history[i].visit.seen.id == e;
    var n := QuietFrom(s.history, s.clock);
    QuietSuffix(s, i);
    EndedVisit(s, e, i);
    SuffixHas(s.history, n, i);
    EndedVisits(s, e, n);
    EndedTailDecides(s.start, Visits(s.history), n, s.subs[e]);
  }

  /**
   * When Stripe stands still with nothing entitled and the subscription the
   * row names was seen since, the team is on the free plan that subscription
   * alone would leave.
   */
  lemma EndedConverges(row: TeamRow, steps: seq<Step>, admits: Payloads, e: nat)
    requires !row.plan.System? && NamesCustomers(admits) && Admitted(steps, admits)
    requires var s := Run(Init(row), steps); AllEnded(s, e) && SeenSince(s, e)
    ensures var s := Run(Init(row), steps); s.row == SoloRow(s.subs[e]) && s.row.plan.Free?
  {
    AllNamed(row, steps, admits);
    RunKeeps(row, steps);
    EndedAt(Run(Init(row), steps), e);
  }

  // ---- One delivery of an event at a time ----

  /** At most one transaction delivers an event, and none one that is kept. */
  ghost predicate OneDelivery(s: State) {
    && (forall x, y | x in s.txs && y in s.txs && s.txs[x].work.Deliver? && s.txs[y].work == s.txs[x].work :: x == y)
    && (forall x | x in s.txs && s.txs[x].work.Deliver? :: s.txs[x].work.event !in s.ledger)
  }

  lemma BeginOne(s: State, tx: nat, work: Work)
    requires OneDelivery(s)
    ensures OneDelivery(Beginning(s, tx, work))
  {
    if work.Deliver? && !Taken(s, work.event) {
      assert forall x | x in s.txs :: s.txs[x].work != Deliver(work.event);
    }
  }

  lemma FinishOne(s: State, tx: nat, repair: Repair)
    requires OneDelivery(s)
    ensures OneDelivery(Next(s, Finish(tx, repair)))
  {
    assert Next(s, Finish(tx, repair)).txs.Keys <= s.txs.Keys;
  }

  /** A step that opens no transaction and keeps no event. */
  lemma OthersOne(s: State, step: Step)
    requires !step.Begin? && !step.Finish?
    ensures var n := Next(s, step);
            n.ledger == s.ledger && forall x | x in n.txs :: x in s.txs && n.txs[x].work == s.txs[x].work
  {
  }

  lemma OneDeliveryKept(s: State, step: Step)
    requires OneDelivery(s)
    ensures OneDelivery(Next(s, step))
  {
    if step.Begin? {
      BeginOne(s, step.tx, step.work);
    } else if step.Finish? {
      FinishOne(s, step.tx, step.repair);
    } else {
      OthersOne(s, step);
    }
  }

  /** However often Stripe delivers an event, in no run is it being applied twice at once, or again once kept. */
  lemma {:induction false} DeliveredOnce(row: TeamRow, steps: seq<Step>)
    ensures OneDelivery(Run(Init(row), steps))
  {
    if steps != [] {
      DeliveredOnce(row, steps[..|steps| - 1]);
      OneDeliveryKept(Run(Init(row), steps[..|steps| - 1]), steps[|steps| - 1]);
    }
  }

  // ---- What the one lock is for ----

  lemma RunAppend(row: TeamRow, steps: seq<Step>, step: Step)
    ensures Run(Init(row), steps + [step]) == Next(Run(Init(row), steps), step)
  {
    assert (steps + [step])[..|steps|] == steps;
  }

  /**
   * A transaction on the customer's lock fetches `a`; Stripe moves on to `b`,
   * and a payload without a customer says so.
   */
  function StaleStart(a: Sub, b: Sub): seq<Step>
  {
    [Change(a), Begin(0, ApplyLocked(a.id)), Lock(0), Fetch(0, None), Change(b), Emit(0, Some(b.id), false)]
  }

  /** Its delivery, on the subscription's lock, overtakes the first transaction. */
  function StaleEnd(): seq<Step> { [Begin(1, Deliver(0)), Lock(1), Fetch(1, None), Finish(1, None), Finish(0, None)] }

  function Overtaken(row: TeamRow, a: Sub, b: Sub): State
  {
    State(2, map[b.id := b], map[0 := Event(Some(b.id), false, 2)], {},
          map[0 := Fetched(ApplyLocked(a.id), OfCustomer, a, 1)], map[OfCustomer := 0], row, row, [])
  }

  lemma RunFour(s: State, a: Step, b: Step, c: Step, d: Step)
    ensures Run(s, [a, b, c, d]) == Next(Next(Next(Next(s, a), b), c), d)
  {
    var steps := [a, b, c, d];
    assert steps[..3] == [a, b, c] && steps[..3][..2] == [a, b];
    assert steps[..3][..2][..1] == [a] && steps[..3][..2][..1][..0] == [];
    assert Run(s, [a]) == Next(s, a);
    assert Run(s, [a, b]) == Next(Next(s, a), b);
    assert Run(s, [a, b, c]) == Next(Next(Next(s, a), b), c);
  }

  lemma FirstFetches(row: TeamRow, a: Sub)
    ensures Run(Init(row), [Change(a), Begin(0, ApplyLocked(a.id)), Lock(0), Fetch(0, None)]) ==
            State(1, map[a.id := a], map[], {}, map[0 := Fetched(ApplyLocked(a.id), OfCustomer, a, 1)],
                  map[OfCustomer := 0], row, row, [])
  {
    var work := ApplyLocked(a.id);
    RunFour(Init(row), Change(a), Begin(0, work), Lock(0), Fetch(0, None));
    var s2 := Next(Next(Init(row), Change(a)), Begin(0, work));
    assert s2.txs == map[0 := Open(work)];
    var s3 := Next(s2, Lock(0));
    assert s3.txs == map[0 := Holding(work, OfCustomer)] && s3.locks == map[OfCustomer := 0];
  }

  lemma StripeMovesOn(row: TeamRow, a: Sub, b: Sub)
    requires a.id == b.id
    ensures Run(Init(row), StaleStart(a, b)) == Overtaken(row, a, b)
  {
    var steps := [Change(a), Begin(0, ApplyLocked(a.id)), Lock(0), Fetch(0, None)];
    FirstFetches(row, a);
    RunAppend(row, steps, Change(b));
    RunAppend(row, steps + [Change(b)], Emit(0, Some(b.id), false));
    assert StaleStart(a, b) == steps + [Change(b)] + [Emit(0, Some(b.id), false)];
  }

  lemma RunFive(s: State, a: Step, b: Step, c: Step, d: Step, e: Step)
    ensures Run(s, [a, b, c, d, e]) == Next(Next(Next(Next(Next(s, a), b), c), d), e)
  {
    RunFour(s, a, b, c, d);
    assert [a, b, c, d, e][..4] == [a, b, c, d];
  }

  lemma {:induction false} RunSplit(s: State, xs: seq<Step>, ys: seq<Step>)
    ensures Run(s, xs + ys) == Run(Run(s, xs), ys)
  {
    if ys == [] {
      assert xs + ys == xs;
    } else {
      var n := |ys| - 1;
      RunSplit(s, xs, ys[..n]);
      assert (xs + ys)[..|xs| + n] == xs + ys[..n];
    }
  }

  function BothFetched(row: TeamRow, a: Sub, b: Sub): State
  {
    var s := Overtaken(row, a, b);
    s.(txs := s.txs[1 := Fetched(Deliver(0), OfSubscription(b.id), b, 2)],
       locks := s.locks[OfSubscription(b.id) := 1])
  }

  /** The second transaction takes its own lock and fetches while the first still holds the customer's. */
  lemma SecondFetches(row: TeamRow, a: Sub, b: Sub)
    requires a.id == b.id
    ensures Next(Next(Next(Overtaken(row, a, b), Begin(1, Deliver(0))), Lock(1)), Fetch(1, None))
            == BothFetched(row, a, b)
  {
    var s := Overtaken(row, a, b);
    var s1 := Next(s, Begin(1, Deliver(0)));
    assert s1 == s.(txs := s.txs[1 := Open(Deliver(0))]);
    assert KeyOf(s1, Deliver(0)) == OfSubscription(b.id);
    var s2 := Next(s1, Lock(1));
    assert s2.txs == s.txs[1 := Holding(Deliver(0), OfSubscription(b.id))];
    assert Next(s2, Fetch(1, None)).txs == s.txs[1 := Fetched(Deliver(0), OfSubscription(b.id), b, 2)];
  }

  /** It commits, and the first commits the older state after it. */
  lemma BothFinish(row: TeamRow, a: Sub, b: Sub)
    requires !row.plan.System? && a.id == b.id && Settled(a)
    ensures var s := Next(Next(BothFetched(row, a, b), Finish(1, None)), Finish(0, None));
            && s.clock == 2 && s.subs == map[b.id := b] && s.row == SoloRow(a)
            && s.txs == map[] && s.ledger == {0}
            && s.history == [Commit(OfSubscription(b.id), 2, Visit(b, None)), Commit(OfCustomer, 1, Visit(a, None))]
  {
    var s := Next(BothFetched(row, a, b), Finish(1, None));
    assert s.txs == map[0 := Fetched(ApplyLocked(a.id), OfCustomer, a, 1)];
    assert !s.row.plan.System?;
    SettledOverwrites(s.row, a, None);
  }

  lemma StaleAppliedLast(row: TeamRow, a: Sub, b: Sub)
    requires !row.plan.System? && a.id == b.id && Settled(a)
    ensures var s := Run(Overtaken(row, a, b), StaleEnd());
            && s.clock == 2 && s.subs == map[b.id := b] && s.row == SoloRow(a)
            && s.txs == map[] && s.ledger == {0}
            && s.history == [Commit(OfSubscription(b.id), 2, Visit(b, None)), Commit(OfCustomer, 1, Visit(a, None))]
  {
    RunFive(Overtaken(row, a, b), Begin(1, Deliver(0)), Lock(1), Fetch(1, None), Finish(1, None), Finish(0, None));
    SecondFetches(row, a, b);
    BothFinish(row, a, b);
  }

  lemma StaleRun(row: TeamRow, a: Sub, b: Sub) returns (steps: seq<Step>)
    requires !row.plan.System? && a.id == b.id && Settled(a)
    ensures Run(Init(row), steps) == Run(Overtaken(row, a, b), StaleEnd())
    ensures forall st | st in steps && st.Emit? :: st.about == Some(b.id) && !st.hasCustomer
  {
    steps := StaleStart(a, b) + StaleEnd();
    StripeMovesOn(row, a, b);
    RunSplit(Init(row), StaleStart(a, b), StaleEnd());
  }

  /**
   * A delivery whose payload names no customer locks by its subscription
   * instead, so it does not exclude the customer's other transactions: a
   * plan Stripe has already ended comes back, and stays.
   */
  lemma NoCustomerGoesBack(row: TeamRow, a: Sub, b: Sub) returns (steps: seq<Step>)
    requires !row.plan.System? && a.id == b.id && Settled(a) && !Entitled(b)
    ensures var s := Run(Init(row), steps);
            && s.subs == map[b.id := b] && s.row == SoloRow(a) && s.row.plan.Paid?
            && s.txs == map[] && s.ledger == {0}
            && |s.history| == 2 && s.history[0].clock == 2 && s.history[1].clock == 1
  {
    steps := StaleRun(row, a, b);
    StaleAppliedLast(row, a, b);
    SettledOverwrites(row, a, None);
  }

  /** And a subscription that moved on while entitled ends in the row it had before, though it was seen since. */
  lemma NoCustomerDiverges(row: TeamRow, a: Sub, b: Sub) returns (steps: seq<Step>)
    requires !row.plan.System? && a.id == b.id && Settled(a) && Settled(b) && SoloRow(a) != SoloRow(b)
    ensures forall st | st in steps && st.Emit? :: st.about == Some(b.id) && !st.hasCustomer
    ensures var s := Run(Init(row), steps);
            && OneEntitled(s, b.id) && SeenSince(s, b.id) && !OneLock(s.history)
            && s.row != SoloRow(s.subs[b.id])
  {
    steps := StaleRun(row, a, b);
    StaleAppliedLast(row, a, b);
    var s := Run(Init(row), steps);
    assert s.history[0].clock == s.clock && s.history[0].visit.seen.id == b.id;
    assert s.history[0] in s.history;
  }

  ghost predicate MustConverge(row: TeamRow, steps: seq<Step>, e: nat)
  {
    var s := Run(Init(row), steps);
    !row.plan.System? && OneEntitled(s, e) && SeenSince(s, e) ==> s.row == SoloRow(s.subs[e])
  }

  ghost predicate AlwaysConverges(admits: Payloads)
  {
    forall row, steps, e: nat :: Admitted(steps, admits) ==> MustConverge(row, steps, e)
  }

  /**
   * Every run the endpoint may be sent converges if and only if every payload
   * about a subscription names its customer.
   */
  lemma ConvergesIff(admits: Payloads)
    ensures AlwaysConverges(admits) <==> NamesCustomers(admits)
  {
    if NamesCustomers(admits) {
      forall row, steps, e: nat | Admitted(steps, admits) ensures MustConverge(row, steps, e) {
        var s := Run(Init(row), steps);
        if !row.plan.System? && OneEntitled(s, e) && SeenSince(s, e) { Converges(row, steps, admits, e); }
      }
    } else {
      var id: nat :| admits(Some(id), false);
      var a := Sub(id, Active, Some(Rung(1, Paid(Starter), 1_500, false)), None, None, None, None, None, None);
      var b := a.(cancelAt := Some(1));
      var steps := NoCustomerDiverges(FRESH, a, b);
      assert Admitted(steps, admits) && !MustConverge(FRESH, steps, id);
    }
  }

  // ---- One delivery on its own ----

  datatype Reply = Ok200 | Bad400 | Threw

  /** The event ledger and the team row, as one delivery finds and leaves them. */
  class Endpoint {
    var ledger: set<nat>
    const billing: TeamBilling

    constructor (billing: TeamBilling)
      ensures ledger == {} && this.billing == billing
    {
      ledger := {};
      this.billing := billing;
    }

    /** `genuine`: the signature verifies and the mode matches. `fetched`: what Stripe returns, if it does. */
    method HandleWebhook(event: nat, about: Option<nat>, genuine: bool, fetched: Option<Sub>, repair: Repair)
      returns (reply: Reply)
      modifies this, billing
      ensures !genuine ==> reply == Bad400
      ensures genuine ==> reply == if event !in old(ledger) && about.Some? && fetched.None? then Threw else Ok200
      ensures reply != Ok200 ==> ledger == old(ledger) && billing.row == old(billing.row)
      ensures reply == Ok200 ==> ledger == old(ledger) + {event}
      ensures reply == Ok200 ==>
                billing.row == if event !in old(ledger) && about.Some? && fetched.Some?
                               then Apply(old(billing.row), fetched.value, repair) else old(billing.row)
    {
      if !genuine { return Bad400; }
      if event in ledger { return Ok200; }
      if about.None? {
        ledger := ledger + {event};
        return Ok200;
      }
      if fetched.None? { return Threw; }
      billing.ApplySubscription(fetched.value, repair);
      ledger := ledger + {event};
      reply := Ok200;
    }
  }

  /** With no other transaction open, the protocol's four steps do to ledger and row what the endpoint does. */
  lemma DeliverAlone(s: State, event: nat, repair: Repair)
    requires s.txs == map[] && s.locks == map[] && event in s.events && event !in s.ledger
    requires var about := s.events[event].sub; about.Some? && about.value in s.subs
    ensures var t := Next(Next(Next(Next(s, Begin(0, Deliver(event))), Lock(0)), Fetch(0, None)), Finish(0, repair));
            && t.ledger == s.ledger + {event}
            && t.row == Apply(s.row, s.subs[s.events[event].sub.value], repair)
            && t.txs == map[] && t.locks == map[]
  {
    var key := KeyOf(s, Deliver(event));
    var s1 := Next(s, Begin(0, Deliver(event)));
    assert s1.txs == map[0 := Open(Deliver(event))];
    var s2 := Next(s1, Lock(0));
    assert s2.txs == map[0 := Holding(Deliver(event), key)] && s2.locks == map[key := 0];
    var s3 := Next(s2, Fetch(0, None));
    assert s3.txs == map[0 := Fetched(Deliver(event), key, s.subs[s.events[event].sub.value], s.clock)];
    assert s3.locks - {key} == map[];
  }

  /**
   * A reconcile or an apply on its own puts the customer's newest
   * subscription, or the one it names, on the row and keeps no event; a
   * reconcile that finds none changes nothing.
   */
  lemma ApplyAlone(s: State, work: Work, newest: Option<nat>, repair: Repair)
    requires s.txs == map[] && s.locks == map[] && !work.Deliver?
    ensures var id := if work.Reconcile? then newest else Some(work.sub);
            var f := Next(Next(Next(s, Begin(0, work)), Lock(0)), Fetch(0, newest));
            var t := Next(f, Finish(0, repair));
            && t.txs == map[] && t.locks == map[] && t.ledger == s.ledger
            && t.row == if id.Some? && id.value in s.subs then Apply(s.row, s.subs[id.value], repair) else s.row
  {
    var s1 := Next(s, Begin(0, work));
    assert s1.txs == map[0 := Open(work)];
    var s2 := Next(s1, Lock(0));
    assert s2.txs == map[0 := Holding(work, OfCustomer)] && s2.locks == map[OfCustomer := 0];
    var id := if work.Reconcile? then newest else Some(work.sub);
    if id.Some? && id.value in s.subs {
      assert Next(s2, Fetch(0, newest)).txs == map[0 := Fetched(work, OfCustomer, s.subs[id.value], s.clock)];
    }
    assert s2.locks - {OfCustomer} == map[];
  }
}
