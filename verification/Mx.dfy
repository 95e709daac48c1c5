/**
 * The inbound MX (apps/mx/src/mx.ts): every session draws on one `buffered`
 * budget, and an address may hold only so many sessions. Sessions, their
 * message streams and the hand-offs to the API interleave freely.
 */
module Mx {
  import opened Common

  type Byte = nat

  type Ip = nat

  datatype Limits = Limits(maxBufferedBytes: nat, maxConnectionsPerIp: nat, connectionsPerIpPerMinute: nat)

  datatype Phase =
    | Streaming
    | Delivering(raw: seq<Byte>)
    | Refused
    | Settled

  /** One message coming in: all it sent, the chunks still kept, and the bytes it holds of the budget. */
  datatype Transfer = Transfer(
    session: nat, sent: seq<Byte>, kept: seq<Byte>, held: nat, oversize: bool, starved: bool, phase: Phase)

  /** `release` is the transfer whose release the session's close is to call. */
  datatype Session = Session(ip: Ip, release: Option<nat>)

  /** `admitted` is history: the sessions let in from each address since the minute began. */
  datatype State = State(
    sessions: map<nat, Session>, openByIp: map<Ip, nat>, recentByIp: map<Ip, nat>, admitted: map<Ip, nat>,
    transfers: seq<Transfer>, buffered: int)

  datatype Event =
    | Connect(session: nat, ip: Ip)
    | Close(session: nat)
    | Data(session: nat)
    | Oversize(transfer: nat)
    | Chunk(transfer: nat, bytes: seq<Byte>)
    | End(transfer: nat)
    | Settle(transfer: nat)
    | MinuteTick

  const IDLE := State(map[], map[], map[], map[], [], 0)

  function Get(counts: map<Ip, nat>, ip: Ip): nat { if ip in counts then counts[ip] else 0 }

  // ---- The handlers ----

  function Refuses(limits: Limits, s: State, ip: Ip): bool {
    Get(s.recentByIp, ip) + 1 > limits.connectionsPerIpPerMinute || Get(s.openByIp, ip) >= limits.maxConnectionsPerIp
  }

  function OnConnect(limits: Limits, s: State, session: nat, ip: Ip): State {
    var counted := s.(recentByIp := s.recentByIp[ip := Get(s.recentByIp, ip) + 1]);
    if Refuses(limits, s, ip) then counted
    else counted.(sessions := s.sessions[session := Session(ip, None)],
                  openByIp := s.openByIp[ip := Get(s.openByIp, ip) + 1],
                  admitted := s.admitted[ip := Get(s.admitted, ip) + 1])
  }

  function Released(s: State, t: nat): State
    requires t < |s.transfers|
  {
    s.(buffered := s.buffered - s.transfers[t].held,
       transfers := s.transfers[t := s.transfers[t].(held := 0, kept := [])])
  }

  function OneLess(counts: map<Ip, nat>, ip: Ip): map<Ip, nat> {
    var open := if ip in counts then counts[ip] as int - 1 else 0;
    if open <= 0 then counts - {ip} else counts[ip := open]
  }

  function OnClose(s: State, session: nat): State
    requires session in s.sessions && s.sessions[session].release.Some? ==>
               s.sessions[session].release.value < |s.transfers|
  {
    if session !in s.sessions then s else
      var state := s.sessions[session];
      var released := if state.release.Some? then Released(s, state.release.value) else s;
      released.(sessions := s.sessions - {session}, openByIp := OneLess(s.openByIp, state.ip))
  }

  function OnData(s: State, session: nat): State
    requires session in s.sessions
  {
    s.(transfers := s.transfers + [Transfer(session, [], [], 0, false, false, Streaming)],
       sessions := s.sessions[session := s.sessions[session].(release := Some(|s.transfers|))])
  }

  function OnChunk(limits: Limits, s: State, t: nat, bytes: seq<Byte>): State
    requires t < |s.transfers|
  {
    var x := s.transfers[t].(sent := s.transfers[t].sent + bytes);
    if x.starved || x.oversize then Released(s.(transfers := s.transfers[t := x]), t)
    else if s.buffered + |bytes| > limits.maxBufferedBytes then
      Released(s.(transfers := s.transfers[t := x.(starved := true)]), t)
    else s.(buffered := s.buffered + |bytes|,
            transfers := s.transfers[t := x.(kept := x.kept + bytes, held := x.held + |bytes|)])
  }

  /** The hand-off takes the bytes over from the session, and counts them twice. */
  function OnEnd(s: State, t: nat): State
    requires t < |s.transfers|
  {
    var x := s.transfers[t];
    var sessions := if x.session !in s.sessions then s.sessions
                    else s.sessions[x.session := s.sessions[x.session].(release := None)];
    if x.oversize || x.starved then
      s.(sessions := sessions, transfers := s.transfers[t := x.(kept := [], phase := Refused)])
    else
      s.(sessions := sessions, buffered := s.buffered + x.held,
         transfers := s.transfers[t := x.(kept := [], held := x.held * 2, phase := Delivering(x.kept))])
  }

  function OnSettle(s: State, t: nat): State
    requires t < |s.transfers|
  {
    var released := Released(s, t);
    released.(transfers := released.transfers[t := released.transfers[t].(phase := Settled)])
  }

  // ---- Runs ----

  /** A closed session's stream sends nothing more, and a session sends one message at a time. */
  ghost predicate Enabled(s: State, e: Event) {
    match e
    case Connect(session, _) => session !in s.sessions && forall x | x in s.transfers :: x.session != session
    case Close(_) => true
    case Data(session) => session in s.sessions && forall x | x in s.transfers && x.session == session ::
        x.phase.Settled?
    case Oversize(t) => Live(s, t)
    case Chunk(t, _) => Live(s, t)
    case End(t) => Live(s, t)
    case Settle(t) => t < |s.transfers| && (s.transfers[t].phase.Delivering? || s.transfers[t].phase.Refused?)
    case MinuteTick => true
  }

  predicate Live(s: State, t: nat) {
    t < |s.transfers| && s.transfers[t].phase.Streaming? && s.transfers[t].session in s.sessions
  }

  function Next(limits: Limits, s: State, e: Event): State
    requires Releases(s) && Enabled(s, e)
  {
    match e
    case Connect(session, ip) => OnConnect(limits, s, session, ip)
    case Close(session) => OnClose(s, session)
    case Data(session) => OnData(s, session)
    case Oversize(t) => s.(transfers := s.transfers[t := s.transfers[t].(oversize := true)])
    case Chunk(t, bytes) => OnChunk(limits, s, t, bytes)
    case End(t) => OnEnd(s, t)
    case Settle(t) => OnSettle(s, t)
    case MinuteTick => s.(recentByIp := map[], admitted := map[])
  }

  ghost predicate Runs(limits: Limits, states: seq<State>) {
    && |states| > 0 && states[0] == IDLE
    && forall i | 0 <= i < |states| - 1 :: Steps(limits, states[i], states[i + 1])
  }

  ghost predicate Steps(limits: Limits, s: State, n: State) {
    Releases(s) && exists e :: Enabled(s, e) && n == Next(limits, s, e)
  }

  // ---- The budget ----

  function Helds(ts: seq<Transfer>): seq<int> { seq(|ts|, i requires 0 <= i < |ts| => ts[i].held) }

  /** A transfer's bytes, each counted once. */
  function Once(x: Transfer): nat { if x.phase.Delivering? then |x.phase.raw| else x.held }

  function Onces(ts: seq<Transfer>): seq<int> { seq(|ts|, i requires 0 <= i < |ts| => Once(ts[i])) }

  /** The message bytes a transfer keeps in memory. */
  function Bytes(x: Transfer): nat { if x.phase.Delivering? then |x.phase.raw| else |x.kept| }

  function AllBytes(ts: seq<Transfer>): seq<int> { seq(|ts|, i requires 0 <= i < |ts| => Bytes(ts[i])) }

  predicate Open(s: State, t: nat)
    requires t < |s.transfers|
  {
    Live(s, t) || s.transfers[t].phase.Delivering? || s.transfers[t].phase.Refused?
  }

  /** Each stream of an open session is the one its close would release, and no other is. */
  ghost predicate Releases(s: State) {
    && (forall t: nat | Live(s, t) :: s.sessions[s.transfers[t].session].release == Some(t))
    && (forall x | x in s.sessions && s.sessions[x].release.Some? ::
          var t := s.sessions[x].release.value;
          t < |s.transfers| && s.transfers[t].phase.Streaming? && s.transfers[t].session == x)
  }

  ghost predicate Holds(s: State, t: nat)
    requires t < |s.transfers|
  {
    var x := s.transfers[t];
    && (x.phase.Delivering? ==> x.held == 2 * |x.phase.raw| && x.kept == [] && x.phase.raw == x.sent)
    && (!x.phase.Delivering? ==> |x.kept| <= x.held)
    && (x.held > 0 ==> Open(s, t))
    && (x.starved ==> x.held == 0)
    && (Live(s, t) ==> x.held == |x.kept|)
    && (Live(s, t) && !x.starved && !x.oversize ==> x.kept == x.sent)
  }

  ghost predicate Budget(limits: Limits, s: State) {
    && s.buffered == Sum(Helds(s.transfers))
    && Sum(Onces(s.transfers)) <= limits.maxBufferedBytes
    && forall t | 0 <= t < |s.transfers| :: Holds(s, t)
  }

  lemma {:induction false} SumAtMost(a: seq<int>, b: seq<int>, k: nat)
    requires |a| == |b| && forall i | 0 <= i < |a| :: 0 <= a[i] <= k * b[i]
    ensures 0 <= Sum(a) <= k * Sum(b)
  {
    if a != [] {
      var n := |a| - 1;
      SumAtMost(a[..n], b[..n], k);
      assert k * (Sum(b[..n]) + b[n]) == k * Sum(b[..n]) + k * b[n];
    }
  }

  /** What one changed transfer does to both sums. */
  lemma Changed(ts: seq<Transfer>, t: nat, x: Transfer)
    requires t < |ts|
    ensures Sum(Helds(ts[t := x])) == Sum(Helds(ts)) - ts[t].held + x.held
    ensures Sum(Onces(ts[t := x])) == Sum(Onces(ts)) - Once(ts[t]) + Once(x)
  {
    assert Helds(ts[t := x]) == Helds(ts)[t := x.held];
    assert Onces(ts[t := x]) == Onces(ts)[t := Once(x)];
    SumUpdate(Helds(ts), t, x.held);
    SumUpdate(Onces(ts), t, Once(x));
  }

  lemma Added(ts: seq<Transfer>, x: Transfer)
    ensures Sum(Helds(ts + [x])) == Sum(Helds(ts)) + x.held
    ensures Sum(Onces(ts + [x])) == Sum(Onces(ts)) + Once(x)
  {
    assert Helds(ts + [x]) == Helds(ts) + [x.held as int];
    assert Onces(ts + [x]) == Onces(ts) + [Once(x) as int];
    SumAppend(Helds(ts), x.held);
    SumAppend(Onces(ts), Once(x));
  }

  /** Bytes counted once never outnumber the budget's own count, which never doubles them more than once. */
  lemma OnceOrTwice(limits: Limits, s: State)
    requires Budget(limits, s)
    ensures 0 <= Sum(AllBytes(s.transfers)) <= Sum(Onces(s.transfers)) <= s.buffered <= 2 * Sum(Onces(s.transfers))
  {
    var ts := s.transfers;
    forall i | 0 <= i < |ts| ensures Bytes(ts[i]) <= Once(ts[i]) <= ts[i].held <= 2 * Once(ts[i]) {
      assert Holds(s, i);
    }
    SumAtMost(AllBytes(ts), Onces(ts), 1);
    SumAtMost(Onces(ts), Helds(ts), 1);
    SumAtMost(Helds(ts), Onces(ts), 2);
  }

  lemma ReleaseKeeps(limits: Limits, s: State, t: nat)
    requires t < |s.transfers| && Budget(limits, s) && !s.transfers[t].phase.Delivering?
    ensures Sum(Helds(Released(s, t).transfers)) == Released(s, t).buffered
    ensures Sum(Onces(Released(s, t).transfers)) <= limits.maxBufferedBytes
  {
    Changed(s.transfers, t, s.transfers[t].(held := 0, kept := []));
  }

  lemma CloseKeeps(limits: Limits, s: State, session: nat)
    requires Budget(limits, s) && Releases(s)
    ensures Budget(limits, OnClose(s, session)) && Releases(OnClose(s, session))
  {
    if session in s.sessions {
      var n := OnClose(s, session);
      var release := s.sessions[session].release;
      if release.Some? { ReleaseKeeps(limits, s, release.value); }
      forall i | 0 <= i < |n.transfers| ensures Holds(n, i) { assert Holds(s, i); }
    }
  }

  lemma DataKeeps(limits: Limits, s: State, session: nat)
    requires Budget(limits, s) && Releases(s) && Enabled(s, Data(session))
    ensures Budget(limits, OnData(s, session)) && Releases(OnData(s, session))
  {
    var n := OnData(s, session);
    Added(s.transfers, Transfer(session, [], [], 0, false, false, Streaming));
    forall i | 0 <= i < |n.transfers| ensures Holds(n, i) { if i < |s.transfers| { assert Holds(s, i); } }
    forall t: nat | Live(n, t) ensures n.sessions[n.transfers[t].session].release == Some(t) {
      if t < |s.transfers| { assert s.transfers[t] in s.transfers; }
    }
  }

  /** A handler that changes one transfer, and the budget with it. */
  lemma OneChanged(limits: Limits, s: State, n: State, t: nat)
    requires Budget(limits, s) && t < |s.transfers| == |n.transfers| && n.transfers == s.transfers[t := n.transfers[t]]
    requires n.sessions.Keys == s.sessions.Keys
    requires n.buffered - s.buffered == n.transfers[t].held - s.transfers[t].held
    requires Sum(Onces(s.transfers)) - Once(s.transfers[t]) + Once(n.transfers[t]) <= limits.maxBufferedBytes
    requires Holds(n, t)
    ensures Budget(limits, n)
  {
    Changed(s.transfers, t, n.transfers[t]);
    forall i | 0 <= i < |n.transfers| ensures Holds(n, i) { assert Holds(s, i); }
  }

  lemma ChunkKeeps(limits: Limits, s: State, t: nat, bytes: seq<Byte>)
    requires Budget(limits, s) && Releases(s) && Live(s, t)
    ensures Budget(limits, OnChunk(limits, s, t, bytes))
  {
    OnceOrTwice(limits, s);
    assert Holds(s, t);
    OneChanged(limits, s, OnChunk(limits, s, t, bytes), t);
  }

  lemma ReleasesKept(s: State, n: State, t: nat)
    requires Releases(s) && n.sessions == s.sessions
    requires t < |s.transfers| == |n.transfers| && n.transfers == s.transfers[t := n.transfers[t]]
    requires n.transfers[t].session == s.transfers[t].session
    requires n.transfers[t].phase.Streaming? == s.transfers[t].phase.Streaming?
    ensures Releases(n)
  {
    forall i: nat | Live(n, i) ensures n.sessions[n.transfers[i].session].release == Some(i) { assert Live(s, i); }
  }

  lemma EndKeeps(limits: Limits, s: State, t: nat)
    requires Budget(limits, s) && Releases(s) && Live(s, t)
    ensures Budget(limits, OnEnd(s, t))
  {
    assert Holds(s, t);
    OneChanged(limits, s, OnEnd(s, t), t);
  }

  lemma EndReleases(s: State, t: nat)
    requires Releases(s) && Live(s, t)
    ensures Releases(OnEnd(s, t))
  {
    var n := OnEnd(s, t);
    forall i: nat | Live(n, i) ensures n.sessions[n.transfers[i].session].release == Some(i) { assert Live(s, i); }
  }

  lemma SettleKeeps(limits: Limits, s: State, t: nat)
    requires Budget(limits, s) && Releases(s) && Enabled(s, Settle(t))
    ensures Budget(limits, OnSettle(s, t)) && Releases(OnSettle(s, t))
  {
    assert Holds(s, t);
    OneChanged(limits, s, OnSettle(s, t), t);
    ReleasesKept(s, OnSettle(s, t), t);
  }

  lemma OversizeKeeps(limits: Limits, s: State, t: nat)
    requires Budget(limits, s) && Releases(s) && Live(s, t)
    ensures var n := s.(transfers := s.transfers[t := s.transfers[t].(oversize := true)]);
            Budget(limits, n) && Releases(n)
  {
    var n := s.(transfers := s.transfers[t := s.transfers[t].(oversize := true)]);
    assert Holds(s, t);
    OneChanged(limits, s, n, t);
    ReleasesKept(s, n, t);
  }

  lemma ConnectKeeps(limits: Limits, s: State, session: nat, ip: Ip)
    requires Budget(limits, s) && Releases(s) && Enabled(s, Connect(session, ip))
    ensures Budget(limits, OnConnect(limits, s, session, ip)) && Releases(OnConnect(limits, s, session, ip))
  {
    var n := OnConnect(limits, s, session, ip);
    forall i | 0 <= i < |n.transfers| ensures Holds(n, i) && (Live(n, i) ==> Live(s, i)) {
      assert Holds(s, i) && s.transfers[i] in s.transfers;
    }
  }

  lemma TickKeeps(limits: Limits, s: State)
    requires Budget(limits, s) && Releases(s)
    ensures var n := s.(recentByIp := map[], admitted := map[]); Budget(limits, n) && Releases(n)
  {
    var n := s.(recentByIp := map[], admitted := map[]);
    forall i | 0 <= i < |n.transfers| ensures Holds(n, i) { assert Holds(s, i); }
  }

  /** Every handler, at any moment the sessions allow it, keeps the account of the budget. */
  lemma BudgetKept(limits: Limits, s: State, e: Event)
    requires Budget(limits, s) && Releases(s) && Enabled(s, e)
    ensures Budget(limits, Next(limits, s, e)) && Releases(Next(limits, s, e))
  {
    match e
    case Connect(session, ip) => ConnectKeeps(limits, s, session, ip);
    case Close(session) => CloseKeeps(limits, s, session);
    case Data(session) => DataKeeps(limits, s, session);
    case Oversize(t) => OversizeKeeps(limits, s, t);
    case Chunk(t, bytes) => ChunkKeeps(limits, s, t, bytes); ReleasesKept(s, OnChunk(limits, s, t, bytes), t);
    case End(t) => EndKeeps(limits, s, t); EndReleases(s, t);
    case Settle(t) => SettleKeeps(limits, s, t);
    case MinuteTick => TickKeeps(limits, s);
  }

  // ---- The door ----

  function Of(sessions: map<nat, Session>, ip: Ip): set<nat> { set x | x in sessions && sessions[x].ip == ip }

  ghost predicate Door(limits: Limits, s: State) {
    && (forall ip :: Get(s.openByIp, ip) == |Of(s.sessions, ip)| <= limits.maxConnectionsPerIp)
    && (forall ip :: Get(s.admitted, ip) <= Get(s.recentByIp, ip))
    && (forall ip :: Get(s.admitted, ip) <= limits.connectionsPerIpPerMinute)
  }

  lemma SessionJoins(sessions: map<nat, Session>, session: nat, x: Session, ip: Ip)
    requires session !in sessions
    ensures |Of(sessions[session := x], ip)| == |Of(sessions, ip)| + if x.ip == ip then 1 else 0
  {
    assert Of(sessions[session := x], ip) == Of(sessions, ip) + if x.ip == ip then {session} else {};
  }

  lemma SessionLeaves(sessions: map<nat, Session>, session: nat, ip: Ip)
    requires session in sessions
    ensures |Of(sessions - {session}, ip)| == |Of(sessions, ip)| - if sessions[session].ip == ip then 1 else 0
  {
    assert Of(sessions, ip) == Of(sessions - {session}, ip) + if sessions[session].ip == ip then {session} else {};
  }

  lemma DoorOpens(limits: Limits, s: State, session: nat, ip: Ip)
    requires Door(limits, s) && session !in s.sessions
    ensures Door(limits, OnConnect(limits, s, session, ip))
  {
    var n := OnConnect(limits, s, session, ip);
    forall other ensures Get(n.openByIp, other) == |Of(n.sessions, other)| <= limits.maxConnectionsPerIp {
      assert Get(s.openByIp, other) == |Of(s.sessions, other)|;
      SessionJoins(s.sessions, session, Session(ip, None), other);
    }
    forall other ensures Get(n.admitted, other) <= Get(n.recentByIp, other)
                 ensures Get(n.admitted, other) <= limits.connectionsPerIpPerMinute {
      assert Get(s.admitted, other) <= Get(s.recentByIp, other);
    }
  }

  lemma DoorCloses(limits: Limits, s: State, session: nat)
    requires Door(limits, s) && Releases(s)
    ensures Door(limits, OnClose(s, session))
  {
    var n := OnClose(s, session);
    if session in s.sessions {
      forall ip ensures Get(n.openByIp, ip) == |Of(n.sessions, ip)| <= limits.maxConnectionsPerIp {
        SessionLeaves(s.sessions, session, ip);
        assert Get(s.openByIp, ip) == |Of(s.sessions, ip)|;
      }
    }
  }

  /** What a handler does to one session's message does not reach the door. */
  lemma DoorUntouched(limits: Limits, s: State, n: State)
    requires Door(limits, s)
    requires n.openByIp == s.openByIp && n.recentByIp == s.recentByIp && n.admitted == s.admitted
    requires n.sessions.Keys == s.sessions.Keys && forall x | x in s.sessions :: n.sessions[x].ip == s.sessions[x].ip
    ensures Door(limits, n)
  {
    forall ip ensures Of(n.sessions, ip) == Of(s.sessions, ip) {}
  }

  lemma SessionsSame(limits: Limits, s: State, e: Event)
    requires Releases(s) && Enabled(s, e) && (e.Oversize? || e.Chunk? || e.Settle?)
    ensures var n := Next(limits, s, e);
            n.openByIp == s.openByIp && n.recentByIp == s.recentByIp && n.admitted == s.admitted
                && n.sessions == s.sessions
  {
  }

  lemma AddressesSame(limits: Limits, s: State, e: Event)
    requires Releases(s) && Enabled(s, e) && (e.Data? || e.End?)
    ensures var n := Next(limits, s, e);
            && n.openByIp == s.openByIp && n.recentByIp == s.recentByIp && n.admitted == s.admitted
            && n.sessions.Keys == s.sessions.Keys && forall x | x in s.sessions :: n.sessions[x].ip == s.sessions[x].ip
  {
  }

  lemma DoorKept(limits: Limits, s: State, e: Event)
    requires Door(limits, s) && Releases(s) && Enabled(s, e)
    ensures Door(limits, Next(limits, s, e))
  {
    if e.Connect? {
      DoorOpens(limits, s, e.session, e.ip);
    } else if e.Close? {
      DoorCloses(limits, s, e.session);
    } else if e.Data? || e.End? {
      AddressesSame(limits, s, e);
      DoorUntouched(limits, s, Next(limits, s, e));
    } else if !e.MinuteTick? {
      SessionsSame(limits, s, e);
      DoorUntouched(limits, s, Next(limits, s, e));
    }
  }

  /** In every state a run reaches, the budget and the door are in order. */
  lemma {:induction false} RunKeeps(limits: Limits, states: seq<State>, i: nat)
    requires Runs(limits, states) && i < |states|
    ensures Budget(limits, states[i]) && Releases(states[i]) && Door(limits, states[i])
  {
    if i > 0 {
      RunKeeps(limits, states, i - 1);
      assert Steps(limits, states[i - 1], states[i]);
      var e :| Enabled(states[i - 1], e) && states[i] == Next(limits, states[i - 1], e);
      BudgetKept(limits, states[i - 1], e);
      DoorKept(limits, states[i - 1], e);
    }
  }

  // ---- What the budget is for ----

  /**
   * At every moment of every run: the budget is the sum of what the transfers
   * hold, the message bytes in memory fit it, its own count never passes twice
   * its limit, and it is empty when no transfer is open.
   */
  lemma MemoryBound(limits: Limits, states: seq<State>, i: nat)
    requires Runs(limits, states) && i < |states|
    ensures var s := states[i];
            && s.buffered == Sum(Helds(s.transfers))
            && 0 <= Sum(AllBytes(s.transfers)) <= limits.maxBufferedBytes
            && Sum(AllBytes(s.transfers)) <= s.buffered <= 2 * limits.maxBufferedBytes
            && ((forall t | 0 <= t < |s.transfers| :: !Open(s, t)) ==> s.buffered == 0)
  {
    var s := states[i];
    RunKeeps(limits, states, i);
    OnceOrTwice(limits, s);
    if forall t | 0 <= t < |s.transfers| :: !Open(s, t) {
      forall t | 0 <= t < |s.transfers| ensures 0 <= Helds(s.transfers)[t] <= 0 * Helds(s.transfers)[t] {
        assert Holds(s, t);
      }
      SumAtMost(Helds(s.transfers), Helds(s.transfers), 0);
    }
  }

  /** What is handed over is the whole message, whatever the other sessions did meanwhile. */
  lemma WholeMessage(limits: Limits, states: seq<State>, i: nat, t: nat)
    requires Runs(limits, states) && i < |states| && t < |states[i].transfers|
    requires states[i].transfers[t].phase.Delivering?
    ensures states[i].transfers[t].phase.raw == states[i].transfers[t].sent
    ensures states[i].transfers[t].held == 2 * |states[i].transfers[t].sent|
  {
    RunKeeps(limits, states, i);
    assert Holds(states[i], t);
  }

  /**
   * A chunk of a message that is whole so far is kept exactly when it fits the
   * budget all sessions share; otherwise the message gives back all it held.
   */
  lemma KeptIffFits(limits: Limits, states: seq<State>, i: nat, t: nat, bytes: seq<Byte>)
    requires Runs(limits, states) && i < |states| && Live(states[i], t)
    requires !states[i].transfers[t].starved && !states[i].transfers[t].oversize && bytes != []
    ensures var s := states[i];
            var n := OnChunk(limits, s, t, bytes);
            && n.transfers[t].sent == s.transfers[t].sent + bytes
            && (n.transfers[t].kept == n.transfers[t].sent <==> s.buffered + |bytes| <= limits.maxBufferedBytes)
            && n.buffered == s.buffered + if s.buffered + |bytes| <= limits.maxBufferedBytes then |bytes|
                                          else -|s.transfers[t].sent|
  {
    RunKeeps(limits, states, i);
    assert Holds(states[i], t);
  }

  /** A client hanging up while its message is handed over frees nothing early. */
  lemma HangUpFreesNothing(limits: Limits, states: seq<State>, i: nat, t: nat)
    requires Runs(limits, states) && i < |states| && t < |states[i].transfers|
    requires states[i].transfers[t].phase.Delivering?
    ensures var s := states[i];
            var session := s.transfers[t].session;
            && (session in s.sessions && s.sessions[session].release.Some? ==>
                  s.sessions[session].release.value < |s.transfers| && s.sessions[session].release.value != t)
            && OnClose(s, session).transfers[t] == s.transfers[t]
  {
    RunKeeps(limits, states, i);
  }

  /**
   * An address never holds more sessions than its share, nor is let in more
   * often in a minute, and its count is exact.
   */
  lemma DoorBound(limits: Limits, states: seq<State>, i: nat, ip: Ip)
    requires Runs(limits, states) && i < |states|
    ensures Get(states[i].openByIp, ip) == |Of(states[i].sessions, ip)| <= limits.maxConnectionsPerIp
    ensures Get(states[i].admitted, ip) <= limits.connectionsPerIpPerMinute
  {
    RunKeeps(limits, states, i);
  }

  // ---- Who is let in, and what is handed over ----

  /** The states the events lead through. */
  ghost predicate Driven(limits: Limits, states: seq<State>, events: seq<Event>) {
    && |states| == |events| + 1 && states[0] == IDLE
    && forall i | 0 <= i < |events| ::
         Releases(states[i]) && Enabled(states[i], events[i]) && states[i + 1] == Next(limits, states[i], events[i])
  }

  lemma DrivenRuns(limits: Limits, states: seq<State>, events: seq<Event>)
    requires Driven(limits, states, events)
    ensures Runs(limits, states)
  {
    forall i | 0 <= i < |states| - 1 ensures Steps(limits, states[i], states[i + 1]) {
      assert Enabled(states[i], events[i]) && states[i + 1] == Next(limits, states[i], events[i]);
    }
  }

  /** How often the address has tried since the minute began. */
  function Attempts(events: seq<Event>, ip: Ip): nat {
    if events == [] then 0 else
      var last := events[|events| - 1];
      if last.MinuteTick? then 0
      else Attempts(events[..|events| - 1], ip) + if last.Connect? && last.ip == ip then 1 else 0
  }

  lemma AttemptsOn(events: seq<Event>, i: nat, ip: Ip)
    requires i < |events|
    ensures Attempts(events[..i + 1], ip) ==
            if events[i].MinuteTick? then 0
            else Attempts(events[..i], ip) + if events[i].Connect? && events[i].ip == ip then 1 else 0
  {
    assert events[..i + 1][..i] == events[..i];
  }

  lemma RecentNext(limits: Limits, s: State, e: Event, ip: Ip)
    requires Releases(s) && Enabled(s, e)
    ensures Get(Next(limits, s, e).recentByIp, ip) ==
            if e.MinuteTick? then 0 else Get(s.recentByIp, ip) + if e.Connect? && e.ip == ip then 1 else 0
  {
    if e.Data? || e.End? {
      AddressesSame(limits, s, e);
    } else if e.Oversize? || e.Chunk? || e.Settle? {
      SessionsSame(limits, s, e);
    }
  }

  lemma {:induction false} AttemptsCounted(limits: Limits, states: seq<State>, events: seq<Event>, i: nat, ip: Ip)
    requires Driven(limits, states, events) && i <= |events|
    ensures Get(states[i].recentByIp, ip) == Attempts(events[..i], ip)
  {
    if i > 0 {
      AttemptsCounted(limits, states, events, i - 1, ip);
      RecentNext(limits, states[i - 1], events[i - 1], ip);
      AttemptsOn(events, i - 1, ip);
    }
  }

  /**
   * A connection is let in if and only if its address holds less than its
   * share of sessions and has not tried more often than it may this minute,
   * refused tries counted.
   */
  lemma AdmitsIff(limits: Limits, states: seq<State>, events: seq<Event>, i: nat)
    requires Driven(limits, states, events) && i < |events| && events[i].Connect?
    ensures var ip := events[i].ip;
            if && |Of(states[i].sessions, ip)| < limits.maxConnectionsPerIp
               && Attempts(events[..i + 1], ip) <= limits.connectionsPerIpPerMinute
            then
              && states[i + 1].sessions.Keys == states[i].sessions.Keys + {events[i].session}
              && states[i + 1].sessions[events[i].session].ip == ip
            else states[i + 1].sessions == states[i].sessions
  {
    var ip := events[i].ip;
    DrivenRuns(limits, states, events);
    RunKeeps(limits, states, i);
    AttemptsCounted(limits, states, events, i, ip);
    AttemptsOn(events, i, ip);
    assert Get(states[i].openByIp, ip) == |Of(states[i].sessions, ip)|;
    assert states[i + 1] == Next(limits, states[i], events[i]);
  }

  /** The message is called too large, or a chunk of it finds the budget full. */
  predicate Spoils(limits: Limits, s: State, e: Event, t: nat) {
    e == Oversize(t) || (e.Chunk? && e.transfer == t && s.buffered + |e.bytes| > limits.maxBufferedBytes)
  }

  /** That has happened to it. */
  ghost predicate Spoilt(limits: Limits, states: seq<State>, events: seq<Event>, i: nat, t: nat)
    requires i <= |events| <= |states|
  {
    exists k | 0 <= k < i :: Spoils(limits, states[k], events[k], t)
  }

  lemma SpoiltOn(limits: Limits, states: seq<State>, events: seq<Event>, i: nat, t: nat)
    requires i < |events| <= |states|
    ensures Spoilt(limits, states, events, i + 1, t) <==>
            Spoilt(limits, states, events, i, t) || Spoils(limits, states[i], events[i], t)
  {
  }

  predicate Flagged(s: State, t: nat) {
    t < |s.transfers| && (s.transfers[t].oversize || s.transfers[t].starved)
  }

  lemma ChunkFlags(limits: Limits, s: State, x: nat, bytes: seq<Byte>, t: nat)
    requires x < |s.transfers|
    ensures Flagged(OnChunk(limits, s, x, bytes), t) <==> Flagged(s, t) || Spoils(limits, s, Chunk(x, bytes), t)
  {
  }

  lemma CloseFlags(s: State, session: nat, t: nat)
    requires Releases(s)
    ensures Flagged(OnClose(s, session), t) == Flagged(s, t)
  {
  }

  lemma EndFlags(s: State, x: nat, t: nat)
    requires x < |s.transfers|
    ensures Flagged(OnEnd(s, x), t) == Flagged(s, t) && Flagged(OnSettle(s, x), t) == Flagged(s, t)
  {
  }

  lemma FlagsNext(limits: Limits, s: State, e: Event, t: nat)
    requires Releases(s) && Enabled(s, e)
    ensures Flagged(Next(limits, s, e), t) <==> Flagged(s, t) || Spoils(limits, s, e, t)
  {
    match e
    case Chunk(x, bytes) => ChunkFlags(limits, s, x, bytes, t);
    case Close(session) => CloseFlags(s, session, t);
    case End(x) => EndFlags(s, x, t);
    case Settle(x) => EndFlags(s, x, t);
    case Connect(_, _) =>
    case Data(_) =>
    case Oversize(_) =>
    case MinuteTick =>
  }

  /** Each event spoils the message or leaves it as it was. */
  ghost predicate Follows(limits: Limits, states: seq<State>, events: seq<Event>, t: nat) {
    && |states| == |events| + 1 && !Flagged(states[0], t)
    && forall j | 0 <= j < |events| ::
         Flagged(states[j + 1], t) <==> Flagged(states[j], t) || Spoils(limits, states[j], events[j], t)
  }

  lemma {:induction false} FlagsFollow(limits: Limits, states: seq<State>, events: seq<Event>, i: nat, t: nat)
    requires Follows(limits, states, events, t) && i <= |events|
    ensures Spoilt(limits, states, events, i, t) <==> Flagged(states[i], t)
  {
    if i > 0 {
      FlagsFollow(limits, states, events, i - 1, t);
      SpoiltOn(limits, states, events, i - 1, t);
    }
  }

  lemma FlagsAre(limits: Limits, states: seq<State>, events: seq<Event>, i: nat, t: nat)
    requires Driven(limits, states, events) && i <= |events|
    ensures Spoilt(limits, states, events, i, t) <==> Flagged(states[i], t)
  {
    forall j | 0 <= j < |events|
      ensures Flagged(states[j + 1], t) <==> Flagged(states[j], t) || Spoils(limits, states[j], events[j], t) {
      FlagsNext(limits, states[j], events[j], t);
    }
    FlagsFollow(limits, states, events, i, t);
  }

  /** A message that ends is handed over, whole, if and only if nothing has gone wrong with it. */
  lemma HandedOverIff(limits: Limits, states: seq<State>, events: seq<Event>, i: nat, t: nat)
    requires Driven(limits, states, events) && i < |events| && events[i] == End(t)
    ensures t < |states[i + 1].transfers|
    ensures var phase := states[i + 1].transfers[t].phase;
            if Spoilt(limits, states, events, i, t) then phase == Refused
            else phase == Delivering(states[i].transfers[t].sent)
  {
    DrivenRuns(limits, states, events);
    RunKeeps(limits, states, i);
    FlagsAre(limits, states, events, i, t);
    assert Holds(states[i], t);
    assert states[i + 1] == Next(limits, states[i], events[i]);
  }

  lemma Extends(limits: Limits, states: seq<State>, e: Event)
    requires Runs(limits, states) && Releases(states[|states| - 1]) && Enabled(states[|states| - 1], e)
    ensures Runs(limits, states + [Next(limits, states[|states| - 1], e)])
  {
    var more := states + [Next(limits, states[|states| - 1], e)];
    forall i | 0 <= i < |more| - 1 ensures Steps(limits, more[i], more[i + 1]) {
      if i < |states| - 1 { assert Steps(limits, states[i], states[i + 1]); }
    }
  }

  /** The bound is met: the doubling at the hand-off is not checked against the budget. */
  lemma TwiceReached(limits: Limits, message: seq<Byte>) returns (states: seq<State>)
    requires limits.maxConnectionsPerIp > 0 && limits.connectionsPerIpPerMinute > 0
    requires |message| == limits.maxBufferedBytes
    ensures Runs(limits, states) && states[|states| - 1].buffered == 2 * limits.maxBufferedBytes
  {
    states := [IDLE];
    Extends(limits, states, Connect(0, 0));
    states := states + [OnConnect(limits, IDLE, 0, 0)];
    var met := states[1];
    assert met == State(map[0 := Session(0, None)], map[0 := 1], map[0 := 1], map[0 := 1], [], 0);
    Extends(limits, states, Data(0));
    states := states + [OnData(met, 0)];
    var streaming := states[2];
    Extends(limits, states, Chunk(0, message));
    states := states + [OnChunk(limits, streaming, 0, message)];
    var full := states[3];
    assert full.transfers[0].held == full.buffered == |message|;
    Extends(limits, states, End(0));
    states := states + [OnEnd(full, 0)];
  }

  // ---- The handlers themselves ----

  /** The account of the budget and of the door. */
  ghost predicate Sound(limits: Limits, s: State) { Budget(limits, s) && Releases(s) && Door(limits, s) }

  /** The account stays in order, when the event is one the sessions allow. */
  ghost predicate Keeps(limits: Limits, s: State, e: Event, n: State) {
    Sound(limits, s) && Enabled(s, e) ==> Sound(limits, n)
  }

  /** The handlers keep it. */
  lemma SoundKept(limits: Limits, s: State, e: Event, n: State)
    requires Sound(limits, s) && Enabled(s, e) ==> n == Next(limits, s, e)
    ensures Keeps(limits, s, e, n)
  {
    if Sound(limits, s) && Enabled(s, e) {
      BudgetKept(limits, s, e);
      DoorKept(limits, s, e);
    }
  }

  lemma IdleSound(limits: Limits)
    ensures Sound(limits, IDLE)
  {
  }

  class Server {
    const limits: Limits
    var sessions: map<nat, Session>
    var openByIp: map<Ip, nat>
    var recentByIp: map<Ip, nat>
    ghost var admitted: map<Ip, nat>
    var transfers: seq<Transfer>
    var buffered: int

    ghost function View(): State
      reads this
    {
      State(sessions, openByIp, recentByIp, admitted, transfers, buffered)
    }

    constructor (limits: Limits)
      ensures this.limits == limits && View() == IDLE && Sound(limits, View())
    {
      IdleSound(limits);
      this.limits := limits;
      sessions, openByIp, recentByIp, admitted := map[], map[], map[], map[];
      transfers := [];
      buffered := 0;
    }

    method Connect(session: nat, ip: Ip) returns (admit: bool)
      modifies this
      ensures View() == OnConnect(limits, old(View()), session, ip)
      ensures admit == !Refuses(limits, old(View()), ip)
      ensures Keeps(limits, old(View()), Event.Connect(session, ip), View())
    {
      SoundKept(limits, View(), Event.Connect(session, ip), OnConnect(limits, View(), session, ip));
      var recent := Get(recentByIp, ip) + 1;
      recentByIp := recentByIp[ip := recent];
      var open := Get(openByIp, ip);
      admit := recent <= limits.connectionsPerIpPerMinute && open < limits.maxConnectionsPerIp;
      if admit {
        openByIp := openByIp[ip := open + 1];
        sessions := sessions[session := Session(ip, None)];
        admitted := admitted[ip := Get(admitted, ip) + 1];
      }
    }

    method Release(t: nat)
      requires t < |transfers|
      modifies this`buffered, this`transfers
      ensures View() == Released(old(View()), t)
    {
      buffered := buffered - transfers[t].held;
      transfers := transfers[t := transfers[t].(held := 0, kept := [])];
    }

    method Close(session: nat)
      requires Releases(View())
      modifies this
      ensures View() == OnClose(old(View()), session)
      ensures Keeps(limits, old(View()), Event.Close(session), View())
    {
      SoundKept(limits, View(), Event.Close(session), OnClose(View(), session));
      if session !in sessions { return; }
      var state := sessions[session];
      sessions := sessions - {session};
      if state.release.Some? { Release(state.release.value); }
      var open := (if state.ip in openByIp then openByIp[state.ip] as int else 1) - 1;
      if open <= 0 {
        openByIp := openByIp - {state.ip};
      } else {
        openByIp := openByIp[state.ip := open];
      }
    }

    method Data(session: nat) returns (t: nat)
      requires session in sessions
      modifies this
      ensures View() == OnData(old(View()), session) && t == old(|transfers|)
      ensures Keeps(limits, old(View()), Event.Data(session), View())
    {
      SoundKept(limits, View(), Event.Data(session), OnData(View(), session));
      t := |transfers|;
      transfers := transfers + [Transfer(session, [], [], 0, false, false, Streaming)];
      sessions := sessions[session := sessions[session].(release := Some(t))];
    }

    method Chunk(t: nat, bytes: seq<Byte>)
      requires t < |transfers|
      modifies this
      ensures View() == OnChunk(limits, old(View()), t, bytes)
      ensures Keeps(limits, old(View()), Event.Chunk(t, bytes), View())
    {
      SoundKept(limits, View(), Event.Chunk(t, bytes), OnChunk(limits, View(), t, bytes));
      transfers := transfers[t := transfers[t].(sent := transfers[t].sent + bytes)];
      if transfers[t].starved || transfers[t].oversize {
        Release(t);
      } else if buffered + |bytes| > limits.maxBufferedBytes {
        transfers := transfers[t := transfers[t].(starved := true)];
        Release(t);
      } else {
        transfers := transfers[t :=
            transfers[t].(kept := transfers[t].kept + bytes, held := transfers[t].held + |bytes|)];
        buffered := buffered + |bytes|;
      }
    }

    method End(t: nat)
      requires t < |transfers|
      modifies this
      ensures View() == OnEnd(old(View()), t)
      ensures Keeps(limits, old(View()), Event.End(t), View())
    {
      SoundKept(limits, View(), Event.End(t), OnEnd(View(), t));
      var x := transfers[t];
      if x.session in sessions { sessions := sessions[x.session := sessions[x.session].(release := None)]; }
      if x.oversize || x.starved {
        transfers := transfers[t := x.(kept := [], phase := Refused)];
      } else {
        var raw := x.kept;
        buffered := buffered + x.held;
        transfers := transfers[t := x.(kept := [], held := x.held * 2, phase := Delivering(raw))];
      }
    }

    method Settle(t: nat)
      requires t < |transfers|
      modifies this
      ensures View() == OnSettle(old(View()), t)
      ensures Keeps(limits, old(View()), Event.Settle(t), View())
    {
      SoundKept(limits, View(), Event.Settle(t), OnSettle(View(), t));
      Release(t);
      transfers := transfers[t := transfers[t].(phase := Settled)];
    }
  }
}
