/**
 * A migration run, interrupted and resumed (packages/cli/src/apply.ts):
 * contacts go to the target chunk by chunk, before and after them the rows of
 * the plan and the flushes of the enrichment, and the state file keeps the
 * last source id done and the ids this tool created. A run may stop between
 * any two steps, losing what it had not saved, and others change the target
 * meanwhile.
 */
module Resume {
  import opened Common

  const BATCH_MAX := 1000

  datatype Source = Source(id: nat, key: string)

  /** What the state file holds of the pass. */
  datatype Progress = Progress(cursor: Option<nat>, created: seq<nat>)

  datatype Phase = Stopped | Reading(done: nat) | Unsaved(done: nat) | Finished

  /**
   * `tool` and `others` are history: every id this tool, and everyone else,
   * ever made; `submitted` every source id sent.
   */
  datatype State = State(
    disk: Progress, memory: Progress, phase: Phase,
    rows: map<string, nat>, tool: set<nat>, others: set<nat>, submitted: set<nat>)

  /** `CreateRow` is a row of the plan, `Flush` an enrichment upsert that may find some addresses free. */
  datatype Event =
    | Start
    | Crash
    | Submit(inserted: map<string, nat>)
    | Save
    | Finish
    | CreateRow(id: nat)
    | Flush(buffer: seq<Source>, inserted: map<string, nat>)
    | SaveState
    | Foreign(rows: map<string, nat>)

  function IndexOf(contacts: seq<Source>, id: nat, i: nat): (at: Option<nat>)
    requires i <= |contacts|
    ensures at.Some? ==> i <= at.value < |contacts| && contacts[at.value].id == id
    ensures at.None? ==> forall j | i <= j < |contacts| :: contacts[j].id != id
    decreases |contacts| - i
  {
    if i == |contacts| then None else if contacts[i].id == id then Some(i) else IndexOf(contacts, id, i + 1)
  }

  /** How many contacts a cursor says are done; a cursor the snapshot does not hold says none. */
  function DoneOf(contacts: seq<Source>, cursor: Option<nat>): (done: nat)
    ensures done <= |contacts|
  {
    if cursor.None? then 0 else
      var at := IndexOf(contacts, cursor.value, 0);
      if at.Some? then at.value + 1 else 0
  }

  function Chunk(contacts: seq<Source>, done: nat): (slice: seq<Source>)
    requires done <= |contacts|
  {
    contacts[done..Min(|contacts|, done + BATCH_MAX)]
  }

  function Keys(slice: seq<Source>): set<string> { set c | c in slice :: c.key }

  function Ids(slice: seq<Source>): set<nat> { set c | c in slice :: c.id }

  /** The ids the target reports as created, item by item. */
  function Reported(slice: seq<Source>, inserted: map<string, nat>): (ids: seq<nat>)
    ensures forall id | id in ids :: id in inserted.Values
  {
    if slice == [] then [] else
      var n := |slice| - 1;
      Reported(slice[..n], inserted) + if slice[n].key in inserted then [inserted[slice[n].key]] else []
  }

  /** The rows a chunk inserts: under addresses of its own that were free, with ids never used before. */
  predicate Inserts(slice: seq<Source>, rows: map<string, nat>, used: set<nat>, inserted: map<string, nat>) {
    forall k | k in inserted :: k in Keys(slice) && k !in rows && inserted[k] !in used
  }

  /** The run is under way, and all it sent is noted. */
  predicate Running(s: State) { s.phase.Reading? || s.phase.Finished? }

  ghost predicate Enabled(contacts: seq<Source>, s: State, e: Event) {
    match e
    case Start => s.phase.Stopped? || s.phase.Finished?
    case Crash => true
    case Submit(inserted) =>
      s.phase.Reading? && s.phase.done < |contacts| &&
      Inserts(Chunk(contacts, s.phase.done), s.rows, s.tool + s.others, inserted)
    case Save => s.phase.Unsaved?
    case Finish => s.phase.Reading? && s.phase.done == |contacts|
    case CreateRow(id) => Running(s) && id !in s.tool + s.others
    case Flush(buffer, inserted) => Running(s) && Inserts(buffer, s.rows, s.tool + s.others, inserted)
    case SaveState => Running(s)
    case Foreign(rows) => (rows.Values - s.rows.Values) !! s.tool
  }

  function Next(contacts: seq<Source>, s: State, e: Event): State
    requires Enabled(contacts, s, e)
  {
    match e
    case Start => s.(memory := s.disk, phase := Reading(DoneOf(contacts, s.disk.cursor)))
    case Crash => s.(phase := Stopped)
    case Submit(inserted) =>
      var slice := Chunk(contacts, s.phase.done);
      s.(memory := Progress(Some(slice[|slice| - 1].id), s.memory.created + Reported(slice, inserted)),
         phase := Unsaved(s.phase.done + |slice|),
         rows := s.rows + inserted, tool := s.tool + inserted.Values, submitted := s.submitted + Ids(slice))
    case Save => s.(disk := s.memory, phase := Reading(s.phase.done))
    case Finish => s.(memory := s.memory.(cursor := None), disk := s.memory.(cursor := None), phase := Finished)
    case CreateRow(id) => s.(memory := s.memory.(created := s.memory.created + [id]), tool := s.tool + {id})
    case Flush(buffer, inserted) =>
      s.(memory := s.memory.(created := s.memory.created + Reported(buffer, inserted)),
         rows := s.rows + inserted, tool := s.tool + inserted.Values)
    case SaveState => s.(disk := s.memory)
    case Foreign(rows) => s.(rows := rows, others := s.others + (rows.Values - s.rows.Values))
  }

  ghost predicate Begins(s: State) {
    && s.disk == Progress(None, []) && s.phase.Stopped? && s.tool == {} && s.submitted == {}
    && s.others == s.rows.Values && s.memory == s.disk
  }

  ghost predicate Steps(contacts: seq<Source>, s: State, n: State) {
    exists e :: Enabled(contacts, s, e) && n == Next(contacts, s, e)
  }

  ghost predicate StepsAt(contacts: seq<Source>, states: seq<State>, i: nat)
    requires i + 1 < |states|
  {
    Steps(contacts, states[i], states[i + 1])
  }

  ghost predicate Runs(contacts: seq<Source>, states: seq<State>) {
    && |states| > 0 && Begins(states[0])
    && forall i: nat | i < |states| - 1 :: StepsAt(contacts, states, i)
  }

  // ---- What every step keeps ----

  ghost predicate Sent(contacts: seq<Source>, submitted: set<nat>, done: nat) {
    forall j | 0 <= j < done && j < |contacts| :: contacts[j].id in submitted
  }

  ghost predicate Ours(created: seq<nat>, tool: set<nat>) { forall id | id in created :: id in tool }

  ghost predicate Inv(contacts: seq<Source>, s: State) {
    && Sent(contacts, s.submitted, DoneOf(contacts, s.disk.cursor))
    && Ours(s.disk.created, s.tool) && Ours(s.memory.created, s.tool)
    && s.tool !! s.others && s.rows.Values <= s.tool + s.others
    && match s.phase
       case Stopped => true
       case Finished => Sent(contacts, s.submitted, |contacts|)
       case Reading(done) =>
         && done <= |contacts| && Sent(contacts, s.submitted, done)
         && Sent(contacts, s.submitted, DoneOf(contacts, s.memory.cursor))
       case Unsaved(done) =>
         && 0 < done <= |contacts| && Sent(contacts, s.submitted, done)
         && s.memory.cursor == Some(contacts[done - 1].id)
  }

  /** The first contact with a chunk's last id is no later than it. */
  lemma CursorCovers(contacts: seq<Source>, done: nat)
    requires 0 < done <= |contacts|
    ensures DoneOf(contacts, Some(contacts[done - 1].id)) <= done
  {
    FirstIndex(contacts, done - 1, 0);
  }

  lemma {:induction false} FirstIndex(contacts: seq<Source>, j: nat, i: nat)
    requires i <= j < |contacts|
    ensures var at := IndexOf(contacts, contacts[j].id, i); at.Some? && at.value <= j
    decreases j - i
  {
    if contacts[i].id != contacts[j].id { FirstIndex(contacts, j, i + 1); }
  }

  lemma ChunkSent(contacts: seq<Source>, submitted: set<nat>, done: nat)
    requires done <= |contacts| && Sent(contacts, submitted, done)
    ensures var slice := Chunk(contacts, done); Sent(contacts, submitted + Ids(slice), done + |slice|)
  {
    var slice := Chunk(contacts, done);
    forall j | 0 <= j < done + |slice| && j < |contacts| ensures contacts[j].id in submitted + Ids(slice) {
      if j >= done { assert slice[j - done] == contacts[j] && slice[j - done] in slice; }
    }
  }

  lemma InsertsOurs(rows: map<string, nat>, tool: set<nat>, others: set<nat>, slice: seq<Source>,
      inserted: map<string, nat>)
    requires Inserts(slice, rows, tool + others, inserted) && tool !! others && rows.Values <= tool + others
    ensures (tool + inserted.Values) !! others && (rows + inserted).Values <= tool + inserted.Values + others
  {
    forall id | id in inserted.Values ensures id !in others {
      var k :| k in inserted && inserted[k] == id;
    }
    forall id | id in (rows + inserted).Values ensures id in tool + inserted.Values + others {
      var k :| k in rows + inserted && (rows + inserted)[k] == id;
      if k !in inserted { assert rows[k] in rows.Values; }
    }
  }

  lemma SubmitKeeps(contacts: seq<Source>, s: State, inserted: map<string, nat>)
    requires Inv(contacts, s) && Enabled(contacts, s, Submit(inserted))
    ensures Inv(contacts, Next(contacts, s, Submit(inserted)))
  {
    var done := s.phase.done;
    var slice := Chunk(contacts, done);
    assert slice[|slice| - 1] == contacts[done + |slice| - 1];
    ChunkSent(contacts, s.submitted, done);
    InsertsOurs(s.rows, s.tool, s.others, slice, inserted);
  }

  lemma NextKeeps(contacts: seq<Source>, s: State, e: Event)
    requires Inv(contacts, s) && Enabled(contacts, s, e)
    ensures Inv(contacts, Next(contacts, s, e))
  {
    match e
    case Submit(inserted) => SubmitKeeps(contacts, s, inserted);
    case Save => CursorCovers(contacts, s.phase.done);
    case Foreign(rows) =>
      forall id | id in rows.Values ensures id in s.tool + s.others + (rows.Values - s.rows.Values) {}
    case Flush(buffer, inserted) => InsertsOurs(s.rows, s.tool, s.others, buffer, inserted);
    case Start =>
    case Crash =>
    case Finish =>
    case CreateRow(_) =>
    case SaveState =>
  }

  lemma {:induction false} RunKeeps(contacts: seq<Source>, states: seq<State>, i: nat)
    requires Runs(contacts, states) && i < |states|
    ensures Inv(contacts, states[i])
  {
    if i > 0 {
      RunKeeps(contacts, states, i - 1);
      assert StepsAt(contacts, states, i - 1);
      var e :| Enabled(contacts, states[i - 1], e) && states[i] == Next(contacts, states[i - 1], e);
      NextKeeps(contacts, states[i - 1], e);
    }
  }

  /** However often it was interrupted, once a run finishes every source contact has been submitted. */
  lemma EveryContactSubmitted(contacts: seq<Source>, states: seq<State>, i: nat)
    requires Runs(contacts, states) && i < |states| && states[i].phase.Finished?
    ensures forall c | c in contacts :: c.id in states[i].submitted
  {
    RunKeeps(contacts, states, i);
  }

  /**
   * At any moment the state file names only ids this tool created: no row that
   * was there before, nor one of anyone else.
   */
  lemma RollbackNamesOwnRows(contacts: seq<Source>, states: seq<State>, i: nat)
    requires Runs(contacts, states) && i < |states|
    ensures forall id | id in states[i].disk.created ::
              id in states[i].tool && id !in states[i].others && id !in states[0].rows.Values
  {
    RunKeeps(contacts, states, i);
    OthersGrow(contacts, states, i);
  }

  lemma {:induction false} OthersGrow(contacts: seq<Source>, states: seq<State>, i: nat)
    requires Runs(contacts, states) && i < |states|
    ensures states[0].others <= states[i].others
  {
    if i > 0 {
      OthersGrow(contacts, states, i - 1);
      assert StepsAt(contacts, states, i - 1);
    }
  }

  lemma {:induction false} ReportedAll(slice: seq<Source>, inserted: map<string, nat>, k: string)
    requires k in inserted && k in Keys(slice)
    ensures inserted[k] in Reported(slice, inserted)
  {
    var n := |slice| - 1;
    if slice[n].key != k {
      var c :| c in slice && c.key == k;
      assert c in slice[..n];
      ReportedAll(slice[..n], inserted, k);
    }
  }

  /** Once a chunk is saved, the state file names every row it inserted, so a rollback misses none. */
  lemma SavedNamesAll(contacts: seq<Source>, s: State, inserted: map<string, nat>)
    requires Enabled(contacts, s, Submit(inserted))
    ensures var saved := Next(contacts, Next(contacts, s, Submit(inserted)), Save);
            && (forall id | id in inserted.Values :: id in saved.disk.created)
            && (forall id | id in s.memory.created :: id in saved.disk.created)
  {
    var slice := Chunk(contacts, s.phase.done);
    forall id | id in inserted.Values ensures id in Reported(slice, inserted) {
      var k :| k in inserted && inserted[k] == id;
      ReportedAll(slice, inserted, k);
    }
  }

  /** So it does after a row of the plan or a flush, once the state is saved. */
  lemma CreatedIsNamed(contacts: seq<Source>, s: State, id: nat, buffer: seq<Source>, inserted: map<string, nat>)
    requires Running(s)
    ensures Enabled(contacts, s, CreateRow(id)) ==>
              var created := Next(contacts, Next(contacts, s, CreateRow(id)), SaveState).disk.created;
              id in created && forall x | x in s.memory.created :: x in created
    ensures Enabled(contacts, s, Flush(buffer, inserted)) ==>
              var created := Next(contacts, Next(contacts, s, Flush(buffer, inserted)), SaveState).disk.created;
              forall x | x in inserted.Values || x in s.memory.created :: x in created
  {
    if Enabled(contacts, s, Flush(buffer, inserted)) {
      forall x | x in inserted.Values ensures x in Reported(buffer, inserted) {
        var k :| k in inserted && inserted[k] == x;
        ReportedAll(buffer, inserted, k);
      }
    }
  }

  /**
   * A run stopped once its chunk is saved goes on right after that chunk: with
   * distinct ids the next run sends none of what was done again.
   */
  lemma ResumesWhereSaved(contacts: seq<Source>, s: State)
    requires Inv(contacts, s) && s.phase.Unsaved?
    requires forall i, j | 0 <= i < j < |contacts| :: contacts[i].id != contacts[j].id
    ensures var saved := Next(contacts, s, Save);
            Next(contacts, Next(contacts, saved, Crash), Start).phase == Reading(s.phase.done) == saved.phase
  {
    var done := s.phase.done;
    FirstIndex(contacts, done - 1, 0);
    assert IndexOf(contacts, contacts[done - 1].id, 0) == Some(done - 1);
  }

  /** A cursor the snapshot no longer holds starts the pass over. */
  lemma UnknownCursorStartsOver(contacts: seq<Source>, s: State)
    requires Enabled(contacts, s, Start)
    requires s.disk.cursor.None? || forall c | c in contacts :: c.id != s.disk.cursor.value
    ensures Next(contacts, s, Start).phase == Reading(0)
  {
  }

  // ---- What a run that stopped before its save leaves to the next ----

  /** The contacts from `from` up to `done` are among those sent. */
  ghost predicate SentFrom(contacts: seq<Source>, sent: set<nat>, from: nat, done: nat) {
    forall x | from <= x < done && x < |contacts| :: contacts[x].id in sent
  }

  /** Whatever a cursor or a run under way takes for done was sent again, from `from` on. */
  ghost predicate Resent(contacts: seq<Source>, s: State, sent: set<nat>, from: nat) {
    && SentFrom(contacts, sent, from, DoneOf(contacts, s.disk.cursor))
    && match s.phase
       case Stopped => true
       case Finished => SentFrom(contacts, sent, from, |contacts|)
       case Reading(done) =>
         SentFrom(contacts, sent, from, done) && SentFrom(contacts, sent, from, DoneOf(contacts, s.memory.cursor))
       case Unsaved(done) => SentFrom(contacts, sent, from, done)
  }

  /** A run goes from reading to unsaved by sending a chunk. */
  function SentBy(contacts: seq<Source>, s: State, n: State): set<nat> {
    if s.phase.Reading? && n.phase.Unsaved? && s.phase.done <= |contacts|
    then Ids(Chunk(contacts, s.phase.done)) else {}
  }

  lemma ChunkFrom(contacts: seq<Source>, sent: set<nat>, from: nat, done: nat)
    requires done <= |contacts| && SentFrom(contacts, sent, from, done)
    ensures var slice := Chunk(contacts, done); SentFrom(contacts, sent + Ids(slice), from, done + |slice|)
  {
    var slice := Chunk(contacts, done);
    forall x | from <= x < done + |slice| && x < |contacts| ensures contacts[x].id in sent + Ids(slice) {
      if x >= done { assert slice[x - done] == contacts[x] && slice[x - done] in slice; }
    }
  }

  lemma ResentKept(contacts: seq<Source>, s: State, e: Event, sent: set<nat>, from: nat)
    requires Inv(contacts, s) && Enabled(contacts, s, e) && Resent(contacts, s, sent, from)
    ensures var n := Next(contacts, s, e); Resent(contacts, n, sent + SentBy(contacts, s, n), from)
  {
    match e
    case Submit(_) => ChunkFrom(contacts, sent, from, s.phase.done);
    case Save => CursorCovers(contacts, s.phase.done);
    case _ =>
  }

  lemma ResentStep(contacts: seq<Source>, s: State, n: State, sent: set<nat>, from: nat)
    requires Inv(contacts, s) && Steps(contacts, s, n) && Resent(contacts, s, sent, from)
    ensures Resent(contacts, n, sent + SentBy(contacts, s, n), from)
  {
    var e :| Enabled(contacts, s, e) && n == Next(contacts, s, e);
    ResentKept(contacts, s, e, sent, from);
  }

  /** The ids of the chunks sent from the i-th state to the j-th. */
  ghost function SentSince(contacts: seq<Source>, states: seq<State>, i: nat, j: nat): set<nat>
    requires i <= j < |states|
  {
    if i == j then {} else SentSince(contacts, states, i, j - 1) + SentBy(contacts, states[j - 1], states[j])
  }

  lemma {:induction false} ResentAlong(contacts: seq<Source>, states: seq<State>, i: nat, j: nat, from: nat)
    requires Runs(contacts, states) && i <= j < |states| && states[i].phase.Stopped?
    requires from == DoneOf(contacts, states[i].disk.cursor)
    ensures Resent(contacts, states[j], SentSince(contacts, states, i, j), from)
  {
    if i < j {
      ResentAlong(contacts, states, i, j - 1, from);
      RunKeeps(contacts, states, j - 1);
      assert StepsAt(contacts, states, j - 1);
      ResentStep(contacts, states[j - 1], states[j], SentSince(contacts, states, i, j - 1), from);
    }
  }

  /** The state file's cursor is never ahead of the run under way. */
  ghost predicate Behind(contacts: seq<Source>, s: State) {
    s.phase.Reading? || s.phase.Unsaved? ==>
      && DoneOf(contacts, s.disk.cursor) <= s.phase.done
      && DoneOf(contacts, s.memory.cursor) <= s.phase.done
  }

  lemma BehindKept(contacts: seq<Source>, s: State, e: Event)
    requires Inv(contacts, s) && Enabled(contacts, s, e) && Behind(contacts, s)
    ensures Behind(contacts, Next(contacts, s, e))
  {
    if e.Submit? {
      var slice := Chunk(contacts, s.phase.done);
      assert slice[|slice| - 1] == contacts[s.phase.done + |slice| - 1];
      CursorCovers(contacts, s.phase.done + |slice|);
    }
  }

  lemma BehindStep(contacts: seq<Source>, s: State, n: State)
    requires Inv(contacts, s) && Steps(contacts, s, n) && Behind(contacts, s)
    ensures Behind(contacts, n)
  {
    var e :| Enabled(contacts, s, e) && n == Next(contacts, s, e);
    BehindKept(contacts, s, e);
  }

  lemma {:induction false} StaysBehind(contacts: seq<Source>, states: seq<State>, i: nat)
    requires Runs(contacts, states) && i < |states|
    ensures Behind(contacts, states[i])
  {
    if i > 0 {
      StaysBehind(contacts, states, i - 1);
      RunKeeps(contacts, states, i - 1);
      assert StepsAt(contacts, states, i - 1);
      BehindStep(contacts, states[i - 1], states[i]);
    }
  }

  lemma LostStep(contacts: seq<Source>, s: State, n: State)
    requires Steps(contacts, s, n)
    requires (s.phase.Reading? && n.phase.Unsaved?) || (s.phase.Unsaved? && (n.phase.Unsaved? || n.phase.Stopped?))
    ensures n.disk == s.disk && (s.phase.Reading? ==> s.phase.done < |contacts|)
  {
  }

  /** A chunk sent at step m and not saved up to p. */
  ghost predicate Lost(states: seq<State>, m: nat, p: nat) {
    && m + 1 < p < |states| && states[m].phase.Reading? && states[p].phase.Stopped?
    && forall x | m < x < p :: states[x].phase.Unsaved?
  }

  /** It leaves the state file as it was. */
  lemma {:induction false} LostDisk(contacts: seq<Source>, states: seq<State>, m: nat, p: nat, n: nat)
    requires Runs(contacts, states) && Lost(states, m, p) && m < n <= p
    ensures states[n].disk == states[m].disk && states[m].phase.done < |contacts|
  {
    if n > m + 1 { LostDisk(contacts, states, m, p, n - 1); }
    assert StepsAt(contacts, states, n - 1);
    LostStep(contacts, states[n - 1], states[n]);
  }

  lemma ChunkAmong(contacts: seq<Source>, sent: set<nat>, from: nat, done: nat)
    requires SentFrom(contacts, sent, from, |contacts|) && from <= done <= |contacts|
    ensures forall c | c in Chunk(contacts, done) :: c.id in sent
  {
    var slice := Chunk(contacts, done);
    forall c | c in slice ensures c.id in sent {
      var x :| 0 <= x < |slice| && slice[x] == c;
      assert contacts[done + x] == c;
    }
  }

  /**
   * A run that sent a chunk and stopped before saving it: any chain of runs
   * that finishes later has sent every contact of that chunk again.
   */
  lemma LostSaveResubmits(contacts: seq<Source>, states: seq<State>, m: nat, p: nat, j: nat)
    requires Runs(contacts, states) && Lost(states, m, p) && p <= j < |states| && states[j].phase.Finished?
    ensures states[m].phase.done < |contacts|
    ensures forall c | c in Chunk(contacts, states[m].phase.done) :: c.id in SentSince(contacts, states, p, j)
  {
    LostDisk(contacts, states, m, p, p);
    StaysBehind(contacts, states, m);
    var from := DoneOf(contacts, states[p].disk.cursor);
    ResentAlong(contacts, states, p, j, from);
    ChunkAmong(contacts, SentSince(contacts, states, p, j), from, states[m].phase.done);
  }

  // ---- What a rollback misses ----

  /** A row this tool made that neither the state file nor a run under way has on record. */
  ghost predicate Unrecorded(s: State, id: nat) {
    id in s.tool && id !in s.disk.created && (!s.phase.Stopped? ==> id !in s.memory.created)
  }

  /** The rows a run inserted and stopped before saving are such rows. */
  lemma LostChunkUnrecorded(contacts: seq<Source>, s: State, inserted: map<string, nat>, id: nat)
    requires Inv(contacts, s) && Enabled(contacts, s, Submit(inserted)) && id in inserted.Values
    ensures Unrecorded(Next(contacts, Next(contacts, s, Submit(inserted)), Crash), id)
  {
    var k :| k in inserted && inserted[k] == id;
    assert id !in s.tool;
  }

  lemma UnrecordedStays(contacts: seq<Source>, s: State, e: Event, id: nat)
    requires Inv(contacts, s) && Enabled(contacts, s, e) && Unrecorded(s, id)
    ensures Unrecorded(Next(contacts, s, e), id)
  {
    if e.Submit? || e.Flush? {
      forall k | k in e.inserted ensures e.inserted[k] != id { assert e.inserted[k] !in s.tool; }
    }
  }

  /**
   * No later state file ever names it: the chunk sent again finds its address
   * taken, so a rollback misses every row of a write whose save was
   * lost.
   */
  lemma {:induction false} NeverNamed(contacts: seq<Source>, states: seq<State>, i: nat, j: nat, id: nat)
    requires Runs(contacts, states) && i <= j < |states| && Unrecorded(states[i], id)
    ensures Unrecorded(states[j], id)
  {
    if i < j {
      NeverNamed(contacts, states, i, j - 1, id);
      RunKeeps(contacts, states, j - 1);
      assert StepsAt(contacts, states, j - 1);
      var e :| Enabled(contacts, states[j - 1], e) && states[j] == Next(contacts, states[j - 1], e);
      UnrecordedStays(contacts, states[j - 1], e, id);
    }
  }

  // ---- The pass itself ----

  class Import {
    const contacts: seq<Source>
    var disk: Progress
    var memory: Progress
    var phase: Phase
    var rows: map<string, nat>
    var tool: set<nat>
    var others: set<nat>
    ghost var submitted: set<nat>

    ghost function View(): State
      reads this
    {
      State(disk, memory, phase, rows, tool, others, submitted)
    }

    constructor (contacts: seq<Source>, rows: map<string, nat>)
      ensures this.contacts == contacts && this.rows == rows && Begins(View())
    {
      this.contacts := contacts;
      disk, memory := Progress(None, []), Progress(None, []);
      phase := Stopped;
      this.rows, tool, others := rows, {}, rows.Values;
      submitted := {};
    }

    /** The target's answer to a chunk: it inserts some of the free addresses, under new ids. */
    method BatchContacts(slice: seq<Source>) returns (inserted: map<string, nat>)
      modifies this`rows, this`tool, this`submitted
      ensures Inserts(slice, old(rows), old(tool) + others, inserted)
      ensures rows == old(rows) + inserted && tool == old(tool) + inserted.Values
      ensures submitted == old(submitted) + Ids(slice)
    {
      inserted := *;
      if !Inserts(slice, rows, tool + others, inserted) { inserted := map[]; }
      rows, tool := rows + inserted, tool + inserted.Values;
      submitted := submitted + Ids(slice);
    }

    method Begin()
      requires phase.Stopped? || phase.Finished?
      modifies this`memory, this`phase
      ensures View() == Next(contacts, old(View()), Start)
    {
      memory := disk;
      var done := 0;
      if disk.cursor.Some? {
        while done < |contacts| && contacts[done].id != disk.cursor.value
          invariant done <= |contacts|
          invariant IndexOf(contacts, disk.cursor.value, done) == IndexOf(contacts, disk.cursor.value, 0)
        {
          done := done + 1;
        }
        done := if done < |contacts| then done + 1 else 0;
      }
      phase := Reading(done);
    }

    method SubmitChunk()
      requires phase.Reading? && phase.done < |contacts|
      modifies this
      ensures Steps(contacts, old(View()), View()) && View().phase.Unsaved? && disk == old(disk)
      ensures phase.done == Min(|contacts|, old(phase.done) + BATCH_MAX)
    {
      var slice := Chunk(contacts, phase.done);
      ghost var was := View();
      var inserted := BatchContacts(slice);
      memory := Progress(Some(slice[|slice| - 1].id), memory.created + Reported(slice, inserted));
      phase := Unsaved(phase.done + |slice|);
      assert Enabled(contacts, was, Submit(inserted)) && View() == Next(contacts, was, Submit(inserted));
    }

    method SaveState()
      requires phase.Unsaved?
      modifies this`disk, this`phase
      ensures View() == Next(contacts, old(View()), Save)
    {
      disk := memory;
      phase := Reading(phase.done);
    }

    /** The whole pass from where the state file left it, stopped after some number of chunks or run to the end. */
    method ContactsPass(stopAfter: Option<nat>) returns (completed: bool)
      requires Inv(contacts, View()) && (phase.Stopped? || phase.Finished?)
      modifies this
      ensures Inv(contacts, View()) && (completed <==> phase.Finished?)
      ensures stopAfter.None? ==> completed
      ensures completed ==> disk.cursor.None? && forall c | c in contacts :: c.id in submitted
    {
      NextKeeps(contacts, View(), Start);
      Begin();
      var sent := 0;
      while phase.done < |contacts|
        invariant Inv(contacts, View()) && phase.Reading?
        decreases |contacts| - phase.done
      {
        if stopAfter == Some(sent) {
          phase := Stopped;
          return false;
        }
        ghost var was := View();
        SubmitChunk();
        StepKeeps(contacts, was, View());
        sent := sent + 1;
        NextKeeps(contacts, View(), Save);
        SaveState();
      }
      NextKeeps(contacts, View(), Finish);
      memory := memory.(cursor := None);
      disk := memory;
      phase := Finished;
      return true;
    }
  }

  lemma StepKeeps(contacts: seq<Source>, s: State, n: State)
    requires Inv(contacts, s) && Steps(contacts, s, n)
    ensures Inv(contacts, n)
  {
    var e :| Enabled(contacts, s, e) && n == Next(contacts, s, e);
    NextKeeps(contacts, s, e);
  }
}
