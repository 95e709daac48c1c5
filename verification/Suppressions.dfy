/**
 * The suppressions pass (packages/cli/src/apply.ts) over a chain of runs:
 * each begins by listing what is on the target, others change the list at any
 * time, and a run may stop between an add and its record.
 */
module Suppressions {
  import opened Common

  /**
   * The target's list by address, the ids a running pass knows to be there,
   * the ids the state file records as created, the ids this tool made, and
   * every id the target ever gave out.
   */
  datatype State = State(
    list: map<string, nat>, running: bool, existing: set<nat>, created: seq<nat>, tool: set<nat>, used: set<nat>)

  /** `LostAdd` reaches the target, and the run stops before it is recorded. */
  datatype Event =
    | Begin
    | Foreign(list: map<string, nat>)
    | Add(slice: seq<string>, minted: map<string, nat>)
    | LostAdd(slice: seq<string>, minted: map<string, nat>)
    | Crash

  /** The ids the target answers an add with, one per address, already listed or new. */
  function Answer(list: map<string, nat>, slice: seq<string>): (ids: seq<nat>)
    requires forall a | a in slice :: a in list
  {
    seq(|slice|, i requires 0 <= i < |slice| => list[slice[i]])
  }

  /** The ids recorded: those not known to be there, each once. */
  function Recorded(existing: set<nat>, ids: seq<nat>): (r: seq<nat>)
  {
    if ids == [] then [] else
      var front, id := Recorded(existing, ids[..|ids| - 1]), ids[|ids| - 1];
      if id in existing || id in front then front else front + [id]
  }

  function IdSet(ids: seq<nat>): set<nat> { set id | id in ids }

  /** An add lists the addresses that were free, under ids never given out. */
  ghost predicate Lists(s: State, slice: seq<string>, minted: map<string, nat>) {
    && s.running
    && (forall a | a in slice :: a in s.list || a in minted)
    && (forall a | a in minted :: a in slice && a !in s.list && minted[a] !in s.used)
  }

  ghost predicate Enabled(s: State, e: Event) {
    match e
    case Begin => true
    case Foreign(list) => forall id | id in list.Values :: id in s.list.Values || id !in s.used
    case Add(slice, minted) => Lists(s, slice, minted)
    case LostAdd(slice, minted) => Lists(s, slice, minted)
    case Crash => true
  }

  function Next(s: State, e: Event): State
    requires Enabled(s, e)
  {
    match e
    case Begin => s.(running := true, existing := s.list.Values)
    case Foreign(list) => s.(list := list, used := s.used + list.Values)
    case Add(slice, minted) =>
      var list := s.list + minted;
      var ids := Answer(list, slice);
      s.(list := list, existing := s.existing + IdSet(ids), created := s.created + Recorded(s.existing, ids),
         tool := s.tool + minted.Values, used := s.used + minted.Values)
    case LostAdd(_, minted) =>
      s.(list := s.list + minted, running := false, tool := s.tool + minted.Values, used := s.used + minted.Values)
    case Crash => s.(running := false)
  }

  lemma {:induction false} RecordedAre(existing: set<nat>, ids: seq<nat>)
    ensures forall id :: id in Recorded(existing, ids) <==> id in ids && id !in existing
  {
    if ids != [] {
      var n := |ids| - 1;
      RecordedAre(existing, ids[..n]);
      assert ids == ids[..n] + [ids[n]];
    }
  }

  ghost predicate Distinct(ids: seq<nat>) { forall i, j | 0 <= i < j < |ids| :: ids[i] != ids[j] }

  lemma DistinctOn(ids: seq<nat>, id: nat)
    requires Distinct(ids) && id !in ids
    ensures Distinct(ids + [id])
  {
  }

  /** No id is recorded twice. */
  lemma {:induction false} RecordedOnce(existing: set<nat>, ids: seq<nat>)
    ensures Distinct(Recorded(existing, ids))
  {
    if ids != [] {
      var front, id := Recorded(existing, ids[..|ids| - 1]), ids[|ids| - 1];
      RecordedOnce(existing, ids[..|ids| - 1]);
      if id !in front { DistinctOn(front, id); }
    }
  }

  /** Every address already listed is one the pass knew of. */
  ghost predicate Knew(s: State, slice: seq<string>) { forall a | a in slice && a in s.list :: s.list[a] in s.existing }

  lemma AnswerAre(list: map<string, nat>, slice: seq<string>)
    requires forall a | a in slice :: a in list
    ensures forall a | a in slice :: list[a] in Answer(list, slice)
    ensures forall id | id in Answer(list, slice) :: exists a | a in slice :: list[a] == id
  {
    var ids := Answer(list, slice);
    forall a | a in slice ensures list[a] in ids {
      var i :| 0 <= i < |slice| && slice[i] == a;
      assert ids[i] == list[a];
    }
    forall id | id in ids ensures exists a | a in slice :: list[a] == id {
      var i :| 0 <= i < |ids| && ids[i] == id;
      assert list[slice[i]] == id && slice[i] in slice;
    }
  }

  /**
   * An add records only ids it made exactly when the pass knew of every
   * address already listed; one that others listed since is recorded as if
   * this tool had created it.
   */
  lemma RecordsOwnIff(s: State, slice: seq<string>, minted: map<string, nat>)
    requires Lists(s, slice, minted) && s.list.Values <= s.used
    ensures (forall id | id in Recorded(s.existing, Answer(s.list + minted, slice)) :: id in minted.Values)
            <==> Knew(s, slice)
  {
    var list := s.list + minted;
    AnswerAre(list, slice);
    RecordedAre(s.existing, Answer(list, slice));
    forall a | a in slice && a in s.list ensures list[a] == s.list[a] && list[a] !in minted.Values {
      assert s.list[a] in s.list.Values;
      forall b | b in minted ensures minted[b] != s.list[a] {}
    }
  }

  // ---- Over a chain of runs ----

  /**
   * What every step keeps: no id is given out twice, a running pass knows of
   * every id on the list that this tool made or that is among the `first`,
   * and none of those is recorded.
   */
  ghost predicate Inv(s: State, first: set<nat>) {
    && s.list.Values <= s.used && s.tool <= s.used && first <= s.used && IdSet(s.created) <= s.used
    && first !! s.tool && first !! IdSet(s.created)
    && (s.running ==> s.list.Values * (first + s.tool) <= s.existing)
  }

  lemma ForeignKeeps(s: State, list: map<string, nat>, first: set<nat>)
    requires Inv(s, first) && Enabled(s, Foreign(list))
    ensures Inv(Next(s, Foreign(list)), first)
  {
  }

  /** The list after an add. */
  lemma AddedList(s: State, slice: seq<string>, minted: map<string, nat>)
    requires Lists(s, slice, minted)
    ensures (s.list + minted).Values <= s.list.Values + minted.Values
    ensures minted.Values !! s.used
    ensures forall id | id in Answer(s.list + minted, slice) :: id in s.list.Values + minted.Values
    ensures forall id | id in minted.Values :: id in Answer(s.list + minted, slice)
  {
    var list := s.list + minted;
    AnswerAre(list, slice);
    forall id | id in list.Values ensures id in s.list.Values + minted.Values {
      var a :| a in list && list[a] == id;
      if a !in minted { assert s.list[a] in s.list.Values; }
    }
    forall id | id in minted.Values ensures id !in s.used && id in Answer(list, slice) {
      var a :| a in minted && minted[a] == id;
      assert list[a] == id;
    }
    forall id | id in Answer(list, slice) ensures id in s.list.Values + minted.Values {
      var a :| a in slice && list[a] == id;
      assert list[a] in list.Values;
    }
  }

  lemma AddKeeps(s: State, slice: seq<string>, minted: map<string, nat>, first: set<nat>)
    requires Inv(s, first) && Lists(s, slice, minted)
    ensures Inv(Next(s, Add(slice, minted)), first)
  {
    var n := Next(s, Add(slice, minted));
    var ids := Answer(s.list + minted, slice);
    AddedList(s, slice, minted);
    RecordedAre(s.existing, ids);
    assert IdSet(n.created) == IdSet(s.created) + IdSet(Recorded(s.existing, ids));
  }

  lemma NextKeeps(s: State, e: Event, first: set<nat>)
    requires Inv(s, first) && Enabled(s, e)
    ensures Inv(Next(s, e), first)
  {
    match e
    case Begin =>
    case Foreign(list) => ForeignKeeps(s, list, first);
    case Add(slice, minted) => AddKeeps(s, slice, minted, first);
    case LostAdd(slice, minted) => AddedList(s, slice, minted);
    case Crash =>
  }

  ghost predicate Runs(s: State, events: seq<Event>)
    decreases |events|, 0
  {
    events == [] || var n := |events| - 1; Runs(s, events[..n]) && Enabled(Run(s, events[..n]), events[n])
  }

  ghost function Run(s: State, events: seq<Event>): State
    requires Runs(s, events)
    decreases |events|, 1
  {
    if events == [] then s else Next(Run(s, events[..|events| - 1]), events[|events| - 1])
  }

  /** The first run begins with nothing made or recorded. */
  ghost predicate Begins(s: State) {
    s.created == [] && s.tool == {} && !s.running && s.list.Values <= s.used
  }

  lemma {:induction false} RunKeeps(s: State, events: seq<Event>)
    requires Begins(s) && Runs(s, events)
    ensures Inv(Run(s, events), s.list.Values)
  {
    if events != [] {
      var n := |events| - 1;
      RunKeeps(s, events[..n]);
      NextKeeps(Run(s, events[..n]), events[n], s.list.Values);
    }
  }

  /**
   * Over any chain of runs, interrupted anywhere and with the list changed by
   * others at any time, nothing that was listed when the chain began is ever
   * recorded, so a rollback never removes it.
   */
  lemma NothingThereBeforeRecorded(s: State, events: seq<Event>)
    requires Begins(s) && Runs(s, events)
    ensures forall id | id in Run(s, events).created :: id !in s.list.Values
  {
    RunKeeps(s, events);
    forall id | id in Run(s, events).created ensures id !in s.list.Values {
      assert id in IdSet(Run(s, events).created);
    }
  }

  ghost predicate Ours(s: State) { forall id | id in s.created :: id in s.tool }

  /** A step keeps the record to this tool's own ids exactly when it was so before and an add knew of its addresses. */
  lemma OursStep(s: State, e: Event, first: set<nat>)
    requires Inv(s, first) && Enabled(s, e)
    ensures Ours(Next(s, e)) <==> Ours(s) && (e.Add? ==> Knew(s, e.slice))
  {
    var n := Next(s, e);
    if e.Add? {
      RecordsOwnIff(s, e.slice, e.minted);
      AddOurs(s, e.slice, e.minted, first);
    } else if e.LostAdd? {
      AddedList(s, e.slice, e.minted);
      forall id | id in s.created ensures id in n.tool <==> id in s.tool { assert id in IdSet(s.created); }
    }
  }

  lemma AddOurs(s: State, slice: seq<string>, minted: map<string, nat>, first: set<nat>)
    requires Inv(s, first) && Lists(s, slice, minted)
    ensures var recorded := Recorded(s.existing, Answer(s.list + minted, slice));
            Ours(Next(s, Add(slice, minted))) <==> Ours(s) && forall id | id in recorded :: id in minted.Values
  {
    var n := Next(s, Add(slice, minted));
    var ids := Answer(s.list + minted, slice);
    var recorded := Recorded(s.existing, ids);
    AddedList(s, slice, minted);
    RecordedAre(s.existing, ids);
    forall id | id in s.created ensures id in n.tool <==> id in s.tool { assert id in IdSet(s.created); }
    forall id | id in recorded ensures id in n.tool <==> id in minted.Values {
      assert id in ids && id !in s.existing && (id in s.list.Values || id in minted.Values);
    }
    assert forall id :: id in n.created <==> id in s.created || id in recorded;
  }

  ghost predicate EveryAddKnew(s: State, events: seq<Event>)
    requires Runs(s, events)
  {
    events == [] ||
      var n := |events| - 1;
      EveryAddKnew(s, events[..n]) && (events[n].Add? ==> Knew(Run(s, events[..n]), events[n].slice))
  }

  /**
   * Over the same chains, what is recorded is this tool's own if and only if
   * every recorded add knew of all its addresses that were already listed.
   */
  lemma {:induction false} RecordsOwnOverRunsIff(s: State, events: seq<Event>)
    requires Begins(s) && Runs(s, events)
    ensures Ours(Run(s, events)) <==> EveryAddKnew(s, events)
  {
    if events != [] {
      var n := |events| - 1;
      RecordsOwnOverRunsIff(s, events[..n]);
      RunKeeps(s, events[..n]);
      OursStep(Run(s, events[..n]), events[n], s.list.Values);
    }
  }

  /** Others change the list only between runs. */
  ghost predicate Undisturbed(s: State, events: seq<Event>)
    requires Runs(s, events)
  {
    events == [] ||
      var n := |events| - 1;
      Undisturbed(s, events[..n]) && (events[n].Foreign? ==> !Run(s, events[..n]).running)
  }

  lemma {:induction false} KnowsAll(s: State, events: seq<Event>)
    requires Begins(s) && Runs(s, events) && Undisturbed(s, events)
    ensures var now := Run(s, events);
            EveryAddKnew(s, events) && (now.running ==> now.list.Values <= now.existing)
  {
    if events != [] {
      var n := |events| - 1;
      KnowsAll(s, events[..n]);
      if events[n].Add? { AddedList(Run(s, events[..n]), events[n].slice, events[n].minted); }
    }
  }

  /** So passes no one else adds during record only ids this tool made. */
  lemma UndisturbedPass(s: State, events: seq<Event>)
    requires Begins(s) && Runs(s, events) && Undisturbed(s, events)
    ensures Ours(Run(s, events))
  {
    KnowsAll(s, events);
    RecordsOwnOverRunsIff(s, events);
  }

  /** Someone else lists an address between the listing and the add: its id is recorded as created by this tool. */
  lemma ForeignRecorded(s: State, address: string, id: nat)
    requires address !in s.list && id !in s.used && s.list.Values <= s.used && s.tool <= s.used
    ensures var other := Next(Next(s, Begin), Foreign(s.list[address := id]));
            && Enabled(Next(s, Begin), Foreign(s.list[address := id])) && Enabled(other, Add([address], map[]))
            && id in Next(other, Add([address], map[])).created && id !in Next(other, Add([address], map[])).tool
  {
    var list := s.list[address := id];
    forall x | x in list.Values ensures x in s.list.Values || x !in s.used {
      var a :| a in list && list[a] == x;
      if a != address { assert s.list[a] in s.list.Values; }
    }
    assert list + map[] == list;
    var ids := Answer(list, [address]);
    assert ids == [id];
    RecordedAre(s.list.Values, ids);
  }

  lemma RecordedNext(existing: set<nat>, ids: seq<nat>, n: nat)
    requires n < |ids|
    ensures IdSet(ids[..n + 1]) == IdSet(ids[..n]) + {ids[n]}
    ensures Recorded(existing, ids[..n + 1]) ==
            if ids[n] in existing + IdSet(ids[..n]) then Recorded(existing, ids[..n])
            else Recorded(existing, ids[..n]) + [ids[n]]
  {
    RecordedAre(existing, ids[..n]);
    assert ids[..n + 1] == ids[..n] + [ids[n]] && ids[..n + 1][..n] == ids[..n];
  }

  /** The loop over one answer: what was known is left, the rest is recorded and known from then on. */
  method RecordAnswer(existing: set<nat>, created: seq<nat>, ids: seq<nat>) returns (known: set<nat>, record: seq<nat>)
    ensures known == existing + IdSet(ids)
    ensures record == created + Recorded(existing, ids)
  {
    known, record := existing, created;
    for n := 0 to |ids|
      invariant known == existing + IdSet(ids[..n])
      invariant record == created + Recorded(existing, ids[..n])
    {
      RecordedNext(existing, ids, n);
      if ids[n] !in known {
        known, record := known + {ids[n]}, record + [ids[n]];
      }
    }
    assert ids[..|ids|] == ids;
  }
}
