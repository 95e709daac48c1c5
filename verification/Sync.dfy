/**
 * Contacts over repeated migration runs (packages/cli/src/apply.ts): the
 * contacts pass and the enrichment passes of each run, with anyone else
 * changing the target in between. Once a first enrichment is complete, no
 * later run undoes an opt-out of a contact it did not create.
 */
module Sync {
  import opened Common
  import opened Contacts

  /** A contact read from the source; its choices are by source topic. */
  datatype Source = Source(
    email: string, key: string, firstName: Option<string>, lastName: Option<string>, unsubscribed: bool,
    properties: map<string, string>, topics: seq<Choice>)

  datatype Status = Created | Updated | Skipped | Failed

  datatype Facet = TopicsFacet | PropertiesFacet

  /** The topics and properties this run found or made on the target. */
  datatype Maps = Maps(propertyKeys: set<string>, topicBySource: map<nat, nat>)

  // ---- The items a run sends ----

  /** The choices on migrated topics: all of them, or the opt-outs only. */
  function Mapped(topics: seq<Choice>, bySource: map<nat, nat>, full: bool): seq<Choice> {
    if topics == [] then [] else
      var front, t := Mapped(topics[..|topics| - 1], bySource, full), topics[|topics| - 1];
      if t.topic !in bySource || (!full && t.subscribed) then front
      else front + [Choice(bySource[t.topic], t.subscribed)]
  }

  function EnrichmentItem(c: Source, full: bool, maps: Maps, facet: Facet): Item {
    Item(c.email, c.key, None, None, None,
         if facet.PropertiesFacet? then map p | p in c.properties && p in maps.propertyKeys :: c.properties[p]
             else map[],
         [],
         if facet.TopicsFacet? then Mapped(c.topics, maps.topicBySource, full) else [])
  }

  predicate Sendable(item: Item) { item.properties != map[] || item.topics != [] }

  /** The item of the contacts pass. */
  function ContactItem(c: Source, segments: seq<nat>): Item {
    Item(c.email, c.key, c.firstName, c.lastName, Some(c.unsubscribed), map[], segments, [])
  }

  function StatusOf(pass1: map<string, Status>, k: string): Option<Status> {
    if k in pass1 then Some(pass1[k]) else None
  }

  /** The item of an enrichment pass, for a contact it does not leave alone. */
  function EnrichedItem(c: Source, pass1: map<string, Status>, synced: bool, maps: Maps, facet: Facet): Item {
    var status := StatusOf(pass1, c.key);
    var item := EnrichmentItem(c, status == Some(Created) || !synced, maps, facet);
    if status.None? then item.(unsubscribed := Some(c.unsubscribed), firstName := c.firstName, lastName := c.lastName)
        else item
  }

  predicate LeftAlone(pass1: map<string, Status>, k: string) {
    StatusOf(pass1, k) == Some(Failed) || StatusOf(pass1, k) == Some(Skipped)
  }

  function ToSend(buffer: seq<Source>, pass1: map<string, Status>, synced: bool, maps: Maps, facet: Facet): seq<Item> {
    if buffer == [] then [] else
      var front, c := ToSend(buffer[..|buffer| - 1], pass1, synced, maps, facet), buffer[|buffer| - 1];
      var item := EnrichedItem(c, pass1, synced, maps, facet);
      if LeftAlone(pass1, c.key) || !Sendable(item) then front else front + [item]
  }

  function ContactItems(slice: seq<Source>, segments: string -> seq<nat>): seq<Item> {
    seq(|slice|, i requires 0 <= i < |slice| => ContactItem(slice[i], segments(slice[i].key)))
  }

  /** The items the target takes: any of them may be refused. */
  function Taken(items: seq<Item>, refused: nat -> bool): seq<Item> {
    if items == [] then [] else
      var n := |items| - 1;
      Taken(items[..n], refused) + if refused(n) then [] else [items[n]]
  }

  predicate Repeats(items: seq<Item>, refused: nat -> bool, n: nat)
    requires n < |items|
  {
    exists i: nat | i < n :: items[i].key == items[n].key && !refused(i)
  }

  /** The target's answer for an item it takes: a repeated address is skipped, or an error, unless it is merged. */
  function Answered(store: Store, items: seq<Item>, mode: Mode, refused: nat -> bool, n: nat): Status
    requires n < |items|
  {
    var stored := items[n].key in store;
    match mode
    case Upsert => if stored then Updated else Created
    case Skip => if stored || Repeats(items, refused, n) then Skipped else Created
    case Error => if stored || Repeats(items, refused, n) then Failed else Created
  }

  predicate Errs(store: Store, items: seq<Item>, mode: Mode, refused: nat -> bool, n: nat)
    requires n < |items|
  {
    refused(n) || Answered(store, items, mode, refused, n) == Failed
  }

  /** The answers of the items written, in order: the last for an address counts. */
  function NotedData(
    pass1: map<string, Status>, store: Store, items: seq<Item>, mode: Mode, refused: nat -> bool, n: nat)
    : map<string, Status>
    requires n <= |items|
  {
    if n == 0 then pass1 else
      var before := NotedData(pass1, store, items, mode, refused, n - 1);
      if Errs(store, items, mode, refused, n - 1) then before
      else before[items[n - 1].key := Answered(store, items, mode, refused, n - 1)]
  }

  /** The errors come after the data, so an address with one counts as failed. */
  function Noted(pass1: map<string, Status>, store: Store, items: seq<Item>, mode: Mode, refused: nat -> bool, n: nat)
    : map<string, Status>
    requires n <= |items|
  {
    if n == 0 then NotedData(pass1, store, items, mode, refused, |items|) else
      var before := Noted(pass1, store, items, mode, refused, n - 1);
      if Errs(store, items, mode, refused, n - 1) then before[items[n - 1].key := Failed] else before
  }

  // ---- Runs ----

  /** `born` and `bornIds` are history: the addresses this run has inserted, and the ids they got. */
  datatype State = State(
    store: Store, completed: bool, synced: bool, pass1: map<string, Status>, born: set<string>, bornIds: set<nat>)

  datatype Event =
    | Foreign(store: Store)
    | Begin
    | ContactsChunk(slice: seq<Source>, segments: string -> seq<nat>, mode: Mode, refused: nat -> bool, mint: Mint)
    | Flush(buffer: seq<Source>, maps: Maps, facet: Facet, refused: nat -> bool, mint: Mint)
    | EnrichmentCompleted

  function Inserted(store: Store, after: Store): set<string> { after.Keys - store.Keys }

  function IdsOf(store: Store, keys: set<string>): set<nat> { set k | k in keys && k in store :: store[k].id }

  /** A write of the run, and what it inserted. */
  function Wrote(s: State, after: Store): State {
    var inserted := Inserted(s.store, after);
    s.(store := after, born := s.born + inserted, bornIds := s.bornIds + IdsOf(after, inserted))
  }

  function Next(s: State, e: Event): State {
    match e
    case Foreign(store) => s.(store := store)
    case Begin => s.(synced := s.completed, pass1 := map[], born := {}, bornIds := {})
    case ContactsChunk(slice, segments, mode, refused, mint) =>
      var items := ContactItems(slice, segments);
      Wrote(s, Batch(s.store, Taken(items, refused), mode, mint)).(
        pass1 := Noted(s.pass1, s.store, items, mode, refused, |items|))
    case Flush(buffer, maps, facet, refused, mint) =>
      Wrote(s, Batch(s.store, Taken(ToSend(buffer, s.pass1, s.synced, maps, facet), refused), Upsert, mint))
    case EnrichmentCompleted => s.(completed := true)
  }

  function Run(s: State, events: seq<Event>): State {
    if events == [] then s else Next(Run(s, events[..|events| - 1]), events[|events| - 1])
  }

  /** An enrichment was completed before the run began, and what the run noted as created it inserted. */
  ghost predicate Synced(s: State) {
    s.completed && s.synced && forall k | k in s.pass1 && s.pass1[k] == Created :: k in s.born
  }

  lemma {:induction false} TakenAre(items: seq<Item>, refused: nat -> bool)
    ensures forall x | x in Taken(items, refused) :: x in items
    ensures forall i: nat | i < |items| && !refused(i) :: items[i] in Taken(items, refused)
  {
    if items != [] {
      var n := |items| - 1;
      TakenAre(items[..n], refused);
      forall i: nat | i < |items| && !refused(i) ensures items[i] in Taken(items, refused) {
        if i < n { assert items[..n][i] == items[i]; }
      }
    }
  }

  lemma RowStays(items: seq<Item>, mode: Mode, k: string)
    requires items != []
    ensures items[|items| - 1].key == k || RowOf(items[..|items| - 1], mode, k).Some? ==> RowOf(items, mode, k).Some?
  {
    RowOfSnoc(items, mode, k);
  }

  lemma {:induction false} HasRow(items: seq<Item>, mode: Mode, i: nat, k: string)
    requires i < |items| && items[i].key == k
    ensures RowOf(items, mode, k).Some?
  {
    RowStays(items, mode, k);
    if i < |items| - 1 { HasRow(items[..|items| - 1], mode, i, k); }
  }

  /** An address some item is taken for has a contact afterwards. */
  lemma TakenIsStored(store: Store, items: seq<Item>, mode: Mode, mint: Mint, i: nat)
    requires i < |items|
    ensures items[i].key in Batch(store, items, mode, mint)
  {
    HasRow(items, mode, i, items[i].key);
    BatchLeaves(store, items, mode, mint, items[i].key);
    assert Get(Batch(store, items, mode, mint), items[i].key).Some?;
  }

  lemma {:induction false} NotedDataCreated(
    pass1: map<string, Status>, store: Store, items: seq<Item>, mode: Mode, refused: nat -> bool, n: nat, k: string)
    requires n <= |items|
    requires var noted := NotedData(pass1, store, items, mode, refused, n); k in noted && noted[k] == Created
    ensures (k in pass1 && pass1[k] == Created) ||
            (k !in store && exists i: nat | i < |items| :: items[i].key == k && !refused(i))
  {
    if n > 0 && (items[n - 1].key != k || Errs(store, items, mode, refused, n - 1)) {
      NotedDataCreated(pass1, store, items, mode, refused, n - 1, k);
    }
  }

  lemma {:induction false} NotedCreated(
    pass1: map<string, Status>, store: Store, items: seq<Item>, mode: Mode, refused: nat -> bool, n: nat, k: string)
    requires n <= |items|
    requires var noted := Noted(pass1, store, items, mode, refused, n); k in noted && noted[k] == Created
    ensures (k in pass1 && pass1[k] == Created) ||
            (k !in store && exists i: nat | i < |items| :: items[i].key == k && !refused(i))
  {
    if n > 0 {
      NotedCreated(pass1, store, items, mode, refused, n - 1, k);
    } else {
      NotedDataCreated(pass1, store, items, mode, refused, |items|, k);
    }
  }

  /** What a run noted as created, it inserted. */
  lemma ChunkNotes(s: State, slice: seq<Source>, segments: string -> seq<nat>, mode: Mode, refused: nat -> bool,
      mint: Mint)
    requires Synced(s)
    ensures Synced(Next(s, ContactsChunk(slice, segments, mode, refused, mint)))
  {
    var n := Next(s, ContactsChunk(slice, segments, mode, refused, mint));
    var items := ContactItems(slice, segments);
    forall k | k in n.pass1 && n.pass1[k] == Created ensures k in n.born {
      NotedCreated(s.pass1, s.store, items, mode, refused, |items|, k);
      if k !in s.store && exists i: nat | i < |items| :: items[i].key == k && !refused(i) {
        var i: nat :| i < |items| && items[i].key == k && !refused(i);
        var taken := Taken(items, refused);
        TakenAre(items, refused);
        var t: nat :| t < |taken| && taken[t] == items[i];
        TakenIsStored(s.store, taken, mode, mint, t);
      }
    }
  }

  lemma SyncedKept(s: State, e: Event)
    requires Synced(s)
    ensures Synced(Next(s, e))
  {
    if e.ContactsChunk? { ChunkNotes(s, e.slice, e.segments, e.mode, e.refused, e.mint); }
  }

  // ---- Opt-outs ----

  /** The contact stays the same one, stays out, and keeps each opt-out. */
  ghost predicate KeptAt(store: Store, after: Store, k: string)
    requires k in store
  {
    && k in after && after[k].id == store[k].id
    && (store[k].unsubscribed ==> after[k].unsubscribed)
    && forall t | t in store[k].topics && !store[k].topics[t] :: t in after[k].topics && !after[k].topics[t]
  }

  /** So it is under every address the run has not inserted. */
  ghost predicate OptOutsKept(s: State, n: State) {
    forall k | k in s.store && k !in s.born :: KeptAt(s.store, n.store, k)
  }

  ghost predicate OnlyOptsOut(item: Item) { forall c | c in item.topics :: !c.subscribed }

  lemma {:induction false} MappedOptsOut(topics: seq<Choice>, bySource: map<nat, nat>)
    ensures forall c | c in Mapped(topics, bySource, false) :: !c.subscribed
  {
    if topics != [] { MappedOptsOut(topics[..|topics| - 1], bySource); }
  }

  lemma {:induction false} ToSendOptsOut(buffer: seq<Source>, pass1: map<string, Status>, maps: Maps, facet: Facet,
      k: string)
    requires StatusOf(pass1, k) != Some(Created)
    ensures forall x | x in ToSend(buffer, pass1, true, maps, facet) && x.key == k :: OnlyOptsOut(x)
  {
    if buffer != [] {
      ToSendOptsOut(buffer[..|buffer| - 1], pass1, maps, facet, k);
      MappedOptsOut(buffer[|buffer| - 1].topics, maps.topicBySource);
    }
  }

  lemma BatchKeepsOptOuts(store: Store, items: seq<Item>, refused: nat -> bool, mode: Mode, mint: Mint, k: string)
    requires k in store && forall x | x in items && x.key == k :: OnlyOptsOut(x)
    ensures KeptAt(store, Batch(store, Taken(items, refused), mode, mint), k)
  {
    var taken := Taken(items, refused);
    TakenAre(items, refused);
    forall i | 0 <= i < |taken| && taken[i].key == k ensures forall c | c in taken[i].topics :: !c.subscribed {
      assert taken[i] in items && OnlyOptsOut(taken[i]);
    }
    NeverSubscribesAgain(store, taken, mode, mint, k);
    UpsertKeepsOptOuts(store, taken, mode, mint, k);
  }

  lemma ChoosesNothing(c: Source, segments: seq<nat>)
    ensures OnlyOptsOut(ContactItem(c, segments))
  {
  }

  lemma ChunkKeeps(s: State, slice: seq<Source>, segments: string -> seq<nat>, mode: Mode, refused: nat -> bool,
      mint: Mint, k: string)
    requires k in s.store
    ensures KeptAt(s.store, Next(s, ContactsChunk(slice, segments, mode, refused, mint)).store, k)
  {
    var items := ContactItems(slice, segments);
    forall x | x in items ensures OnlyOptsOut(x) {
      var i :| 0 <= i < |items| && items[i] == x;
      ChoosesNothing(slice[i], segments(slice[i].key));
    }
    BatchKeepsOptOuts(s.store, items, refused, mode, mint, k);
  }

  lemma FlushKeeps(s: State, buffer: seq<Source>, maps: Maps, facet: Facet, refused: nat -> bool, mint: Mint, k: string)
    requires k in s.store && s.synced && StatusOf(s.pass1, k) != Some(Created)
    ensures KeptAt(s.store, Next(s, Flush(buffer, maps, facet, refused, mint)).store, k)
  {
    ToSendOptsOut(buffer, s.pass1, maps, facet, k);
    BatchKeepsOptOuts(s.store, ToSend(buffer, s.pass1, s.synced, maps, facet), refused, Upsert, mint, k);
  }

  /** No write of a synced run undoes an opt-out. */
  lemma WriteKeepsOptOuts(s: State, e: Event)
    requires Synced(s) && !e.Foreign? && !e.Begin?
    ensures OptOutsKept(s, Next(s, e))
  {
    forall k | k in s.store && k !in s.born ensures KeptAt(s.store, Next(s, e).store, k) {
      match e
      case ContactsChunk(slice, segments, mode, refused, mint) => ChunkKeeps(s, slice, segments, mode, refused, mint,
          k);
      case Flush(buffer, maps, facet, refused, mint) => FlushKeeps(s, buffer, maps, facet, refused, mint, k);
      case EnrichmentCompleted =>
    }
  }

  lemma {:induction false} RunStaysSynced(s: State, events: seq<Event>)
    requires Synced(s)
    ensures Synced(Run(s, events))
  {
    if events != [] {
      RunStaysSynced(s, events[..|events| - 1]);
      SyncedKept(Run(s, events[..|events| - 1]), events[|events| - 1]);
    }
  }

  /**
   * In any sequence of runs, each starting once an enrichment was completed,
   * with any number of crashes and of changes by others: no write of the tool
   * turns an opt-out into an opt-in or clears the unsubscribed flag, nor
   * replaces the contact, under an address its run did not insert.
   */
  lemma OptOutsSurvive(s: State, events: seq<Event>, i: nat)
    requires Synced(s) && i < |events| && !events[i].Foreign? && !events[i].Begin?
    ensures OptOutsKept(Run(s, events[..i]), Run(s, events[..i + 1]))
  {
    RunStaysSynced(s, events[..i]);
    assert events[..i + 1][..i] == events[..i];
    WriteKeepsOptOuts(Run(s, events[..i]), events[i]);
  }

  // ---- Contact by contact ----

  /** What is stored under an address the run inserted is a contact it inserted. */
  ghost predicate Faithful(s: State) { forall k | k in s.born && k in s.store :: s.store[k].id in s.bornIds }

  /** No one else puts another contact under an address the run inserted. */
  ghost predicate NoTakeover(s: State, e: Event) {
    e.Foreign? ==> forall k | k in s.born && k in e.store :: e.store[k].id in s.bornIds
  }

  lemma WroteFaithful(s: State, items: seq<Item>, mode: Mode, mint: Mint)
    requires Faithful(s)
    ensures Faithful(Wrote(s, Batch(s.store, items, mode, mint)))
  {
    var after := Batch(s.store, items, mode, mint);
    var n := Wrote(s, after);
    forall k | k in n.born && k in after ensures after[k].id in n.bornIds {
      if k in s.store {
        NeverSubscribesAgain(s.store, items, mode, mint, k);
        assert k !in Inserted(s.store, after);
      } else {
        assert k in Inserted(s.store, after) && after[k].id in IdsOf(after, Inserted(s.store, after));
      }
    }
  }

  lemma FaithfulKept(s: State, e: Event)
    requires Faithful(s) && NoTakeover(s, e)
    ensures Faithful(Next(s, e))
  {
    match e
    case ContactsChunk(slice, segments, mode, refused, mint) =>
      WroteFaithful(s, Taken(ContactItems(slice, segments), refused), mode, mint);
    case Flush(buffer, maps, facet, refused, mint) =>
      WroteFaithful(s, Taken(ToSend(buffer, s.pass1, s.synced, maps, facet), refused), Upsert, mint);
    case Foreign(_) =>
    case Begin =>
    case EnrichmentCompleted =>
  }

  ghost predicate NoTakeovers(s: State, events: seq<Event>) {
    forall j | 0 <= j < |events| :: NoTakeover(Run(s, events[..j]), events[j])
  }

  lemma {:induction false} RunStaysFaithful(s: State, events: seq<Event>, i: nat)
    requires Faithful(s) && NoTakeovers(s, events) && i <= |events|
    ensures Faithful(Run(s, events[..i]))
  {
    if i > 0 {
      RunStaysFaithful(s, events, i - 1);
      assert events[..i][..i - 1] == events[..i - 1];
      FaithfulKept(Run(s, events[..i - 1]), events[i - 1]);
    } else {
      assert events[..0] == [];
    }
  }

  /**
   * So as long as no one else puts another contact under an address a run
   * inserted, no write undoes an opt-out, or clears the flag, of a contact
   * its run did not create.
   */
  lemma OptOutsSurviveByContact(s: State, events: seq<Event>, i: nat, k: string)
    requires Synced(s) && Faithful(s) && NoTakeovers(s, events)
    requires i < |events| && !events[i].Foreign? && !events[i].Begin?
    requires k in Run(s, events[..i]).store && Run(s, events[..i]).store[k].id !in Run(s, events[..i]).bornIds
    ensures KeptAt(Run(s, events[..i]).store, Run(s, events[..i + 1]).store, k)
  {
    RunStaysFaithful(s, events, i);
    OptOutsSurvive(s, events, i);
  }

  // ---- When an opt-out does not survive ----

  /** What one item makes of the choices stored under its address. */
  lemma OneSent(store: Store, item: Item, mint: Mint)
    requires item.key in store
    ensures var after := Batch(store, [item], Upsert, mint);
            item.key in after && after[item.key].topics == store[item.key].topics + LastWins(item.topics)
  {
    assert [item][..0] == [];
    RowOfSnoc([item], Upsert, item.key);
    assert RowOf([item], Upsert, item.key) == Some(NewRow(0, item));
    BatchLeaves(store, [item], Upsert, mint, item.key);
    assert Get(Batch(store, [item], Upsert, mint), item.key).Some?;
  }

  /** A choice stored as out becomes in exactly when the whole list is sent and its last word is in. */
  lemma LastWord(topics: seq<Choice>, bySource: map<nat, nat>, full: bool, stored: map<nat, bool>, t: nat)
    requires t in stored && !stored[t]
    ensures var after := stored + LastWins(Mapped(topics, bySource, full));
            var last := LastWins(Mapped(topics, bySource, true));
            t in after && (after[t] <==> full && t in last && last[t])
  {
    LastWinsFrom(Mapped(topics, bySource, full));
    if !full { MappedOptsOut(topics, bySource); }
  }

  lemma TakenOne(item: Item)
    ensures Taken([item], _ => false) == [item]
  {
    assert [item][..0] == [];
  }

  lemma OneToSend(c: Source, pass1: map<string, Status>, synced: bool, maps: Maps, facet: Facet)
    ensures var item := EnrichedItem(c, pass1, synced, maps, facet);
            ToSend([c], pass1, synced, maps, facet) == if LeftAlone(pass1, c.key) || !Sendable(item) then [] else [item]
  {
    assert [c][..0] == [];
  }

  /** Does the run send the contact its whole list of choices? */
  predicate SendsAll(s: State, k: string) { StatusOf(s.pass1, k) == Some(Created) || !s.synced }

  lemma FlushNone(s: State, c: Source, maps: Maps, mint: Mint)
    requires var item := EnrichedItem(c, s.pass1, s.synced, maps, TopicsFacet);
             LeftAlone(s.pass1, c.key) || !Sendable(item)
    ensures Next(s, Flush([c], maps, TopicsFacet, _ => false, mint)).store == s.store
  {
    OneToSend(c, s.pass1, s.synced, maps, TopicsFacet);
    assert Batch(s.store, [], Upsert, mint) == s.store;
  }

  lemma FlushSent(s: State, c: Source, maps: Maps, mint: Mint)
    requires c.key in s.store
    requires var item := EnrichedItem(c, s.pass1, s.synced, maps, TopicsFacet);
             !LeftAlone(s.pass1, c.key) && Sendable(item)
    ensures var n := Next(s, Flush([c], maps, TopicsFacet, _ => false, mint));
            var item := EnrichedItem(c, s.pass1, s.synced, maps, TopicsFacet);
            c.key in n.store && n.store[c.key].topics == s.store[c.key].topics + LastWins(item.topics)
  {
    var item := EnrichedItem(c, s.pass1, s.synced, maps, TopicsFacet);
    OneToSend(c, s.pass1, s.synced, maps, TopicsFacet);
    TakenOne(item);
    OneSent(s.store, item, mint);
  }

  lemma FlushOne(s: State, c: Source, maps: Maps, mint: Mint)
    requires c.key in s.store
    ensures var n := Next(s, Flush([c], maps, TopicsFacet, _ => false, mint));
            c.key in n.store && n.store[c.key].topics ==
            if LeftAlone(s.pass1, c.key) then s.store[c.key].topics
            else s.store[c.key].topics + LastWins(Mapped(c.topics, maps.topicBySource, SendsAll(s, c.key)))
  {
    if LeftAlone(s.pass1, c.key) || !Sendable(EnrichedItem(c, s.pass1, s.synced, maps, TopicsFacet)) {
      FlushNone(s, c, maps, mint);
      assert s.store[c.key].topics + map[] == s.store[c.key].topics;
    } else {
      FlushSent(s, c, maps, mint);
    }
  }

  /**
   * A topics flush of one contact turns a stored opt-out into an opt-in
   * exactly when the run counts the contact as newly created, or no
   * enrichment was completed before, and the source's last word on the topic
   * is an opt-in.
   */
  lemma FlipsIff(s: State, c: Source, maps: Maps, mint: Mint, t: nat)
    requires c.key in s.store && t in s.store[c.key].topics && !s.store[c.key].topics[t]
    ensures var n := Next(s, Flush([c], maps, TopicsFacet, _ => false, mint));
            c.key in n.store && t in n.store[c.key].topics &&
            (n.store[c.key].topics[t] <==>
               && SendsAll(s, c.key) && !LeftAlone(s.pass1, c.key)
               && var last := LastWins(Mapped(c.topics, maps.topicBySource, true)); t in last && last[t])
  {
    FlushOne(s, c, maps, mint);
    LastWord(c.topics, maps.topicBySource, SendsAll(s, c.key), s.store[c.key].topics, t);
  }
}
