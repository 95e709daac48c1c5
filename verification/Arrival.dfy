/**
 * What a contact's values become on the target when one write of a migration
 * run is taken (packages/cli/src/apply.ts): a chunk of the contacts pass or a
 * flush of an enrichment pass, said of the source contact's own fields.
 */
module Arrival {
  import opened Common
  import opened Contacts
  import opened ContactValues
  import opened Sync

  // ---- The choices sent ----

  /** The run sends this choice, and it is about this topic of the target. */
  predicate Sends(c: Choice, bySource: map<nat, nat>, full: bool, t: nat) {
    c.topic in bySource && bySource[c.topic] == t && (full || !c.subscribed)
  }

  /** The i-th choice is the last one sent about the topic. */
  ghost predicate LastSentAt(topics: seq<Choice>, bySource: map<nat, nat>, full: bool, t: nat, i: int) {
    && 0 <= i < |topics| && Sends(topics[i], bySource, full, t)
    && forall j | i < j < |topics| :: !Sends(topics[j], bySource, full, t)
  }

  ghost predicate LastSent(topics: seq<Choice>, bySource: map<nat, nat>, full: bool, t: nat, subscribed: bool) {
    exists i :: LastSentAt(topics, bySource, full, t, i) && topics[i].subscribed == subscribed
  }

  lemma LastSentAtOn(topics: seq<Choice>, bySource: map<nat, nat>, full: bool, t: nat, i: int)
    requires topics != []
    ensures var n := |topics| - 1;
            LastSentAt(topics, bySource, full, t, i) <==>
            if Sends(topics[n], bySource, full, t) then i == n else LastSentAt(topics[..n], bySource, full, t, i)
  {
    var n := |topics| - 1;
    if 0 <= i < n && LastSentAt(topics, bySource, full, t, i) {
      forall j | i < j < n ensures !Sends(topics[..n][j], bySource, full, t) { assert topics[..n][j] == topics[j]; }
    }
  }

  lemma LastSentOn(topics: seq<Choice>, bySource: map<nat, nat>, full: bool, t: nat, b: bool)
    requires topics != []
    ensures var n := |topics| - 1;
            LastSent(topics, bySource, full, t, b) <==>
            if Sends(topics[n], bySource, full, t) then topics[n].subscribed == b
            else LastSent(topics[..n], bySource, full, t, b)
  {
    var n := |topics| - 1;
    LastSentAtOn(topics, bySource, full, t, n);
    if i :| LastSentAt(topics, bySource, full, t, i) && topics[i].subscribed == b {
      LastSentAtOn(topics, bySource, full, t, i);
    }
    if i :| LastSentAt(topics[..n], bySource, full, t, i) && topics[..n][i].subscribed == b {
      LastSentAtOn(topics, bySource, full, t, i);
    }
  }

  lemma LastWinsOn(front: seq<Choice>, c: Choice, t: nat)
    ensures Chosen(LastWins(front + [c]), t) == if c.topic == t then Some(c.subscribed) else Chosen(LastWins(front), t)
  {
    assert (front + [c])[..|front|] == front;
  }

  /** What is sent about a topic is the last choice of the source the run sends about it. */
  lemma {:induction false} MappedSays(topics: seq<Choice>, bySource: map<nat, nat>, full: bool, t: nat)
    ensures var sent := Chosen(LastWins(Mapped(topics, bySource, full)), t);
            && (forall b :: sent == Some(b) <==> LastSent(topics, bySource, full, t, b))
            && (sent.None? <==> forall c | c in topics :: !Sends(c, bySource, full, t))
  {
    if topics != [] {
      var n := |topics| - 1;
      var c := topics[n];
      MappedSays(topics[..n], bySource, full, t);
      assert topics == topics[..n] + [c];
      if c.topic in bySource {
        LastWinsOn(Mapped(topics[..n], bySource, full), Choice(bySource[c.topic], c.subscribed), t);
      }
      forall b
        ensures Chosen(LastWins(Mapped(topics, bySource, full)), t) == Some(b) <==>
                LastSent(topics, bySource, full, t, b)
      {
        LastSentOn(topics, bySource, full, t, b);
      }
    }
  }

  // ---- What is sent ----

  /** No two contacts of the buffer share an address. */
  ghost predicate Distinct(buffer: seq<Source>) {
    forall x, y | x in buffer && y in buffer :: x.key == y.key ==> x == y
  }

  lemma {:induction false} ToSendFrom(
    buffer: seq<Source>, pass1: map<string, Status>, synced: bool, maps: Maps, facet: Facet, item: Item)
    ensures item in ToSend(buffer, pass1, synced, maps, facet) <==>
            exists c | c in buffer :: && item == EnrichedItem(c, pass1, synced, maps, facet)
                                      && !LeftAlone(pass1, c.key) && Sendable(item)
  {
    if buffer != [] {
      var n := |buffer| - 1;
      ToSendFrom(buffer[..n], pass1, synced, maps, facet, item);
      assert buffer == buffer[..n] + [buffer[n]];
    }
  }

  /** Something of the contact is for this pass: a choice the run sends, or a property on the target. */
  ghost predicate HasValues(c: Source, full: bool, maps: Maps, facet: Facet) {
    match facet
    case TopicsFacet => exists i | 0 <= i < |c.topics| :: c.topics[i].topic in maps.topicBySource
                                                          && (full || !c.topics[i].subscribed)
    case PropertiesFacet => exists p :: p in c.properties && p in maps.propertyKeys
  }

  lemma {:induction false} MappedSome(topics: seq<Choice>, bySource: map<nat, nat>, full: bool)
    ensures Mapped(topics, bySource, full) != [] <==>
            exists i | 0 <= i < |topics| :: topics[i].topic in bySource && (full || !topics[i].subscribed)
  {
    if topics != [] {
      var n := |topics| - 1;
      MappedSome(topics[..n], bySource, full);
      if i :| 0 <= i < n && topics[..n][i].topic in bySource && (full || !topics[..n][i].subscribed) {
        assert topics[i].topic in bySource;
      }
      if i :| 0 <= i < |topics| && topics[i].topic in bySource && (full || !topics[i].subscribed) {
        if i < n { assert topics[..n][i].topic in bySource; }
      }
    }
  }

  lemma SendableIff(s: State, maps: Maps, facet: Facet, c: Source)
    ensures Sendable(EnrichedItem(c, s.pass1, s.synced, maps, facet)) <==>
            HasValues(c, SendsAll(s, c.key), maps, facet)
  {
    MappedSome(c.topics, maps.topicBySource, SendsAll(s, c.key));
    var properties := EnrichedItem(c, s.pass1, s.synced, maps, facet).properties;
    if p :| p in c.properties && p in maps.propertyKeys && facet.PropertiesFacet? { assert p in properties; }
    if properties != map[] { var p :| p in properties; }
  }

  /**
   * A contact of the buffer is sent if and only if it has values for this
   * pass and the contacts pass of this run neither skipped nor failed it.
   */
  lemma SentIff(buffer: seq<Source>, s: State, maps: Maps, facet: Facet, c: Source)
    requires Distinct(buffer) && c in buffer
    ensures EnrichedItem(c, s.pass1, s.synced, maps, facet) in ToSend(buffer, s.pass1, s.synced, maps, facet) <==>
            && HasValues(c, !s.synced || (c.key in s.pass1 && s.pass1[c.key] == Created), maps, facet)
            && (c.key in s.pass1 ==> s.pass1[c.key] != Skipped && s.pass1[c.key] != Failed)
  {
    ToSendFrom(buffer, s.pass1, s.synced, maps, facet, EnrichedItem(c, s.pass1, s.synced, maps, facet));
    SendableIff(s, maps, facet, c);
  }

  // ---- What a flush leaves ----

  /** When all of a key's items are one, a field ends as it says or as it was stored. */
  lemma OneItemEnds<T(!new)>(items: seq<Item>, k: string, f: Item -> Option<T>, stored: Option<T>, result: Option<T>,
                             item: Item)
    requires EndsAs(items, k, f, stored, result) && !Absent(items, k)
    requires forall i | At(items, k, i) :: items[i] == item
    ensures result == Or(f(item), stored)
  {
    var i :| At(items, k, i);
    assert items[i] == item;
  }

  /** The items under the key are this one, taken at least once. */
  ghost predicate Only(items: seq<Item>, k: string, item: Item) {
    item in items && item.key == k && forall i | At(items, k, i) :: items[i] == item
  }

  lemma OnlyIsThere(items: seq<Item>, k: string, item: Item)
    requires Only(items, k, item)
    ensures !Absent(items, k)
  {
    var i :| 0 <= i < |items| && items[i] == item;
    assert At(items, k, i);
  }

  lemma TakenOnly(buffer: seq<Source>, s: State, maps: Maps, facet: Facet, refused: nat -> bool, c: Source)
    requires Distinct(buffer) && c in buffer
    requires EnrichedItem(c, s.pass1, s.synced, maps, facet) in
               Taken(ToSend(buffer, s.pass1, s.synced, maps, facet), refused)
    ensures Only(Taken(ToSend(buffer, s.pass1, s.synced, maps, facet), refused), c.key,
                 EnrichedItem(c, s.pass1, s.synced, maps, facet))
  {
    var items := ToSend(buffer, s.pass1, s.synced, maps, facet);
    var taken := Taken(items, refused);
    TakenAre(items, refused);
    forall i | At(taken, c.key, i) ensures taken[i] == EnrichedItem(c, s.pass1, s.synced, maps, facet) {
      assert taken[i] in items;
      ToSendFrom(buffer, s.pass1, s.synced, maps, facet, taken[i]);
    }
  }

  function StoredTopic(store: Store, k: string, t: nat): Option<bool> {
    if k in store then Chosen(store[k].topics, t) else None
  }

  function StoredProperty(store: Store, k: string, p: string): Option<string> {
    if k in store then Entry(store[k].properties, p) else None
  }

  /** A taken item's fields, on what was stored. */
  lemma OnlyLeaves(store: Store, items: seq<Item>, mint: Mint, k: string, item: Item, t: nat, p: string)
    requires Only(items, k, item)
    ensures k in Batch(store, items, Upsert, mint)
    ensures var after := Batch(store, items, Upsert, mint)[k];
            && Chosen(after.topics, t) == Or(Chosen(LastWins(item.topics), t), StoredTopic(store, k, t))
            && Entry(after.properties, p) == Or(Entry(item.properties, p), StoredProperty(store, k, p))
  {
    OnlyIsThere(items, k, item);
    UpsertFields(store, items, mint, k);
    var after := Batch(store, items, Upsert, mint)[k];
    OneItemEnds(items, k, Topic(t), StoredTopic(store, k, t), Chosen(after.topics, t), item);
    OneItemEnds(items, k, Property(p), StoredProperty(store, k, p), Entry(after.properties, p), item);
  }

  lemma OnlyLeavesNames(store: Store, items: seq<Item>, mint: Mint, k: string, item: Item)
    requires Only(items, k, item)
    ensures k in Batch(store, items, Upsert, mint)
    ensures var after := Batch(store, items, Upsert, mint)[k];
            && after.firstName == Or(item.firstName, if k in store then store[k].firstName else None)
            && after.lastName == Or(item.lastName, if k in store then store[k].lastName else None)
  {
    OnlyIsThere(items, k, item);
    UpsertFields(store, items, mint, k);
    var after := Batch(store, items, Upsert, mint)[k];
    OneItemEnds(items, k, FirstName(), if k in store then store[k].firstName else None, after.firstName, item);
    OneItemEnds(items, k, LastName(), if k in store then store[k].lastName else None, after.lastName, item);
  }

  lemma OnlyLeavesFlag(store: Store, items: seq<Item>, mint: Mint, k: string, item: Item)
    requires Only(items, k, item)
    ensures k in Batch(store, items, Upsert, mint)
    ensures Batch(store, items, Upsert, mint)[k].unsubscribed <==>
            (k in store && store[k].unsubscribed) || item.unsubscribed == Some(true)
    ensures forall x :: x in Batch(store, items, Upsert, mint)[k].segments <==>
            (k in store && x in store[k].segments) || x in item.segments
  {
    OnlyIsThere(items, k, item);
    UpsertRest(store, items, mint, k);
    var i :| At(items, k, i);
    forall x ensures Names(items, k, x) <==> x in item.segments { if x in item.segments { assert At(items, k, i); } }
    if item.unsubscribed == Some(true) { LastOfAll(items, k); }
  }

  /** Some item of the key is its last. */
  lemma {:induction false} LastOfAll(items: seq<Item>, k: string)
    requires !Absent(items, k)
    ensures exists i :: At(items, k, i) && forall j | At(items, k, j) :: j <= i
  {
    var n := |items| - 1;
    if items[n].key == k {
      assert At(items, k, n);
    } else {
      AbsentOn(items, k);
      LastOfAll(items[..n], k);
      Earlier(items, k);
      var i :| At(items[..n], k, i) && forall j | At(items[..n], k, j) :: j <= i;
      assert At(items, k, i);
    }
  }

  /** The target takes the contact's item of this flush. */
  ghost predicate Arrives(s: State, buffer: seq<Source>, maps: Maps, facet: Facet, refused: nat -> bool, c: Source) {
    && Distinct(buffer) && c in buffer
    && EnrichedItem(c, s.pass1, s.synced, maps, facet) in
         Taken(ToSend(buffer, s.pass1, s.synced, maps, facet), refused)
  }

  lemma FlushIs(s: State, buffer: seq<Source>, maps: Maps, facet: Facet, refused: nat -> bool, mint: Mint)
    ensures Next(s, Flush(buffer, maps, facet, refused, mint)).store ==
            Batch(s.store, Taken(ToSend(buffer, s.pass1, s.synced, maps, facet), refused), Upsert, mint)
  {
    var after := Batch(s.store, Taken(ToSend(buffer, s.pass1, s.synced, maps, facet), refused), Upsert, mint);
    assert Next(s, Flush(buffer, maps, facet, refused, mint)) == Wrote(s, after);
  }

  /** What the item says of a topic and of a property is what they end as. */
  lemma ArrivedItem(s: State, buffer: seq<Source>, maps: Maps, facet: Facet, refused: nat -> bool, mint: Mint,
                    c: Source, t: nat, p: string)
    requires Arrives(s, buffer, maps, facet, refused, c)
    ensures var n := Next(s, Flush(buffer, maps, facet, refused, mint)).store;
            var item := EnrichedItem(c, s.pass1, s.synced, maps, facet);
            && c.key in n
            && Chosen(n[c.key].topics, t) == Or(Chosen(LastWins(item.topics), t), StoredTopic(s.store, c.key, t))
            && Entry(n[c.key].properties, p) == Or(Entry(item.properties, p), StoredProperty(s.store, c.key, p))
  {
    FlushIs(s, buffer, maps, facet, refused, mint);
    TakenOnly(buffer, s, maps, facet, refused, c);
    OnlyLeaves(s.store, Taken(ToSend(buffer, s.pass1, s.synced, maps, facet), refused), mint, c.key,
               EnrichedItem(c, s.pass1, s.synced, maps, facet), t, p);
  }

  lemma ArrivedRest(s: State, buffer: seq<Source>, maps: Maps, facet: Facet, refused: nat -> bool, mint: Mint,
                    c: Source, x: nat)
    requires Arrives(s, buffer, maps, facet, refused, c)
    ensures var n := Next(s, Flush(buffer, maps, facet, refused, mint)).store;
            var item := EnrichedItem(c, s.pass1, s.synced, maps, facet);
            && c.key in n
            && (n[c.key].unsubscribed <==>
                (c.key in s.store && s.store[c.key].unsubscribed) || item.unsubscribed == Some(true))
            && n[c.key].firstName == Or(item.firstName, if c.key in s.store then s.store[c.key].firstName else None)
            && n[c.key].lastName == Or(item.lastName, if c.key in s.store then s.store[c.key].lastName else None)
            && (x in n[c.key].segments <==> (c.key in s.store && x in s.store[c.key].segments) || x in item.segments)
  {
    FlushIs(s, buffer, maps, facet, refused, mint);
    var item := EnrichedItem(c, s.pass1, s.synced, maps, facet);
    var taken := Taken(ToSend(buffer, s.pass1, s.synced, maps, facet), refused);
    TakenOnly(buffer, s, maps, facet, refused, c);
    OnlyLeavesNames(s.store, taken, mint, c.key, item);
    OnlyLeavesFlag(s.store, taken, mint, c.key, item);
  }

  /**
   * A topics flush leaves a topic as the last choice sent about it, or as it
   * was where none is sent; it changes no property.
   */
  lemma TopicArrives(s: State, buffer: seq<Source>, maps: Maps, refused: nat -> bool, mint: Mint, c: Source, t: nat,
                     b: bool, p: string)
    requires Arrives(s, buffer, maps, TopicsFacet, refused, c)
    ensures var n := Next(s, Flush(buffer, maps, TopicsFacet, refused, mint)).store;
            var full := !s.synced || (c.key in s.pass1 && s.pass1[c.key] == Created);
            && c.key in n
            && (LastSent(c.topics, maps.topicBySource, full, t, b) ==> Chosen(n[c.key].topics, t) == Some(b))
            && ((forall x | x in c.topics :: !Sends(x, maps.topicBySource, full, t)) ==>
                  Chosen(n[c.key].topics, t) == StoredTopic(s.store, c.key, t))
            && Entry(n[c.key].properties, p) == StoredProperty(s.store, c.key, p)
  {
    ArrivedItem(s, buffer, maps, TopicsFacet, refused, mint, c, t, p);
    MappedSays(c.topics, maps.topicBySource, SendsAll(s, c.key), t);
  }

  /** An opt-out that is the last word is sent in either case, and is then the last. */
  lemma OptOutIsSent(topics: seq<Choice>, bySource: map<nat, nat>, full: bool, t: nat)
    requires LastSent(topics, bySource, true, t, false)
    ensures LastSent(topics, bySource, full, t, false)
  {
    var i :| LastSentAt(topics, bySource, true, t, i) && !topics[i].subscribed;
    assert LastSentAt(topics, bySource, full, t, i);
  }

  /** The source's last word on a topic being out, the contact is out of it on the target. */
  lemma OptOutArrives(s: State, buffer: seq<Source>, maps: Maps, refused: nat -> bool, mint: Mint, c: Source, t: nat)
    requires Arrives(s, buffer, maps, TopicsFacet, refused, c)
    requires LastSent(c.topics, maps.topicBySource, true, t, false)
    ensures var n := Next(s, Flush(buffer, maps, TopicsFacet, refused, mint)).store;
            c.key in n && t in n[c.key].topics && !n[c.key].topics[t]
  {
    TopicArrives(s, buffer, maps, refused, mint, c, t, false, "");
    OptOutIsSent(c.topics, maps.topicBySource, SendsAll(s, c.key), t);
  }

  /** A properties flush leaves a property the target has as the source does; it changes no topic. */
  lemma PropertyArrives(s: State, buffer: seq<Source>, maps: Maps, refused: nat -> bool, mint: Mint, c: Source,
                        p: string, t: nat)
    requires Arrives(s, buffer, maps, PropertiesFacet, refused, c)
    ensures var n := Next(s, Flush(buffer, maps, PropertiesFacet, refused, mint)).store;
            && c.key in n
            && Entry(n[c.key].properties, p) == (if p in c.properties && p in maps.propertyKeys
                                                 then Some(c.properties[p]) else StoredProperty(s.store, c.key, p))
            && Chosen(n[c.key].topics, t) == StoredTopic(s.store, c.key, t)
  {
    ArrivedItem(s, buffer, maps, PropertiesFacet, refused, mint, c, t, p);
  }

  /**
   * In either pass, the flag and the names go along exactly for a contact
   * this run's contacts pass never saw, and memberships never do.
   */
  lemma FlagArrives(s: State, buffer: seq<Source>, maps: Maps, facet: Facet, refused: nat -> bool, mint: Mint,
                    c: Source, x: nat)
    requires Arrives(s, buffer, maps, facet, refused, c)
    ensures var n := Next(s, Flush(buffer, maps, facet, refused, mint)).store;
            var unseen := c.key !in s.pass1;
            && c.key in n
            && (n[c.key].unsubscribed <==>
                (c.key in s.store && s.store[c.key].unsubscribed) || (unseen && c.unsubscribed))
            && n[c.key].firstName == (if unseen && c.firstName.Some? then c.firstName
                                      else if c.key in s.store then s.store[c.key].firstName else None)
            && n[c.key].lastName == (if unseen && c.lastName.Some? then c.lastName
                                     else if c.key in s.store then s.store[c.key].lastName else None)
            && (x in n[c.key].segments <==> c.key in s.store && x in s.store[c.key].segments)
  {
    ArrivedRest(s, buffer, maps, facet, refused, mint, c, x);
  }

  lemma NotSent(s: State, buffer: seq<Source>, maps: Maps, facet: Facet, refused: nat -> bool, k: string)
    requires (forall c | c in buffer :: c.key != k) || LeftAlone(s.pass1, k)
    ensures Absent(Taken(ToSend(buffer, s.pass1, s.synced, maps, facet), refused), k)
  {
    var items := ToSend(buffer, s.pass1, s.synced, maps, facet);
    var taken := Taken(items, refused);
    TakenAre(items, refused);
    forall i ensures !At(taken, k, i) {
      if At(taken, k, i) {
        assert taken[i] in items;
        ToSendFrom(buffer, s.pass1, s.synced, maps, facet, taken[i]);
      }
    }
  }

  /** An address no contact of the buffer has, or one this run skipped or failed, is left as it was. */
  lemma OthersStay(s: State, buffer: seq<Source>, maps: Maps, facet: Facet, refused: nat -> bool, mint: Mint, k: string)
    requires (forall c | c in buffer :: c.key != k) || (k in s.pass1 && (s.pass1[k] == Skipped || s.pass1[k] == Failed))
    ensures Get(Next(s, Flush(buffer, maps, facet, refused, mint)).store, k) == Get(s.store, k)
  {
    FlushIs(s, buffer, maps, facet, refused, mint);
    NotSent(s, buffer, maps, facet, refused, k);
    UpsertRest(s.store, Taken(ToSend(buffer, s.pass1, s.synced, maps, facet), refused), mint, k);
  }

  // ---- What a chunk of the contacts pass leaves ----

  lemma ChunkOnly(slice: seq<Source>, segments: string -> seq<nat>, refused: nat -> bool, i: nat)
    requires i < |slice| && Distinct(slice) && !refused(i)
    ensures Only(Taken(ContactItems(slice, segments), refused), slice[i].key,
                 ContactItem(slice[i], segments(slice[i].key)))
  {
    var k, items := slice[i].key, ContactItems(slice, segments);
    var taken := Taken(items, refused);
    TakenAre(items, refused);
    forall j | At(taken, k, j) ensures taken[j] == ContactItem(slice[i], segments(k)) {
      assert taken[j] in items;
      var x :| 0 <= x < |items| && items[x] == taken[j];
      assert items[x] == ContactItem(slice[x], segments(slice[x].key));
      assert slice[x] in slice && slice[i] in slice;
    }
  }

  lemma ChunkIs(s: State, slice: seq<Source>, segments: string -> seq<nat>, mode: Mode, refused: nat -> bool,
                mint: Mint)
    ensures Next(s, ContactsChunk(slice, segments, mode, refused, mint)).store ==
            Batch(s.store, Taken(ContactItems(slice, segments), refused), mode, mint)
  {
  }

  /**
   * Under upsert a contact of the chunk ends out if it is at the source or
   * was here, in the segments it had and those it is a member of, with the
   * source's names; its topics and properties are left to the later passes.
   */
  lemma ContactArrives(s: State, slice: seq<Source>, segments: string -> seq<nat>, refused: nat -> bool, mint: Mint,
                       i: nat, t: nat, p: string)
    requires i < |slice| && Distinct(slice) && !refused(i)
    ensures var n := Next(s, ContactsChunk(slice, segments, Upsert, refused, mint)).store;
            var c, k := slice[i], slice[i].key;
            && k in n && (n[k].unsubscribed <==> (k in s.store && s.store[k].unsubscribed) || c.unsubscribed)
            && n[k].firstName == (if c.firstName.Some? then c.firstName
                                  else if k in s.store then s.store[k].firstName else None)
            && n[k].lastName == (if c.lastName.Some? then c.lastName
                                 else if k in s.store then s.store[k].lastName else None)
            && (forall x :: x in n[k].segments <==> (k in s.store && x in s.store[k].segments) || x in segments(k))
            && Chosen(n[k].topics, t) == StoredTopic(s.store, k, t)
            && Entry(n[k].properties, p) == StoredProperty(s.store, k, p)
  {
    var k, taken := slice[i].key, Taken(ContactItems(slice, segments), refused);
    ChunkIs(s, slice, segments, Upsert, refused, mint);
    ChunkOnly(slice, segments, refused, i);
    OnlyLeaves(s.store, taken, mint, k, ContactItem(slice[i], segments(k)), t, p);
    OnlyLeavesNames(s.store, taken, mint, k, ContactItem(slice[i], segments(k)));
    OnlyLeavesFlag(s.store, taken, mint, k, ContactItem(slice[i], segments(k)));
  }

  /** Under skip and error a stored contact is left as it was, and a new one is as the source has it. */
  lemma NewContactArrives(s: State, slice: seq<Source>, segments: string -> seq<nat>, mode: Mode,
                          refused: nat -> bool, mint: Mint, i: nat)
    requires i < |slice| && Distinct(slice) && !refused(i) && mode != Upsert
    ensures var n := Next(s, ContactsChunk(slice, segments, mode, refused, mint)).store;
            var c, k := slice[i], slice[i].key;
            && k in n
            && (k in s.store ==> n[k] == s.store[k])
            && (k !in s.store ==>
                  && n[k].firstName == c.firstName && n[k].lastName == c.lastName
                  && n[k].unsubscribed == c.unsubscribed && n[k].properties == map[]
                  && (forall x :: x in n[k].segments <==> x in segments(k)))
  {
    var k, taken := slice[i].key, Taken(ContactItems(slice, segments), refused);
    ChunkIs(s, slice, segments, mode, refused, mint);
    ChunkOnly(slice, segments, refused, i);
    OnlyIsThere(taken, k, ContactItem(slice[i], segments(k)));
    FirstItemHolds(s.store, taken, mode, mint, k);
    assert Get(Batch(s.store, taken, mode, mint), k).Some?;
  }

  // ---- What the contacts pass notes ----

  ghost predicate KeysDiffer(items: seq<Item>) { forall i, j | 0 <= i < j < |items| :: items[i].key != items[j].key }

  lemma {:induction false} NotedDataAt(
    pass1: map<string, Status>, store: Store, items: seq<Item>, mode: Mode, refused: nat -> bool, n: nat, i: nat)
    requires n <= |items| && i < |items| && KeysDiffer(items)
    ensures StatusOf(NotedData(pass1, store, items, mode, refused, n), items[i].key) ==
            if i < n && !Errs(store, items, mode, refused, i) then Some(Answered(store, items, mode, refused, i))
            else StatusOf(pass1, items[i].key)
  {
    if n > 0 { NotedDataAt(pass1, store, items, mode, refused, n - 1, i); }
  }

  lemma {:induction false} NotedAt(
    pass1: map<string, Status>, store: Store, items: seq<Item>, mode: Mode, refused: nat -> bool, n: nat, i: nat)
    requires n <= |items| && i < |items| && KeysDiffer(items)
    ensures StatusOf(Noted(pass1, store, items, mode, refused, n), items[i].key) ==
            if i < n && Errs(store, items, mode, refused, i) then Some(Failed)
            else if !Errs(store, items, mode, refused, i) then Some(Answered(store, items, mode, refused, i))
            else StatusOf(pass1, items[i].key)
  {
    if n > 0 {
      NotedAt(pass1, store, items, mode, refused, n - 1, i);
    } else {
      NotedDataAt(pass1, store, items, mode, refused, |items|, i);
    }
  }

  lemma ItemKeys(slice: seq<Source>, segments: string -> seq<nat>)
    requires forall x, y | 0 <= x < y < |slice| :: slice[x].key != slice[y].key
    ensures KeysDiffer(ContactItems(slice, segments)) && |ContactItems(slice, segments)| == |slice|
    ensures forall x | 0 <= x < |slice| :: ContactItems(slice, segments)[x].key == slice[x].key
  {
    forall x | 0 <= x < |slice| ensures ContactItems(slice, segments)[x].key == slice[x].key {
      assert ContactItems(slice, segments)[x] == ContactItem(slice[x], segments(slice[x].key));
    }
  }

  lemma NotedIs(s: State, slice: seq<Source>, segments: string -> seq<nat>, mode: Mode, refused: nat -> bool,
                mint: Mint)
    ensures var items := ContactItems(slice, segments);
            Next(s, ContactsChunk(slice, segments, mode, refused, mint)).pass1 ==
            Noted(s.pass1, s.store, items, mode, refused, |items|)
  {
  }

  lemma AnsweredAlone(store: Store, items: seq<Item>, mode: Mode, refused: nat -> bool, i: nat)
    requires i < |items| && KeysDiffer(items)
    ensures Answered(store, items, mode, refused, i) ==
            if items[i].key !in store then Created
            else match mode
              case Error => Failed
              case Skip => Skipped
              case Upsert => Updated
  {
  }

  /**
   * With distinct addresses the run notes of each contact of a chunk what
   * became of it: failed if the target refused it or, under error, had it
   * already; skipped or updated if it was there; else created.
   */
  lemma StatusNoted(s: State, slice: seq<Source>, segments: string -> seq<nat>, mode: Mode, refused: nat -> bool,
                    mint: Mint, i: nat)
    requires i < |slice| && forall x, y | 0 <= x < y < |slice| :: slice[x].key != slice[y].key
    ensures var noted := Next(s, ContactsChunk(slice, segments, mode, refused, mint)).pass1;
            var k := slice[i].key;
            && k in noted
            && noted[k] == if refused(i) || (mode == Error && k in s.store) then Failed
                           else if k !in s.store then Created
                           else if mode == Skip then Skipped else Updated
  {
    var items := ContactItems(slice, segments);
    ItemKeys(slice, segments);
    NotedAt(s.pass1, s.store, items, mode, refused, |items|, i);
    NotedIs(s, slice, segments, mode, refused, mint);
    AnsweredAlone(s.store, items, mode, refused, i);
  }
}
