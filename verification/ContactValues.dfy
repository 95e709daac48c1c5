/**
 * What a batch of contacts leaves under an address, said of its items alone
 * (apps/api/src/app.ts): which item's value each field ends with, and which
 * segments and topics.
 */
module ContactValues {
  import opened Common
  import opened Contacts

  predicate At(items: seq<Item>, k: string, i: int) { 0 <= i < |items| && items[i].key == k }

  /** The i-th item is the first under the key. */
  ghost predicate FirstAt(items: seq<Item>, k: string, i: int) {
    At(items, k, i) && forall j | At(items, k, j) :: i <= j
  }

  /** The i-th item is the last under the key that states the field. */
  ghost predicate LastAt<T(!new)>(items: seq<Item>, k: string, f: Item -> Option<T>, i: int) {
    At(items, k, i) && f(items[i]) != None && forall j | At(items, k, j) && i < j :: f(items[j]) == None
  }

  ghost predicate Unstated<T(!new)>(items: seq<Item>, k: string, f: Item -> Option<T>) {
    forall i | At(items, k, i) :: f(items[i]) == None
  }

  /** The field ends as the last item that states it does, or as it was stored. */
  ghost predicate EndsAs<T(!new)>(
    items: seq<Item>, k: string, f: Item -> Option<T>, stored: Option<T>, result: Option<T>)
  {
    || (exists i :: LastAt(items, k, f, i) && result == f(items[i]))
    || (Unstated(items, k, f) && result == stored)
  }

  function Entry(properties: map<string, string>, p: string): Option<string> {
    if p in properties then Some(properties[p]) else None
  }

  function Chosen(topics: map<nat, bool>, t: nat): Option<bool> { if t in topics then Some(topics[t]) else None }

  // ---- What a row says of its items ----

  /** A field a row has of its last item that states it. */
  ghost predicate Follows<T(!new)>(f: Item -> Option<T>, g: Row -> Option<T>) {
    && (forall i, item :: g(NewRow(i, item)) == f(item))
    && (forall row, i, item :: g(Merge(row, i, item, Upsert)) == if f(item) != None then f(item) else g(row))
  }

  lemma Earlier(items: seq<Item>, k: string)
    requires items != []
    ensures var n := |items| - 1;
            forall i :: At(items[..n], k, i) <==> At(items, k, i) && i < n
  {
  }

  /** One more item, of whatever key. */
  lemma EndsOn<T(!new)>(items: seq<Item>, k: string, f: Item -> Option<T>, was: Option<T>)
    requires items != [] && EndsAs(items[..|items| - 1], k, f, None, was)
    ensures var last := items[|items| - 1];
            EndsAs(items, k, f, None, if last.key == k && f(last) != None then f(last) else was)
  {
    var n := |items| - 1;
    var front := items[..n];
    Earlier(items, k);
    if items[n].key == k && f(items[n]) != None {
      assert LastAt(items, k, f, n);
    } else if i :| LastAt(front, k, f, i) && was == f(front[i]) {
      assert LastAt(items, k, f, i);
    } else {
      forall i | At(items, k, i) ensures f(items[i]) == None { if i < n { assert At(front, k, i); } }
    }
  }

  ghost predicate Absent(items: seq<Item>, k: string) { forall i :: !At(items, k, i) }

  lemma AbsentOn(items: seq<Item>, k: string)
    requires items != []
    ensures var n := |items| - 1; Absent(items, k) <==> Absent(items[..n], k) && items[n].key != k
  {
    var n := |items| - 1;
    Earlier(items, k);
    if Absent(items[..n], k) && items[n].key != k {
      forall i ensures !At(items, k, i) { assert !At(items[..n], k, i); }
    }
    if !Absent(items[..n], k) {
      var i :| At(items[..n], k, i);
      assert At(items, k, i);
    }
    if items[n].key == k { assert At(items, k, n); }
  }

  lemma {:induction false} RowHas(items: seq<Item>, mode: Mode, k: string)
    ensures RowOf(items, mode, k).None? <==> Absent(items, k)
  {
    if items != [] {
      RowHas(items[..|items| - 1], mode, k);
      RowOfSnoc(items, mode, k);
      AbsentOn(items, k);
    }
  }

  lemma {:induction false} RowLast<T(!new)>(items: seq<Item>, k: string, f: Item -> Option<T>, g: Row -> Option<T>)
    requires Follows(f, g)
    ensures var row := RowOf(items, Upsert, k); row.Some? ==> EndsAs(items, k, f, None, g(row.value))
  {
    if items != [] {
      var n := |items| - 1;
      var was := RowOf(items[..n], Upsert, k);
      RowLast(items[..n], k, f, g);
      RowOfSnoc(items, Upsert, k);
      RowHas(items[..n], Upsert, k);
      if was.None? { assert EndsAs(items[..n], k, f, None, None); }
      EndsOn(items, k, f, if was.Some? then g(was.value) else None);
    }
  }

  ghost predicate Names(items: seq<Item>, k: string, segment: nat) {
    exists i :: At(items, k, i) && segment in items[i].segments
  }

  lemma NamesOn(items: seq<Item>, k: string, segment: nat)
    requires items != []
    ensures var n := |items| - 1;
            Names(items, k, segment) <==> Names(items[..n], k, segment)
                                          || (items[n].key == k && segment in items[n].segments)
  {
    var n := |items| - 1;
    Earlier(items, k);
    if i :| At(items[..n], k, i) && segment in items[..n][i].segments {
      assert At(items, k, i) && segment in items[i].segments;
    }
    if i :| At(items, k, i) && segment in items[i].segments {
      if i < n { assert At(items[..n], k, i) && segment in items[..n][i].segments; }
    }
    if items[n].key == k { assert At(items, k, n); }
  }

  lemma {:induction false} RowSegments(items: seq<Item>, k: string, segment: nat)
    ensures var row := RowOf(items, Upsert, k);
            if row.Some? then segment in row.value.segments <==> Names(items, k, segment) else !Names(items, k, segment)
  {
    if items != [] {
      RowSegments(items[..|items| - 1], k, segment);
      RowOfSnoc(items, Upsert, k);
      NamesOn(items, k, segment);
    }
  }

  lemma FirstOn(items: seq<Item>, k: string, i: int)
    requires items != [] && FirstAt(items[..|items| - 1], k, i)
    ensures FirstAt(items, k, i) && items[i] == items[..|items| - 1][i]
  {
    Earlier(items, k);
  }

  /** The row has its first item's email, and under skip and error all that item says. */
  ghost predicate TellsFirst(items: seq<Item>, mode: Mode, k: string, row: Row, i: int) {
    && FirstAt(items, k, i) && row.email == items[i].email
    && (mode != Upsert ==> row == NewRow(i, items[i]).(indices := row.indices))
  }

  lemma {:induction false} RowFirst(items: seq<Item>, mode: Mode, k: string) returns (i: int)
    requires RowOf(items, mode, k).Some?
    ensures TellsFirst(items, mode, k, RowOf(items, mode, k).value, i)
  {
    var n := |items| - 1;
    RowOfSnoc(items, mode, k);
    if RowOf(items[..n], mode, k).Some? {
      i := RowFirst(items[..n], mode, k);
      FirstOn(items, k, i);
    } else {
      RowHas(items[..n], mode, k);
      Earlier(items, k);
      i := n;
      forall j | At(items, k, j) ensures n <= j { assert !At(items[..n], k, j); }
    }
  }

  // ---- What a choice list says ----

  /** The list's last choice about the topic is this one. */
  ghost predicate LastSaid(topics: seq<Choice>, t: nat, subscribed: bool) {
    exists i | 0 <= i < |topics| ::
      topics[i] == Choice(t, subscribed) && forall j | i < j < |topics| :: topics[j].topic != t
  }

  /** Of an item's choices about a topic the last one counts. */
  lemma {:induction false} LastWinsIs(topics: seq<Choice>, t: nat)
    ensures Chosen(LastWins(topics), t).None? <==> forall c | c in topics :: c.topic != t
    ensures forall b :: Chosen(LastWins(topics), t) == Some(b) <==> LastSaid(topics, t, b)
  {
    if topics != [] {
      var n := |topics| - 1;
      LastWinsIs(topics[..n], t);
      forall b ensures Chosen(LastWins(topics), t) == Some(b) <==> LastSaid(topics, t, b) { LastSaidOn(topics, t, b); }
    }
  }

  lemma LastSaidOn(topics: seq<Choice>, t: nat, b: bool)
    requires topics != []
    ensures var n := |topics| - 1;
            LastSaid(topics, t, b) <==>
            if topics[n].topic == t then topics[n].subscribed == b else LastSaid(topics[..n], t, b)
  {
    var n := |topics| - 1;
    if topics[n].topic == t && topics[n].subscribed == b { assert topics[n] == Choice(t, b); }
    if topics[n].topic != t && LastSaid(topics[..n], t, b) {
      var i :| 0 <= i < n && topics[..n][i] == Choice(t, b) && forall j | i < j < n :: topics[..n][j].topic != t;
      forall j | i < j < |topics| ensures topics[j].topic != t { if j < n { assert topics[..n][j].topic != t; } }
      assert topics[i] == Choice(t, b);
    }
    if topics[n].topic != t && LastSaid(topics, t, b) {
      var i :| 0 <= i < |topics| && topics[i] == Choice(t, b) && forall j | i < j < |topics| :: topics[j].topic != t;
      assert topics[..n][i] == Choice(t, b);
    }
  }

  // ---- What a batch leaves ----

  function FirstName(): Item -> Option<string> { (it: Item) => it.firstName }

  function LastName(): Item -> Option<string> { (it: Item) => it.lastName }

  function Flag(): Item -> Option<bool> { (it: Item) => it.unsubscribed }

  function Property(p: string): Item -> Option<string> { (it: Item) => Entry(it.properties, p) }

  function Topic(t: nat): Item -> Option<bool> { (it: Item) => Chosen(LastWins(it.topics), t) }

  lemma FieldEnds<T(!new)>(items: seq<Item>, k: string, f: Item -> Option<T>, g: Row -> Option<T>, stored: Option<T>)
    requires Follows(f, g) && RowOf(items, Upsert, k).Some?
    ensures EndsAs(items, k, f, stored, Or(g(RowOf(items, Upsert, k).value), stored))
  {
    RowLast(items, k, f, g);
    var v := g(RowOf(items, Upsert, k).value);
    if i :| LastAt(items, k, f, i) && v == f(items[i]) {
      assert LastAt(items, k, f, i) && Or(v, stored) == f(items[i]);
    }
  }

  lemma PropertyEnds(store: Store, items: seq<Item>, mint: Mint, k: string, p: string)
    requires k in Batch(store, items, Upsert, mint) && RowOf(items, Upsert, k).Some?
    ensures EndsAs(items, k, Property(p), if k in store then Entry(store[k].properties, p) else None,
                   Entry(Batch(store, items, Upsert, mint)[k].properties, p))
  {
    BatchLeaves(store, items, Upsert, mint, k);
    FieldEnds(items, k, Property(p), (r: Row) => Entry(r.properties, p),
              if k in store then Entry(store[k].properties, p) else None);
  }

  lemma TopicEnds(store: Store, items: seq<Item>, mint: Mint, k: string, t: nat)
    requires k in Batch(store, items, Upsert, mint) && RowOf(items, Upsert, k).Some?
    ensures EndsAs(items, k, Topic(t), if k in store then Chosen(store[k].topics, t) else None,
                   Chosen(Batch(store, items, Upsert, mint)[k].topics, t))
  {
    BatchLeaves(store, items, Upsert, mint, k);
    FieldEnds(items, k, Topic(t), (r: Row) => Chosen(r.topics, t),
              if k in store then Chosen(store[k].topics, t) else None);
  }

  /**
   * Under upsert each field of the contact left under a key is what the
   * key's last item to state it says, else what was stored.
   */
  lemma UpsertFields(store: Store, items: seq<Item>, mint: Mint, k: string)
    requires !Absent(items, k)
    ensures k in Batch(store, items, Upsert, mint)
    ensures var after, was := Batch(store, items, Upsert, mint)[k], Get(store, k);
            && EndsAs(items, k, FirstName(), if was.Some? then was.value.firstName else None, after.firstName)
            && EndsAs(items, k, LastName(), if was.Some? then was.value.lastName else None, after.lastName)
            && (forall p :: EndsAs(items, k, Property(p),
                                   if was.Some? then Entry(was.value.properties, p) else None,
                                   Entry(after.properties, p)))
            && (forall t :: EndsAs(items, k, Topic(t),
                                   if was.Some? then Chosen(was.value.topics, t) else None,
                                   Chosen(after.topics, t)))
  {
    BatchLeaves(store, items, Upsert, mint, k);
    RowHas(items, Upsert, k);
    assert Get(Batch(store, items, Upsert, mint), k).Some?;
    var was := Get(store, k);
    FieldEnds(items, k, FirstName(), (r: Row) => r.firstName, if was.Some? then was.value.firstName else None);
    FieldEnds(items, k, LastName(), (r: Row) => r.lastName, if was.Some? then was.value.lastName else None);
    forall p { PropertyEnds(store, items, mint, k, p); }
    forall t { TopicEnds(store, items, mint, k, t); }
  }

  /**
   * Under upsert a contact ends in the segments it was in and those its items
   * name, keeps its id and its email, and is out if it was or if the last
   * item that states the flag says so. A key no item has is left alone.
   */
  lemma UpsertRest(store: Store, items: seq<Item>, mint: Mint, k: string)
    ensures Absent(items, k) ==> Get(Batch(store, items, Upsert, mint), k) == Get(store, k)
    ensures !Absent(items, k) ==>
              && k in Batch(store, items, Upsert, mint)
              && var after := Batch(store, items, Upsert, mint)[k];
              && (forall s :: s in after.segments <==> (k in store && s in store[k].segments) || Names(items, k, s))
              && (after.unsubscribed <==> || (k in store && store[k].unsubscribed)
                                          || (exists i :: LastAt(items, k, Flag(), i)
                                                          && items[i].unsubscribed == Some(true)))
              && after.id == (if k in store then store[k].id else mint(k))
              && if k in store then after.email == store[k].email
                 else exists i :: FirstAt(items, k, i) && after.email == items[i].email
  {
    BatchLeaves(store, items, Upsert, mint, k);
    RowHas(items, Upsert, k);
    if !Absent(items, k) {
      assert Get(Batch(store, items, Upsert, mint), k).Some?;
      var i := RowFirst(items, Upsert, k);
      RowLast(items, k, Flag(), (r: Row) => r.unsubscribed);
      forall s { RowSegments(items, k, s); }
    }
  }

  /**
   * Under skip and error a stored contact is left as it was; a new one holds
   * what its key's first item says and nothing of the later ones.
   */
  lemma FirstItemHolds(store: Store, items: seq<Item>, mode: Mode, mint: Mint, k: string)
    requires mode != Upsert
    ensures k in store || Absent(items, k) ==> Get(Batch(store, items, mode, mint), k) == Get(store, k)
    ensures k !in store && !Absent(items, k) ==>
              && k in Batch(store, items, mode, mint)
              && var after := Batch(store, items, mode, mint)[k];
              exists i :: FirstAt(items, k, i) && Holds(after, items[i], mint(k))
  {
    BatchLeaves(store, items, mode, mint, k);
    RowHas(items, mode, k);
    if k !in store && !Absent(items, k) {
      assert Get(Batch(store, items, mode, mint), k).Some?;
      var i := RowFirst(items, mode, k);
      assert FirstAt(items, k, i) && Holds(Batch(store, items, mode, mint)[k], items[i], mint(k));
    }
  }

  /** The new contact with this id is what the item says. */
  ghost predicate Holds(c: Contact, it: Item, id: nat) {
    && c.id == id && c.email == it.email && c.firstName == it.firstName && c.lastName == it.lastName
    && (c.unsubscribed <==> it.unsubscribed == Some(true)) && c.properties == it.properties
    && (forall s :: s in c.segments <==> s in it.segments)
    && (forall t :: Chosen(c.topics, t) == Chosen(LastWins(it.topics), t))
  }
}
