/**
 * What a batch of contact writes leaves on the tables
 * (apps/api/src/app.ts, the batch shared by POST /contacts/batch and
 * POST /contacts): in-batch collapsing, the three conflict modes, and the
 * agreement with writing the items one at a time.
 */
module Contacts {
  import opened Common

  datatype Mode = Error | Skip | Upsert

  datatype Choice = Choice(topic: nat, subscribed: bool)

  /** One item; `key` is its email in lower case, `properties` already coerced. */
  datatype Item = Item(
    email: string,
    key: string,
    firstName: Option<string>,
    lastName: Option<string>,
    unsubscribed: Option<bool>,
    properties: map<string, string>,
    segments: seq<nat>,
    topics: seq<Choice>)

  /** One write per key, and the request positions it answers for. */
  datatype Row = Row(
    indices: seq<nat>,
    key: string,
    email: string,
    firstName: Option<string>,
    lastName: Option<string>,
    unsubscribed: Option<bool>,
    properties: map<string, string>,
    segments: set<nat>,
    topics: map<nat, bool>)

  /** A stored contact with its memberships and topic choices. */
  datatype Contact = Contact(
    id: nat,
    email: string,
    firstName: Option<string>,
    lastName: Option<string>,
    unsubscribed: bool,
    properties: map<string, string>,
    segments: set<nat>,
    topics: map<nat, bool>)

  /** The team's contacts by lower-cased email, the key of the unique index. */
  type Store = map<string, Contact>

  /** The id the database gives a contact it inserts under a key. */
  type Mint = string -> nat

  function Get(store: Store, k: string): Option<Contact> { if k in store then Some(store[k]) else None }

  function Or<T>(first: Option<T>, second: Option<T>): Option<T> { if first.Some? then first else second }

  /** An item may choose about one topic more than once; what it says last counts. */
  function LastWins(topics: seq<Choice>): map<nat, bool>
  {
    if topics == [] then map[] else
      var n := |topics| - 1;
      LastWins(topics[..n])[topics[n].topic := topics[n].subscribed]
  }

  function SegmentSet(segments: seq<nat>): set<nat> { set id | id in segments }

  function NewRow(i: nat, item: Item): Row
  {
    Row([i], item.key, item.email, item.firstName, item.lastName, item.unsubscribed, item.properties,
        SegmentSet(item.segments), LastWins(item.topics))
  }

  /** A later item under a key already seen: skip keeps the first, upsert overrides scalars and unites the rest. */
  function Merge(row: Row, i: nat, item: Item, mode: Mode): Row
  {
    if mode.Upsert? then
      Row(row.indices + [i], row.key, row.email, Or(item.firstName, row.firstName), Or(item.lastName, row.lastName),
          Or(item.unsubscribed, row.unsubscribed), row.properties + item.properties,
          row.segments + SegmentSet(item.segments), row.topics + LastWins(item.topics))
    else row.(indices := row.indices + [i])
  }

  function FindRow(rows: seq<Row>, k: string): (r: Option<nat>)
    ensures r.Some? ==> r.value < |rows| && rows[r.value].key == k
    ensures r.None? ==> forall i | 0 <= i < |rows| :: rows[i].key != k
  {
    if rows == [] then None
    else if rows[|rows| - 1].key == k then Some(|rows| - 1)
    else FindRow(rows[..|rows| - 1], k)
  }

  /** The rows a list of valid items collapses to, in order of first occurrence. */
  function Collapse(items: seq<Item>, mode: Mode): seq<Row>
  {
    if items == [] then [] else
      var n := |items| - 1;
      Place(Collapse(items[..n], mode), n, items[n], mode)
  }

  function Place(rows: seq<Row>, i: nat, item: Item, mode: Mode): seq<Row>
  {
    match FindRow(rows, item.key)
    case None => rows + [NewRow(i, item)]
    case Some(r) => if mode.Error? then rows else rows[r := Merge(rows[r], i, item, mode)]
  }

  predicate DistinctKeys(rows: seq<Row>)
  {
    forall i, j | 0 <= i < j < |rows| :: rows[i].key != rows[j].key
  }

  /** The contact a row leaves. A stored contact is never subscribed again. */
  function Written(found: Option<Contact>, row: Row, id: nat): Contact
  {
    match found
    case None => Contact(id, row.email, row.firstName, row.lastName, row.unsubscribed == Some(true),
                         row.properties, row.segments, row.topics)
    case Some(c) => Contact(c.id, c.email, Or(row.firstName, c.firstName), Or(row.lastName, c.lastName),
                            c.unsubscribed || row.unsubscribed == Some(true), c.properties + row.properties,
                            c.segments + row.segments, c.topics + row.topics)
  }

  /** Under error and skip a stored contact is left alone. */
  predicate Writes(store: Store, row: Row, mode: Mode) { row.key !in store || mode.Upsert? }

  function WriteRow(store: Store, row: Row, mode: Mode, mint: Mint): Store
  {
    if Writes(store, row, mode) then store[row.key := Written(Get(store, row.key), row, mint(row.key))] else store
  }

  function WriteRows(store: Store, rows: seq<Row>, mode: Mode, mint: Mint): Store
  {
    if rows == [] then store else
      WriteRow(WriteRows(store, rows[..|rows| - 1], mode, mint), rows[|rows| - 1], mode, mint)
  }

  /** A whole batch of valid items. */
  function Batch(store: Store, items: seq<Item>, mode: Mode, mint: Mint): Store
  {
    WriteRows(store, Collapse(items, mode), mode, mint)
  }

  function OneByOne(store: Store, items: seq<Item>, mode: Mode, mint: Mint): Store
  {
    if items == [] then store else
      Batch(OneByOne(store, items[..|items| - 1], mode, mint), [items[|items| - 1]], mode, mint)
  }

  // ---- Rows, key by key ----

  lemma {:induction false} CollapseDistinct(items: seq<Item>, mode: Mode)
    ensures DistinctKeys(Collapse(items, mode))
  {
    if items != [] { CollapseDistinct(items[..|items| - 1], mode); }
  }

  /** With distinct keys, a write touches its own key only, and reads what was there at first. */
  lemma {:induction false} WriteRowsAt(store: Store, rows: seq<Row>, mode: Mode, mint: Mint, k: string)
    requires DistinctKeys(rows)
    ensures var r := FindRow(rows, k);
            Get(WriteRows(store, rows, mode, mint), k) ==
            if r.Some? && Writes(store, rows[r.value], mode)
            then Some(Written(Get(store, k), rows[r.value], mint(k))) else Get(store, k)
  {
    if rows != [] {
      var n := |rows| - 1;
      WriteRowsAt(store, rows[..n], mode, mint, k);
      WriteRowsAt(store, rows[..n], mode, mint, rows[n].key);
    }
  }

  lemma BatchAt(store: Store, items: seq<Item>, mode: Mode, mint: Mint, k: string)
    ensures var rows := Collapse(items, mode);
            var r := FindRow(rows, k);
            Get(Batch(store, items, mode, mint), k) ==
            if r.Some? && Writes(store, rows[r.value], mode)
            then Some(Written(Get(store, k), rows[r.value], mint(k))) else Get(store, k)
  {
    CollapseDistinct(items, mode);
    WriteRowsAt(store, Collapse(items, mode), mode, mint, k);
  }

  lemma SingleAt(store: Store, item: Item, mode: Mode, mint: Mint, k: string)
    ensures Get(Batch(store, [item], mode, mint), k) ==
            if item.key == k && Writes(store, NewRow(0, item), mode)
            then Some(Written(Get(store, k), NewRow(0, item), mint(k))) else Get(store, k)
  {
    assert [item][..0] == [];
    assert Collapse([item], mode) == [NewRow(0, item)];
    BatchAt(store, [item], mode, mint, k);
  }

  /** What an item makes of the row under its key. */
  function Placed(row: Option<Row>, i: nat, item: Item, mode: Mode): Row
  {
    if row.None? then NewRow(i, item) else if mode.Error? then row.value else Merge(row.value, i, item, mode)
  }

  lemma {:induction false} PlaceFinds(rows: seq<Row>, i: nat, item: Item, mode: Mode, k: string)
    requires DistinctKeys(rows)
    ensures var after := Place(rows, i, item, mode);
            var r := FindRow(rows, k);
            var s := FindRow(after, k);
            && (k != item.key ==> s.Some? == r.Some? && (s.Some? ==> after[s.value] == rows[r.value]))
            && (k == item.key ==>
                  s.Some? && after[s.value] == Placed(if r.Some? then Some(rows[r.value]) else None, i, item, mode))
  {
    var after := Place(rows, i, item, mode);
    var r := FindRow(rows, k);
    var s := FindRow(after, k);
    if r.Some? { assert after[r.value].key == k; }
    if s.Some? && s.value < |rows| { assert rows[s.value].key == k; }
  }

  // ---- A batch equals its items one at a time ----

  function NoFlag(c: Option<Contact>): Option<Contact>
  {
    match c
    case None => None
    case Some(v) => Some(v.(unsubscribed := false))
  }

  /** Writing a row and then an item is writing the row with the item merged in, the flag aside. */
  lemma MergeThenWrite(found: Option<Contact>, row: Row, i: nat, item: Item, id: nat, flag: bool)
    ensures var once := Written(found, row, id).(unsubscribed := flag);
            NoFlag(Some(Written(Some(once), NewRow(0, item), id)))
                == NoFlag(Some(Written(found, Merge(row, i, item, Upsert), id)))
  {
    if found.Some? {
      var c := found.value;
      assert (c.properties + row.properties) + item.properties == c.properties + (row.properties + item.properties);
      assert (c.topics + row.topics) + LastWins(item.topics) == c.topics + (row.topics + LastWins(item.topics));
      assert (c.segments + row.segments) + SegmentSet(item.segments)
          == c.segments + (row.segments + SegmentSet(item.segments));
    }
  }

  /** What a key's row leaves of what was stored under it. */
  function Left(found: Option<Contact>, row: Option<Row>, mode: Mode, id: nat): Option<Contact>
  {
    if row.Some? && (found.None? || mode.Upsert?) then Some(Written(found, row.value, id)) else found
  }

  /** One more item under the key, whether collapsed into the row or written after it. */
  lemma OneMore(found: Option<Contact>, row: Option<Row>, i: nat, item: Item, mode: Mode, id: nat, o: Option<Contact>)
    requires NoFlag(Left(found, row, mode, id)) == NoFlag(o)
    requires !mode.Upsert? ==> Left(found, row, mode, id) == o
    ensures var b := Left(found, Some(Placed(row, i, item, mode)), mode, id);
            var o' := Left(o, Some(NewRow(0, item)), mode, id);
            NoFlag(b) == NoFlag(o') && (!mode.Upsert? ==> b == o')
  {
    if mode.Upsert? && row.Some? {
      MergeThenWrite(found, row.value, i, item, id, o.value.unsubscribed);
    }
  }

  function RowOf(items: seq<Item>, mode: Mode, k: string): Option<Row>
  {
    var rows := Collapse(items, mode);
    var r := FindRow(rows, k);
    if r.Some? then Some(rows[r.value]) else None
  }

  lemma BatchLeaves(store: Store, items: seq<Item>, mode: Mode, mint: Mint, k: string)
    ensures Get(Batch(store, items, mode, mint), k) == Left(Get(store, k), RowOf(items, mode, k), mode, mint(k))
  {
    BatchAt(store, items, mode, mint, k);
  }

  lemma SingleLeaves(store: Store, item: Item, mode: Mode, mint: Mint, k: string)
    ensures Get(Batch(store, [item], mode, mint), k) ==
            if item.key == k then Left(Get(store, k), Some(NewRow(0, item)), mode, mint(k)) else Get(store, k)
  {
    SingleAt(store, item, mode, mint, k);
  }

  lemma RowOfSnoc(items: seq<Item>, mode: Mode, k: string)
    requires items != []
    ensures var n := |items| - 1;
            RowOf(items, mode, k) ==
            if items[n].key == k then Some(Placed(RowOf(items[..n], mode, k), n, items[n], mode))
                else RowOf(items[..n], mode, k)
  {
    var n := |items| - 1;
    CollapseDistinct(items[..n], mode);
    PlaceFinds(Collapse(items[..n], mode), n, items[n], mode, k);
  }

  lemma {:induction false} SameAt(store: Store, items: seq<Item>, mode: Mode, mint: Mint, k: string)
    ensures var b := Get(Batch(store, items, mode, mint), k);
            var o := Get(OneByOne(store, items, mode, mint), k);
            NoFlag(b) == NoFlag(o) && (!mode.Upsert? ==> b == o)
  {
    BatchLeaves(store, items, mode, mint, k);
    if items != [] {
      var n := |items| - 1;
      SameAt(store, items[..n], mode, mint, k);
      BatchLeaves(store, items[..n], mode, mint, k);
      SingleLeaves(OneByOne(store, items[..n], mode, mint), items[n], mode, mint, k);
      RowOfSnoc(items, mode, k);
      var o := Get(OneByOne(store, items[..n], mode, mint), k);
      OneMore(Get(store, k), RowOf(items[..n], mode, k), n, items[n], mode, mint(k), o);
    }
  }

  /** Some item under the key asks to unsubscribe. */
  predicate AnyUnsubscribes(items: seq<Item>, k: string)
  {
    exists i | 0 <= i < |items| :: items[i].key == k && items[i].unsubscribed == Some(true)
  }

  /** The last flag an item under the key states. */
  function LastFlag(items: seq<Item>, k: string): Option<bool>
  {
    if items == [] then None else
      var n := |items| - 1;
      Or(if items[n].key == k then items[n].unsubscribed else None, LastFlag(items[..n], k))
  }

  lemma {:induction false} LastFlagTrue(items: seq<Item>, k: string)
    requires LastFlag(items, k) == Some(true)
    ensures AnyUnsubscribes(items, k)
  {
    var n := |items| - 1;
    if items[n].key != k || items[n].unsubscribed.None? {
      LastFlagTrue(items[..n], k);
      var i :| 0 <= i < n && items[..n][i].key == k && items[..n][i].unsubscribed == Some(true);
      assert items[i] == items[..n][i];
    }
  }

  lemma {:induction false} RowFlag(items: seq<Item>, k: string)
    ensures var row := RowOf(items, Upsert, k);
            if row.Some? then row.value.unsubscribed == LastFlag(items, k)
            else LastFlag(items, k).None? && !AnyUnsubscribes(items, k)
  {
    if items != [] {
      var n := |items| - 1;
      RowFlag(items[..n], k);
      RowOfSnoc(items, Upsert, k);
      AnySnoc(items, k);
    }
  }

  lemma AnySnoc(items: seq<Item>, k: string)
    requires items != []
    ensures var n := |items| - 1;
            AnyUnsubscribes(items, k) <==>
            AnyUnsubscribes(items[..n], k) || (items[n].key == k && items[n].unsubscribed == Some(true))
  {
    var n := |items| - 1;
    if AnyUnsubscribes(items[..n], k) {
      var i :| 0 <= i < n && items[..n][i].key == k && items[..n][i].unsubscribed == Some(true);
      assert items[i] == items[..n][i];
    }
    if AnyUnsubscribes(items, k) {
      var i :| 0 <= i < |items| && items[i].key == k && items[i].unsubscribed == Some(true);
      if i < n { assert items[..n][i] == items[i]; }
    }
  }

  lemma {:induction false} OneByOneFlag(store: Store, items: seq<Item>, mint: Mint, k: string)
    ensures var o := Get(OneByOne(store, items, Upsert, mint), k);
            if o.Some? then o.value.unsubscribed <==> (k in store && store[k].unsubscribed) || AnyUnsubscribes(items, k)
            else k !in store && !AnyUnsubscribes(items, k)
  {
    if items != [] {
      var n := |items| - 1;
      OneByOneFlag(store, items[..n], mint, k);
      SingleLeaves(OneByOne(store, items[..n], Upsert, mint), items[n], Upsert, mint, k);
      AnySnoc(items, k);
    }
  }

  lemma SameKeys(a: Store, b: Store)
    requires forall k :: NoFlag(Get(a, k)) == NoFlag(Get(b, k))
    ensures a.Keys == b.Keys
  {
    forall k ensures k in a <==> k in b {
      assert k in a <==> NoFlag(Get(a, k)).Some?;
      assert k in b <==> NoFlag(Get(b, k)).Some?;
    }
  }

  lemma SameStores(a: Store, b: Store)
    requires a.Keys == b.Keys && forall k :: Get(a, k) == Get(b, k)
    ensures a == b
  {
    forall k | k in a ensures a[k] == b[k] { assert Get(a, k) == Get(b, k); }
  }

  /**
   * With every item valid and room enough, a batch leaves what its items
   * leave one at a time: wholly under error and skip; under upsert in all but
   * the global unsubscribed flag.
   */
  lemma BatchEqualsOneByOne(store: Store, items: seq<Item>, mode: Mode, mint: Mint)
    ensures !mode.Upsert? ==> Batch(store, items, mode, mint) == OneByOne(store, items, mode, mint)
    ensures Batch(store, items, mode, mint).Keys == OneByOne(store, items, mode, mint).Keys
    ensures forall k ::
              NoFlag(Get(Batch(store, items, mode, mint), k)) == NoFlag(Get(OneByOne(store, items, mode, mint), k))
  {
    var b := Batch(store, items, mode, mint);
    var o := OneByOne(store, items, mode, mint);
    forall k: string ensures NoFlag(Get(b, k)) == NoFlag(Get(o, k)) && (!mode.Upsert? ==> Get(b, k) == Get(o, k)) {
      SameAt(store, items, mode, mint, k);
    }
    SameKeys(b, o);
    if !mode.Upsert? { SameStores(b, o); }
  }

  /**
   * The flag too agrees exactly when the stored contact is already out, no
   * item asks to unsubscribe, or the last item that states the flag does: a
   * batch lets a later false undo an earlier true, a sequence does not.
   */
  lemma UpsertFlagAgreesIff(store: Store, items: seq<Item>, mint: Mint, k: string)
    requires k in Batch(store, items, Upsert, mint)
    ensures k in OneByOne(store, items, Upsert, mint)
    ensures Batch(store, items, Upsert, mint)[k].unsubscribed == OneByOne(store, items, Upsert, mint)[k].unsubscribed
            <==> || (k in store && store[k].unsubscribed)
                 || !AnyUnsubscribes(items, k)
                 || LastFlag(items, k) == Some(true)
  {
    SameAt(store, items, Upsert, mint, k);
    BatchLeaves(store, items, Upsert, mint, k);
    RowFlag(items, k);
    OneByOneFlag(store, items, mint, k);
    if LastFlag(items, k) == Some(true) { LastFlagTrue(items, k); }
    assert Get(OneByOne(store, items, Upsert, mint), k).Some?;
  }

  // ---- What an upsert can never do ----

  /** No batch, whatever its items ask, subscribes a stored contact again or replaces it. */
  lemma NeverSubscribesAgain(store: Store, items: seq<Item>, mode: Mode, mint: Mint, k: string)
    requires k in store
    ensures k in Batch(store, items, mode, mint)
    ensures var after := Batch(store, items, mode, mint)[k];
            after.id == store[k].id && (store[k].unsubscribed ==> after.unsubscribed)
  {
    BatchLeaves(store, items, mode, mint, k);
    assert Get(Batch(store, items, mode, mint), k).Some?;
  }

  /** Items that only opt out keep every opt-out of the contact. */
  lemma UpsertKeepsOptOuts(store: Store, items: seq<Item>, mode: Mode, mint: Mint, k: string)
    requires k in store
    requires forall i | 0 <= i < |items| && items[i].key == k ::
               forall c | c in items[i].topics :: !c.subscribed
    ensures k in Batch(store, items, mode, mint)
    ensures var after := Batch(store, items, mode, mint)[k];
            forall topic | topic in store[k].topics && !store[k].topics[topic] ::
              topic in after.topics && !after.topics[topic]
  {
    BatchLeaves(store, items, mode, mint, k);
    RowOnlyOptsOut(items, mode, k);
    assert Get(Batch(store, items, mode, mint), k).Some?;
  }

  lemma {:induction false} RowOnlyOptsOut(items: seq<Item>, mode: Mode, k: string)
    requires forall i | 0 <= i < |items| && items[i].key == k ::
               forall c | c in items[i].topics :: !c.subscribed
    ensures var row := RowOf(items, mode, k);
            row.Some? ==> forall topic | topic in row.value.topics :: !row.value.topics[topic]
  {
    if items != [] {
      var n := |items| - 1;
      forall i | 0 <= i < n && items[..n][i].key == k ensures forall c | c in items[..n][i].topics :: !c.subscribed {
        assert items[..n][i] == items[i];
      }
      RowOnlyOptsOut(items[..n], mode, k);
      RowOfSnoc(items, mode, k);
      LastWinsFrom(items[n].topics);
    }
  }

  lemma {:induction false} LastWinsFrom(topics: seq<Choice>)
    ensures forall topic | topic in LastWins(topics) :: Choice(topic, LastWins(topics)[topic]) in topics
  {
    if topics != [] { LastWinsFrom(topics[..|topics| - 1]); }
  }
}
