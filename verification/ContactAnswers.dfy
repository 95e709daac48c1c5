/**
 * What a batch of contacts answers at each of its positions, said of the
 * request and of what an attempt reads (apps/api/src/app.ts): which item is
 * refused with which status, which is skipped, created or updated.
 */
module ContactAnswers {
  import opened Common
  import opened Contacts
  import opened ContactBatch

  // ---- The request alone ----

  /** The position holds a valid item under the key. */
  predicate Holding(entries: seq<Entry>, k: string, i: int) {
    0 <= i < |entries| && entries[i].Valid? && entries[i].item.key == k
  }

  ghost predicate HeldBefore(entries: seq<Entry>, k: string, i: int) { exists j | 0 <= j < i :: Holding(entries, k, j) }

  lemma RowsSnoc(entries: seq<Entry>, mode: Mode, k: string)
    requires entries != []
    ensures var n := |entries| - 1;
            var was := FindRow(CollapseEntries(entries[..n], mode), k);
            var now := FindRow(CollapseEntries(entries, mode), k);
            && (!Holding(entries, k, n) ==> now.Some? == was.Some?)
            && (Holding(entries, k, n) ==> now.Some?)
  {
    var n := |entries| - 1;
    CollapseOk(entries[..n], mode);
    if entries[n].Valid? { PlaceFinds(CollapseEntries(entries[..n], mode), n, entries[n].item, mode, k); }
  }

  lemma HeldOn(entries: seq<Entry>, k: string)
    requires entries != []
    ensures var n := |entries| - 1;
            HeldBefore(entries, k, n + 1) <==> HeldBefore(entries[..n], k, n) || Holding(entries, k, n)
  {
    var n := |entries| - 1;
    var front := entries[..n];
    if j :| 0 <= j < n && Holding(front, k, j) { assert Holding(entries, k, j); }
    if j :| 0 <= j < |entries| && Holding(entries, k, j) { if j < n { assert Holding(front, k, j); } }
  }

  /** A key has a row once an item holds it. */
  lemma {:induction false} HasRow(entries: seq<Entry>, mode: Mode, k: string)
    ensures FindRow(CollapseEntries(entries, mode), k).Some? <==> HeldBefore(entries, k, |entries|)
  {
    if entries != [] {
      var n := |entries| - 1;
      HasRow(entries[..n], mode, k);
      RowsSnoc(entries, mode, k);
      HeldOn(entries, k);
    }
  }

  /** What the collapse says of a position alone. */
  ghost function Opening(entries: seq<Entry>, mode: Mode, i: nat): Option<Result>
    requires i < |entries|
  {
    match entries[i]
    case Malformed(code) => Some(Failed(code))
    case Valid(item) => if mode == Error && HeldBefore(entries, item.key, i) then Some(Failed(422)) else None
  }

  lemma SameOpening(entries: seq<Entry>, mode: Mode, i: nat)
    requires i < |entries| - 1
    ensures Opening(entries, mode, i) == Opening(entries[..|entries| - 1], mode, i)
  {
    if entries[i].Valid? { SameBefore(entries, entries[i].item.key, i); }
  }

  lemma LastOpening(entries: seq<Entry>, mode: Mode)
    requires entries != []
    ensures |FirstResults(entries[..|entries| - 1], mode)| == |entries| - 1
    ensures FirstResults(entries, mode) ==
            FirstResults(entries[..|entries| - 1], mode) + [Opening(entries, mode, |entries| - 1)]
  {
    var n := |entries| - 1;
    CollapseOk(entries[..n], mode);
    if entries[n].Valid? {
      HasRow(entries[..n], mode, entries[n].item.key);
      SameBefore(entries, entries[n].item.key, n);
    }
  }

  /** The collapse answers a malformed item with its own error and, under error, an address's later items with 422. */
  lemma {:induction false} FirstIs(entries: seq<Entry>, mode: Mode, i: nat)
    requires i < |entries|
    ensures |FirstResults(entries, mode)| == |entries|
    ensures FirstResults(entries, mode)[i] ==
            match entries[i]
            case Malformed(code) => Some(Failed(code))
            case Valid(item) => if mode == Error && HeldBefore(entries, item.key, i) then Some(Failed(422)) else None
  {
    LastOpening(entries, mode);
    if i < |entries| - 1 {
      FirstIs(entries[..|entries| - 1], mode, i);
      SameOpening(entries, mode, i);
    }
  }

  lemma SameBefore(entries: seq<Entry>, k: string, i: nat)
    requires entries != [] && i < |entries|
    ensures HeldBefore(entries, k, i) <==> HeldBefore(entries[..|entries| - 1], k, i)
  {
    var front := entries[..|entries| - 1];
    if j :| 0 <= j < i && Holding(entries, k, j) { assert Holding(front, k, j); }
    if j :| 0 <= j < i && Holding(front, k, j) { assert Holding(entries, k, j); }
  }

  /** The positions a row answers for: its address's items, under error only the first; the first of them leads. */
  ghost predicate AnswersFor(entries: seq<Entry>, mode: Mode, row: Row) {
    && row.indices != []
    && Holding(entries, row.key, row.indices[0]) && !HeldBefore(entries, row.key, row.indices[0])
    && forall i :: i in row.indices <==>
                   Holding(entries, row.key, i) && (mode == Error ==> !HeldBefore(entries, row.key, i))
  }

  lemma HoldingOn(entries: seq<Entry>, k: string, i: int)
    requires entries != [] && i < |entries| - 1
    ensures Holding(entries, k, i) == Holding(entries[..|entries| - 1], k, i)
  {
  }

  /** A row of the front that takes the last position, or leaves it. */
  lemma AnswersOn(entries: seq<Entry>, mode: Mode, row: Row, more: Row)
    requires entries != [] && AnswersFor(entries[..|entries| - 1], mode, row) && more.key == row.key
    requires var n := |entries| - 1;
             more.indices == if Holding(entries, row.key, n) && mode != Error then row.indices + [n] else row.indices
    ensures AnswersFor(entries, mode, more)
  {
    var n := |entries| - 1;
    var front := entries[..n];
    var lead := row.indices[0];
    SameBefore(entries, row.key, lead);
    assert Holding(entries, row.key, lead);
    if Holding(entries, row.key, n) { assert HeldBefore(entries, row.key, n); }
    forall i ensures i in more.indices <==>
                     Holding(entries, row.key, i) && (mode == Error ==> !HeldBefore(entries, row.key, i))
    {
      if 0 <= i < n {
        HoldingOn(entries, row.key, i);
        SameBefore(entries, row.key, i);
      }
    }
  }

  /** Each row answers for its address's items. */
  lemma {:induction false} RowAnswers(entries: seq<Entry>, mode: Mode, r: nat)
    requires r < |CollapseEntries(entries, mode)|
    ensures AnswersFor(entries, mode, CollapseEntries(entries, mode)[r])
  {
    var n := |entries| - 1;
    var rows := CollapseEntries(entries[..n], mode);
    var after := CollapseEntries(entries, mode);
    CollapseOk(entries[..n], mode);
    if r < |rows| {
      RowAnswers(entries[..n], mode, r);
      if entries[n].Valid? && entries[n].item.key == rows[r].key { assert FindRow(rows, rows[r].key) == Some(r); }
      AnswersOn(entries, mode, rows[r], after[r]);
    } else {
      var k := entries[n].item.key;
      HasRow(entries[..n], mode, k);
      SameBefore(entries, k, n);
      assert after[r] == NewRow(n, entries[n].item);
      forall i ensures i == n <==> Holding(entries, k, i) && (mode == Error ==> !HeldBefore(entries, k, i)) {
        if 0 <= i < n { HoldingOn(entries, k, i); }
      }
    }
  }

  // ---- An attempt ----

  /** The row names only segments and topics of the team. */
  ghost predicate Known(row: Row, a: Attempt) {
    (forall s | s in row.segments :: s in a.segments) && forall t | t in row.topics :: t in a.topics
  }

  /** The row asks for a contact that is to be new and may be. */
  ghost predicate WouldBeNew(row: Row, a: Attempt, refused: set<string>) {
    Known(row, a) && row.key !in a.contacts && row.key !in refused
  }

  /** How many open rows ask for one. */
  ghost function Newcomers(rows: seq<Row>, answers: Answers, a: Attempt, refused: set<string>): set<nat>
    requires |answers| == |rows|
  {
    set r: nat | r < |rows| && answers[r].None? && WouldBeNew(rows[r], a, refused)
  }

  lemma JudgeIs(row: Row, a: Attempt, mode: Mode, refused: set<string>)
    ensures Judge(row, a, mode, refused) ==
            if !Known(row, a) then Refuse(404)
            else if row.key !in a.contacts && row.key in refused then Refuse(422)
            else if row.key !in a.contacts then Insert
            else match mode
              case Error => Refuse(409)
              case Skip => Leave(a.contacts[row.key].id)
              case Upsert => Update
  {
  }

  ghost function Members(picked: seq<nat>): set<nat> { set p | p in picked }

  lemma {:induction false} SizeOfPicks(picked: seq<nat>)
    requires forall x, y | 0 <= x < y < |picked| :: picked[x] != picked[y]
    ensures |Members(picked)| == |picked|
  {
    if picked != [] {
      var n := |picked| - 1;
      SizeOfPicks(picked[..n]);
      assert picked == picked[..n] + [picked[n]];
      assert picked[n] !in Members(picked[..n]);
      assert Members(picked) == Members(picked[..n]) + {picked[n]};
    }
  }

  lemma InsertsAre(rows: seq<Row>, answers: Answers, a: Attempt, mode: Mode, refused: set<string>)
    requires |answers| == |rows|
    ensures var inserts := Picks(rows, |rows|, answers, a, mode, refused, Insert);
            && |inserts| == |Newcomers(rows, answers, a, refused)|
            && forall r: nat :: r in inserts <==> r in Newcomers(rows, answers, a, refused)
  {
    var inserts := Picks(rows, |rows|, answers, a, mode, refused, Insert);
    PicksAre(rows, |rows|, answers, a, mode, refused, Insert);
    SizeOfPicks(inserts);
    forall r: nat | r < |rows| ensures Judge(rows[r], a, mode, refused) == Insert <==> WouldBeNew(rows[r], a, refused) {
      JudgeIs(rows[r], a, mode, refused);
    }
    assert Members(inserts) == Newcomers(rows, answers, a, refused);
  }

  /**
   * What an attempt that commits answers a row it found open: 404 for a
   * foreign segment or topic, 422 for an address that takes no mail, 403 for
   * a new contact when the new ones outnumber the room, 409 or the stored
   * contact untouched where one is stored, else the contact written.
   */
  lemma RowTold(rows: seq<Row>, answers: Answers, a: Attempt, mode: Mode, refused: set<string>,
                mint: Mint, r: nat)
    requires |answers| == |rows| && r < |rows| && answers[r].None?
    ensures var k := rows[r].key;
            ToldBy(rows, answers, a, mode, refused, true, mint)[r] ==
            Some(if !Known(rows[r], a) then Failed(404)
                 else if k !in a.contacts && k in refused then Failed(422)
                 else if k !in a.contacts then
                   (if a.room.Some? && |Newcomers(rows, answers, a, refused)| > a.room.value then Failed(403)
                    else Ok(mint(k), Created))
                 else match mode
                   case Error => Failed(409)
                   case Skip => Ok(a.contacts[k].id, Skipped)
                   case Upsert => Ok(a.contacts[k].id, Updated))
  {
    JudgeIs(rows[r], a, mode, refused);
    InsertsAre(rows, answers, a, mode, refused);
    PicksAre(rows, |rows|, answers, a, mode, refused, Update);
  }

  // ---- Each position ----

  /**
   * A position answers what its row does, except that under skip only the
   * first item of an address can be told it was written; a position of no row
   * keeps what the collapse said.
   */
  lemma PositionAnswers(rows: seq<Row>, first: Results, answers: Answers, mode: Mode, r: nat, i: nat)
    requires Fit(rows, first) && |answers| == |rows| && i < |first|
    ensures (r < |rows| && i in rows[r].indices ==>
               Spread(rows, first, answers, mode)[i] ==
               if mode == Skip && i != rows[r].indices[0] && answers[r].Some? && answers[r].value.Ok?
               then Some(Ok(answers[r].value.id, Skipped)) else answers[r])
    ensures (forall q | 0 <= q < |rows| :: i !in rows[q].indices) ==> Spread(rows, first, answers, mode)[i] == first[i]
  {
    OwnerHas(rows, i);
    if r < |rows| && i in rows[r].indices { OwnerIs(rows, |first|, r, i); }
  }
}
