/**
 * The batch contact write as it runs (apps/api/src/app.ts): collapse the
 * request, then up to three attempts, each classifying what is still open
 * against what it reads and writing it in one transaction that other writers
 * may make fail.
 */
module ContactBatch {
  import opened Common
  import opened Contacts

  datatype Status = Created | Updated | Skipped

  datatype Result = Ok(id: nat, status: Status) | Failed(code: nat)

  /** A request item, or the error its shape or its properties already earned it. */
  datatype Entry = Malformed(code: nat) | Valid(item: Item)

  /** A unique or foreign-key violation is retried; any other failure is thrown. */
  datatype Ending = Commits | Violates | Breaks

  /** What one attempt reads, and how its transaction would end. */
  datatype Attempt = Attempt(contacts: Store, segments: set<nat>, topics: set<nat>, room: Option<nat>, ending: Ending)

  const ATTEMPTS := 3

  type Results = seq<Option<Result>>

  // ---- The request collapses to rows ----

  function CollapseEntries(entries: seq<Entry>, mode: Mode): seq<Row>
  {
    if entries == [] then [] else
      var n := |entries| - 1;
      var rows := CollapseEntries(entries[..n], mode);
      match entries[n]
      case Malformed(_) => rows
      case Valid(item) => Place(rows, n, item, mode)
  }

  /** What the collapse alone decides: malformed items, and under error a repeated email. */
  function FirstResults(entries: seq<Entry>, mode: Mode): Results
  {
    if entries == [] then [] else
      var n := |entries| - 1;
      FirstResults(entries[..n], mode) +
      [match entries[n]
       case Malformed(code) => Some(Failed(code))
       case Valid(item) =>
         if mode.Error? && FindRow(CollapseEntries(entries[..n], mode), item.key).Some? then Some(Failed(422))
             else None]
  }

  ghost predicate RowsOk(rows: seq<Row>, n: nat)
  {
    && DistinctKeys(rows)
    && (forall r | 0 <= r < |rows| :: rows[r].indices != [] && rows[r].indices[0] < n)
    && (forall r, i | 0 <= r < |rows| && i in rows[r].indices :: i < n)
    && (forall r, q, i | 0 <= r < q < |rows| && i in rows[r].indices :: i !in rows[q].indices)
  }

  ghost predicate InSomeRow(rows: seq<Row>, i: nat) { exists r :: 0 <= r < |rows| && i in rows[r].indices }

  /** Every unresolved position belongs to a row. */
  ghost predicate Covered(rows: seq<Row>, results: Results)
  {
    forall i | 0 <= i < |results| && results[i].None? :: InSomeRow(rows, i)
  }

  /** No row has a result yet. */
  ghost predicate Untouched(rows: seq<Row>, results: Results)
    requires RowsOk(rows, |results|)
  {
    forall r, i | 0 <= r < |rows| && i in rows[r].indices :: results[i].None?
  }

  /** The rows hold, once each, the positions the collapse left without a result. */
  ghost predicate Fit(rows: seq<Row>, first: Results)
  {
    RowsOk(rows, |first|) && Untouched(rows, first) && Covered(rows, first)
  }

  /** A position joins a row, or starts one. */
  lemma JoinOk(rows: seq<Row>, first: Results, r: nat, row: Row)
    requires Fit(rows, first) && r < |rows|
    requires row.key == rows[r].key && row.indices == rows[r].indices + [|first|]
    ensures Fit(rows[r := row], first + [None])
  {
    var after := rows[r := row];
    forall i | 0 <= i < |first| && first[i].None? ensures InSomeRow(after, i) {
      assert InSomeRow(rows, i);
      var q :| 0 <= q < |rows| && i in rows[q].indices;
      assert i in after[q].indices;
    }
    assert |first| in after[r].indices;
  }

  lemma StartOk(rows: seq<Row>, first: Results, row: Row)
    requires Fit(rows, first) && row.indices == [|first|]
    requires forall r | 0 <= r < |rows| :: rows[r].key != row.key
    ensures Fit(rows + [row], first + [None])
  {
    var after := rows + [row];
    forall i | 0 <= i < |first| && first[i].None? ensures InSomeRow(after, i) {
      assert InSomeRow(rows, i);
      var q :| 0 <= q < |rows| && i in rows[q].indices;
      assert i in after[q].indices;
    }
    assert |first| in after[|rows|].indices;
  }

  lemma ResolvedOk(rows: seq<Row>, first: Results, result: Result)
    requires Fit(rows, first)
    ensures Fit(rows, first + [Some(result)])
  {
    forall i | 0 <= i < |first| && first[i].None? ensures InSomeRow(rows, i) { assert InSomeRow(rows, i); }
  }

  lemma {:induction false} CollapseOk(entries: seq<Entry>, mode: Mode)
    ensures |FirstResults(entries, mode)| == |entries|
    ensures Fit(CollapseEntries(entries, mode), FirstResults(entries, mode))
  {
    if entries != [] {
      var n := |entries| - 1;
      CollapseOk(entries[..n], mode);
      var rows := CollapseEntries(entries[..n], mode);
      var first := FirstResults(entries[..n], mode);
      match entries[n]
      case Malformed(code) => ResolvedOk(rows, first, Failed(code));
      case Valid(item) =>
        var found := FindRow(rows, item.key);
        if found.None? {
          StartOk(rows, first, NewRow(n, item));
        } else if mode.Error? {
          ResolvedOk(rows, first, Failed(422));
        } else {
          JoinOk(rows, first, found.value, Merge(rows[found.value], n, item, mode));
        }
    }
  }

  function Items(entries: seq<Entry>): seq<Item>
    requires forall e | e in entries :: e.Valid?
  {
    seq(|entries|, i requires 0 <= i < |entries| => assert entries[i] in entries; entries[i].item)
  }

  lemma {:induction false} AllValidCollapse(entries: seq<Entry>, mode: Mode)
    requires forall e | e in entries :: e.Valid?
    ensures CollapseEntries(entries, mode) == Collapse(Items(entries), mode)
  {
    if entries != [] {
      var n := |entries| - 1;
      AllValidCollapse(entries[..n], mode);
      assert Items(entries)[..n] == Items(entries[..n]);
      assert entries[n] in entries;
    }
  }

  // ---- One attempt ----

  datatype Verdict = Refuse(code: nat) | Insert | Update | Leave(id: nat)

  /** `refused`: keys whose domain takes no mail; only a new contact is turned away for it. */
  function Judge(row: Row, a: Attempt, mode: Mode, refused: set<string>): Verdict
  {
    if !(row.segments <= a.segments) then Refuse(404)
    else if !(row.topics.Keys <= a.topics) then Refuse(404)
    else if row.key !in a.contacts then (if row.key in refused then Refuse(422) else Insert)
    else match mode
      case Error => Refuse(409)
      case Skip => Leave(a.contacts[row.key].id)
      case Upsert => Update
  }

  /** What the positions collapsed into a row answer: under skip the first occurrence won. */
  function Echo(result: Result, mode: Mode): Result
  {
    if result.Ok? && mode.Skip? then result.(status := Skipped) else result
  }

  function Settle(results: Results, row: Row, result: Result, mode: Mode): (after: Results)
    requires row.indices != []
    ensures |after| == |results|
  {
    seq(|results|, i requires 0 <= i < |results| =>
      if i == row.indices[0] then Some(result)
      else if i in row.indices then Some(Echo(result, mode)) else results[i])
  }

  /** The row a position belongs to. */
  function Owner(rows: seq<Row>, i: nat): (r: Option<nat>)
    ensures r.Some? ==> r.value < |rows|
  {
    if rows == [] then None
    else if i in rows[|rows| - 1].indices then Some(|rows| - 1) else Owner(rows[..|rows| - 1], i)
  }

  /** One answer per row, if it has one yet. */
  type Answers = seq<Option<Result>>

  /** The answers spread over the request's positions. */
  function Spread(rows: seq<Row>, first: Results, answers: Answers, mode: Mode): (results: Results)
    requires |answers| == |rows| && forall r | 0 <= r < |rows| :: rows[r].indices != []
    ensures |results| == |first|
  {
    seq(|first|, i requires 0 <= i < |first| =>
      match Owner(rows, i)
      case None => first[i]
      case Some(r) =>
        if answers[r].None? || i == rows[r].indices[0] then answers[r] else Some(Echo(answers[r].value, mode)))
  }

  lemma {:induction false} OwnerHas(rows: seq<Row>, i: nat)
    ensures var r := Owner(rows, i);
            && (r.Some? ==> i in rows[r.value].indices)
            && (r.None? ==> forall q | 0 <= q < |rows| :: i !in rows[q].indices)
  {
    if rows != [] { OwnerHas(rows[..|rows| - 1], i); }
  }

  lemma OwnerIs(rows: seq<Row>, n: nat, r: nat, i: nat)
    requires RowsOk(rows, n) && r < |rows| && i in rows[r].indices
    ensures Owner(rows, i) == Some(r)
  {
    OwnerHas(rows, i);
  }

  lemma LeadIs(rows: seq<Row>, first: Results, answers: Answers, mode: Mode, r: nat)
    requires Fit(rows, first) && |answers| == |rows| && r < |rows|
    ensures rows[r].indices[0] < |first| && Spread(rows, first, answers, mode)[rows[r].indices[0]] == answers[r]
  {
    OwnerIs(rows, |first|, r, rows[r].indices[0]);
  }

  /** Settling a row is answering it, and no other. */
  lemma SettleSpreads(rows: seq<Row>, first: Results, answers: Answers, r: nat, result: Result, mode: Mode)
    requires Fit(rows, first) && |answers| == |rows| && r < |rows|
    ensures Settle(Spread(rows, first, answers, mode), rows[r], result, mode)
            == Spread(rows, first, answers[r := Some(result)], mode)
  {
    var before := Spread(rows, first, answers, mode);
    var after := Spread(rows, first, answers[r := Some(result)], mode);
    forall i | 0 <= i < |first| ensures Settle(before, rows[r], result, mode)[i] == after[i] {
      OwnerHas(rows, i);
      if i in rows[r].indices { OwnerIs(rows, |first|, r, i); }
    }
  }

  lemma SpreadNothing(rows: seq<Row>, first: Results, mode: Mode)
    requires Fit(rows, first)
    ensures Spread(rows, first, seq(|rows|, _ => None), mode) == first
  {
    forall i | 0 <= i < |first| ensures Spread(rows, first, seq(|rows|, _ => None), mode)[i] == first[i] {
      OwnerHas(rows, i);
    }
  }

  ghost predicate AnyFailed(results: seq<Option<Result>>)
  {
    exists i :: 0 <= i < |results| && results[i].Some? && results[i].value.Failed?
  }

  ghost predicate AllResolved(results: seq<Option<Result>>) { forall i | 0 <= i < |results| :: results[i].Some? }

  lemma SpreadResolves(rows: seq<Row>, first: Results, answers: Answers, mode: Mode)
    requires Fit(rows, first) && |answers| == |rows| && AllResolved(answers)
    ensures AllResolved(Spread(rows, first, answers, mode))
  {
    forall i | 0 <= i < |first| ensures Spread(rows, first, answers, mode)[i].Some? {
      OwnerHas(rows, i);
      if first[i].None? { assert InSomeRow(rows, i); }
    }
  }

  lemma SpreadFails(rows: seq<Row>, first: Results, answers: Answers, mode: Mode)
    requires Fit(rows, first) && |answers| == |rows|
    ensures AnyFailed(Spread(rows, first, answers, mode)) <==> AnyFailed(first) || AnyFailed(answers)
  {
    var results := Spread(rows, first, answers, mode);
    if AnyFailed(first) {
      var i :| 0 <= i < |first| && first[i].Some? && first[i].value.Failed?;
      OwnerHas(rows, i);
      assert results[i] == first[i];
    } else if AnyFailed(answers) {
      var r :| 0 <= r < |answers| && answers[r].Some? && answers[r].value.Failed?;
      LeadIs(rows, first, answers, mode, r);
    }
    if AnyFailed(results) {
      var i :| 0 <= i < |results| && results[i].Some? && results[i].value.Failed?;
      if Owner(rows, i).Some? { assert answers[Owner(rows, i).value].value.Failed?; }
    }
  }

  /** What an attempt's reads make of a row: the answer at once, or a write to come. */
  function Judged(row: Row, a: Attempt, mode: Mode, refused: set<string>): Option<Result>
  {
    Decided(Judge(row, a, mode, refused))
  }

  function Decided(v: Verdict): Option<Result>
  {
    match v
    case Refuse(code) => Some(Failed(code))
    case Leave(id) => Some(Ok(id, Skipped))
    case _ => None
  }

  /** The open rows among the first `n` that the attempt is to insert, or to update, in order. */
  function Picks(rows: seq<Row>, n: nat, answers: Answers, a: Attempt, mode: Mode, refused: set<string>,
      v: Verdict): seq<nat>
    requires n <= |rows| == |answers|
  {
    if n == 0 then [] else
      var before := Picks(rows, n - 1, answers, a, mode, refused, v);
      if answers[n - 1].None? && Judge(rows[n - 1], a, mode, refused) == v then before + [n - 1] else before
  }

  lemma {:induction false} PicksAre(rows: seq<Row>, n: nat, answers: Answers, a: Attempt, mode: Mode,
                                    refused: set<string>, v: Verdict)
    requires n <= |rows| == |answers|
    ensures var picked := Picks(rows, n, answers, a, mode, refused, v);
            && (forall p | p in picked :: p < n && answers[p].None? && Judge(rows[p], a, mode, refused) == v)
            && (forall p | 0 <= p < n && answers[p].None? && Judge(rows[p], a, mode, refused) == v :: p in picked)
            && (forall x, y | 0 <= x < y < |picked| :: picked[x] != picked[y])
  {
    if n != 0 { PicksAre(rows, n - 1, answers, a, mode, refused, v); }
  }

  /** The first `n` rows, if open, take the answer the attempt's reads decide. */
  function Answered(rows: seq<Row>, n: nat, answers: Answers, a: Attempt, mode: Mode, refused: set<string>)
      : (after: Answers)
    requires n <= |rows| == |answers|
    ensures |after| == |answers|
  {
    seq(|answers|, r requires 0 <= r < |answers| =>
      if r < n && answers[r].None? then Judged(rows[r], a, mode, refused) else answers[r])
  }

  /** One more row judged is that row settled, if it was open and its answer is decided. */
  lemma AnswerOne(rows: seq<Row>, n: nat, answers: Answers, a: Attempt, mode: Mode, refused: set<string>,
      first: Results)
    requires Fit(rows, first) && n < |rows| == |answers|
    ensures rows[n].indices[0] < |first|
    ensures var before := Spread(rows, first, Answered(rows, n, answers, a, mode, refused), mode);
            var after := Spread(rows, first, Answered(rows, n + 1, answers, a, mode, refused), mode);
            var judged := Judged(rows[n], a, mode, refused);
            && before[rows[n].indices[0]] == answers[n]
            && after == if answers[n].None? && judged.Some? then Settle(before, rows[n], judged.value, mode) else before
  {
    var now := Answered(rows, n, answers, a, mode, refused);
    var next := Answered(rows, n + 1, answers, a, mode, refused);
    var judged := Judged(rows[n], a, mode, refused);
    LeadIs(rows, first, now, mode, n);
    if answers[n].None? && judged.Some? {
      SettleSpreads(rows, first, now, n, judged.value, mode);
      assert next == now[n := judged];
    } else {
      assert next == now;
    }
  }

  /** One row of the loop: judged if nothing resolved it yet. */
  method ClassifyOne(rows: seq<Row>, n: nat, results: Results, a: Attempt, mode: Mode, refused: set<string>,
                     ghost first: Results, ghost answers: Answers)
    returns (after: Results, insert: bool, update: bool)
    requires Fit(rows, first) && n < |rows| == |answers|
    requires results == Spread(rows, first, Answered(rows, n, answers, a, mode, refused), mode)
    ensures after == Spread(rows, first, Answered(rows, n + 1, answers, a, mode, refused), mode)
    ensures insert == (answers[n].None? && Judge(rows[n], a, mode, refused) == Insert)
    ensures update == (answers[n].None? && Judge(rows[n], a, mode, refused) == Update)
  {
    AnswerOne(rows, n, answers, a, mode, refused, first);
    if results[rows[n].indices[0]].Some? { return results, false, false; }
    var verdict := Judge(rows[n], a, mode, refused);
    if verdict.Insert? { return results, true, false; }
    if verdict.Update? { return results, false, true; }
    after := Settle(results, rows[n], Decided(verdict).value, mode);
    return after, false, false;
  }

  /** What the loop has made of the first n rows. */
  ghost predicate Classified(rows: seq<Row>, n: nat, answers: Answers, a: Attempt, mode: Mode, refused: set<string>,
                             first: Results, after: Results, inserts: seq<nat>, updates: seq<nat>)
    requires n <= |rows| == |answers| && forall r | 0 <= r < |rows| :: rows[r].indices != []
  {
    && after == Spread(rows, first, Answered(rows, n, answers, a, mode, refused), mode)
    && inserts == Picks(rows, n, answers, a, mode, refused, Insert)
    && updates == Picks(rows, n, answers, a, mode, refused, Update)
  }

  method Classify(rows: seq<Row>, results: Results, a: Attempt, mode: Mode, refused: set<string>,
                  ghost first: Results, ghost answers: Answers)
    returns (after: Results, inserts: seq<nat>, updates: seq<nat>)
    requires Fit(rows, first) && |answers| == |rows| && results == Spread(rows, first, answers, mode)
    ensures Classified(rows, |rows|, answers, a, mode, refused, first, after, inserts, updates)
  {
    after, inserts, updates := results, [], [];
    assert Answered(rows, 0, answers, a, mode, refused) == answers;
    for n := 0 to |rows|
      invariant Classified(rows, n, answers, a, mode, refused, first, after, inserts, updates)
    {
      var insert, update;
      after, insert, update := ClassifyOne(rows, n, after, a, mode, refused, first, answers);
      if insert { inserts := inserts + [n]; }
      if update { updates := updates + [n]; }
    }
  }

  /** Past the plan's room, every new contact fails. */
  function FailedAll(answers: Answers, picked: seq<nat>, code: nat): (after: Answers)
    ensures |after| == |answers|
  {
    seq(|answers|, r requires 0 <= r < |answers| => if r in picked then Some(Failed(code)) else answers[r])
  }

  method FailAll(rows: seq<Row>, results: Results, picked: seq<nat>, code: nat, mode: Mode,
                 ghost first: Results, ghost answers: Answers)
    returns (after: Results)
    requires Fit(rows, first) && |answers| == |rows| && results == Spread(rows, first, answers, mode)
    requires forall p | p in picked :: p < |rows|
    ensures after == Spread(rows, first, FailedAll(answers, picked, code), mode)
  {
    after := results;
    assert FailedAll(answers, picked[..0], code) == answers;
    for n := 0 to |picked|
      invariant after == Spread(rows, first, FailedAll(answers, picked[..n], code), mode)
    {
      assert picked[n] in picked;
      SettleSpreads(rows, first, FailedAll(answers, picked[..n], code), picked[n], Failed(code), mode);
      after := Settle(after, rows[picked[n]], Failed(code), mode);
      assert FailedAll(answers, picked[..n + 1], code)
          == FailedAll(answers, picked[..n], code)[picked[n] := Some(Failed(code))];
    }
    assert picked[..|picked|] == picked;
  }

  /** The answers of a committed transaction: each row written names the contact it left. */
  function WrittenAll(rows: seq<Row>, answers: Answers, picked: seq<nat>, before: Store, mint: Mint): (after: Answers)
    requires |answers| == |rows|
    ensures |after| == |answers|
  {
    seq(|answers|, r requires 0 <= r < |answers| =>
      if r in picked then Some(Told(rows[r], before, mint)) else answers[r])
  }

  function Told(row: Row, before: Store, mint: Mint): Result
  {
    if row.key in before then Ok(before[row.key].id, Updated) else Ok(mint(row.key), Created)
  }

  method SucceedAll(rows: seq<Row>, results: Results, picked: seq<nat>, before: Store, mode: Mode, mint: Mint,
                    ghost first: Results, ghost answers: Answers)
    returns (after: Results)
    requires Fit(rows, first) && |answers| == |rows| && results == Spread(rows, first, answers, mode)
    requires forall p | p in picked :: p < |rows|
    ensures after == Spread(rows, first, WrittenAll(rows, answers, picked, before, mint), mode)
  {
    after := results;
    assert WrittenAll(rows, answers, picked[..0], before, mint) == answers;
    for n := 0 to |picked|
      invariant after == Spread(rows, first, WrittenAll(rows, answers, picked[..n], before, mint), mode)
    {
      assert picked[n] in picked;
      var p := picked[n];
      var result := Told(rows[p], before, mint);
      SettleSpreads(rows, first, WrittenAll(rows, answers, picked[..n], before, mint), p, result, mode);
      after := Settle(after, rows[p], result, mode);
      assert WrittenAll(rows, answers, picked[..n + 1], before, mint)
          == WrittenAll(rows, answers, picked[..n], before, mint)[p := Some(result)];
    }
    assert picked[..|picked|] == picked;
  }

  function RowsAt(rows: seq<Row>, picked: seq<nat>): seq<Row>
    requires forall p | p in picked :: p < |rows|
  {
    seq(|picked|, x requires 0 <= x < |picked| => assert picked[x] in picked; rows[picked[x]])
  }

  /** Writing distinct rows touches exactly their keys. */
  lemma WriteRowsTouches(before: Store, rows: seq<Row>, picked: seq<nat>, mint: Mint)
    requires DistinctKeys(rows) && forall p | p in picked :: p < |rows|
    requires forall x, y | 0 <= x < y < |picked| :: picked[x] != picked[y]
    ensures var after := WriteRows(before, RowsAt(rows, picked), Upsert, mint);
            && (forall p | p in picked ::
                  rows[p].key in after &&
                  after[rows[p].key] == Written(Get(before, rows[p].key), rows[p], mint(rows[p].key)))
            && (forall k | (forall p | p in picked :: rows[p].key != k) :: Get(after, k) == Get(before, k))
  {
    var todo := RowsAt(rows, picked);
    var after := WriteRows(before, todo, Upsert, mint);
    forall x, y | 0 <= x < y < |todo| ensures todo[x].key != todo[y].key {
      assert picked[x] in picked && picked[y] in picked;
    }
    forall p | p in picked
      ensures rows[p].key in after
              && after[rows[p].key] == Written(Get(before, rows[p].key), rows[p], mint(rows[p].key))
    {
      var x :| 0 <= x < |picked| && picked[x] == p;
      assert todo[x] == rows[p];
      WriteRowsAt(before, todo, Upsert, mint, rows[p].key);
      assert Get(after, rows[p].key).Some?;
    }
    forall k | (forall p | p in picked :: rows[p].key != k) ensures Get(after, k) == Get(before, k) {
      WriteRowsAt(before, todo, Upsert, mint, k);
      forall x | 0 <= x < |todo| ensures todo[x].key != k { assert picked[x] in picked; }
    }
  }

  predicate Wrote(answer: Option<Result>) { answer.Some? && answer.value.Ok? && !answer.value.status.Skipped? }

  ghost predicate NothingWritten(answers: Answers) { forall r | 0 <= r < |answers| :: !Wrote(answers[r]) }

  /** What the caller is told is what the tables show: each row written left its contact, and no other key changed. */
  ghost predicate Committed(before: Store, after: Store, rows: seq<Row>, answers: Answers, mint: Mint)
    requires |answers| == |rows|
  {
    && (forall r | 0 <= r < |rows| && Wrote(answers[r]) ::
          && rows[r].key in after
          && after[rows[r].key] == Written(Get(before, rows[r].key), rows[r], mint(rows[r].key))
          && answers[r].value == Ok(after[rows[r].key].id, if rows[r].key in before then Updated else Created))
    && (forall k | (forall r | 0 <= r < |rows| && rows[r].key == k :: !Wrote(answers[r])) ::
          Get(after, k) == Get(before, k))
  }

  lemma CommitHolds(rows: seq<Row>, answers: Answers, picked: seq<nat>, before: Store, mint: Mint)
    requires |answers| == |rows| && DistinctKeys(rows) && NothingWritten(answers)
    requires forall p | p in picked :: p < |rows|
    requires forall x, y | 0 <= x < y < |picked| :: picked[x] != picked[y]
    ensures Committed(before, WriteRows(before, RowsAt(rows, picked), Upsert, mint), rows,
                      WrittenAll(rows, answers, picked, before, mint), mint)
  {
    var after := WriteRows(before, RowsAt(rows, picked), Upsert, mint);
    var told := WrittenAll(rows, answers, picked, before, mint);
    WriteRowsTouches(before, rows, picked, mint);
    forall k | (forall r | 0 <= r < |rows| && rows[r].key == k :: !Wrote(told[r]))
        ensures Get(after, k) == Get(before, k) {
      forall p | p in picked ensures rows[p].key != k { assert Wrote(told[p]); }
    }
  }

  lemma CommittedAt(before: Store, after: Store, rows: seq<Row>, answers: Answers, mode: Mode, mint: Mint, k: string)
    requires DistinctKeys(rows) && |answers| == |rows| && Committed(before, after, rows, answers, mint)
    requires forall r | 0 <= r < |rows| :: Wrote(answers[r]) <==> Writes(before, rows[r], mode)
    ensures var r := FindRow(rows, k);
            Get(after, k) == if r.Some? && Writes(before, rows[r.value], mode)
                             then Some(Written(Get(before, k), rows[r.value], mint(k))) else Get(before, k)
  {
    var r := FindRow(rows, k);
    if r.Some? && Wrote(answers[r.value]) {
      assert Get(after, k) == Some(after[k]);
    } else {
      forall q | 0 <= q < |rows| && rows[q].key == k ensures !Wrote(answers[q]) { assert r == Some(q); }
    }
  }

  /** Once every row the mode writes is written, the tables hold what the batch of items leaves. */
  lemma CommittedIsBatch(before: Store, after: Store, entries: seq<Entry>, answers: Answers, mode: Mode, mint: Mint)
    requires forall e | e in entries :: e.Valid?
    requires var rows := CollapseEntries(entries, mode);
             && |answers| == |rows| && Committed(before, after, rows, answers, mint)
             && forall r | 0 <= r < |rows| :: Wrote(answers[r]) <==> Writes(before, rows[r], mode)
    ensures after == Batch(before, Items(entries), mode, mint)
  {
    var rows := CollapseEntries(entries, mode);
    var batch := Batch(before, Items(entries), mode, mint);
    AllValidCollapse(entries, mode);
    CollapseDistinct(Items(entries), mode);
    forall k: string ensures Get(after, k) == Get(batch, k) {
      BatchAt(before, Items(entries), mode, mint, k);
      CommittedAt(before, after, rows, answers, mode, mint, k);
    }
    SameKeys(after, batch);
    SameStores(after, batch);
  }

  /** An attempt ends the operation, is refused by strictness, is retried, or throws. */
  datatype Round = Done | Refused | Retry | Thrown

  /** The rows one attempt writes if it commits, and the answers it leaves before it does. */
  datatype Plan = Plan(answers: Answers, picked: seq<nat>)

  function PlanOf(rows: seq<Row>, answers: Answers, a: Attempt, mode: Mode, refused: set<string>): (plan: Plan)
    requires |answers| == |rows|
    ensures |plan.answers| == |rows|
  {
    var inserts := Picks(rows, |rows|, answers, a, mode, refused, Insert);
    var updates := Picks(rows, |rows|, answers, a, mode, refused, Update);
    var judged := Answered(rows, |rows|, answers, a, mode, refused);
    if a.room.Some? && |inserts| > a.room.value then Plan(FailedAll(judged, inserts, 403), updates)
    else Plan(judged, inserts + updates)
  }

  lemma BothDistinct(a: seq<nat>, b: seq<nat>)
    requires forall x, y | 0 <= x < y < |a| :: a[x] != a[y]
    requires forall x, y | 0 <= x < y < |b| :: b[x] != b[y]
    requires forall x | x in a :: x !in b
    ensures forall x, y | 0 <= x < y < |a + b| :: (a + b)[x] != (a + b)[y]
  {
    forall x, y | 0 <= x < y < |a + b| ensures (a + b)[x] != (a + b)[y] {
      assert x < |a| ==> a[x] in a;
      assert y >= |a| ==> b[y - |a|] in b;
    }
  }

  /** The rows an attempt would write: open ones, and each of them judged to be written. */
  lemma PicksOk(rows: seq<Row>, answers: Answers, a: Attempt, mode: Mode, refused: set<string>)
    requires |answers| == |rows|
    ensures var picked := Picks(rows, |rows|, answers, a, mode, refused, Insert)
                          + Picks(rows, |rows|, answers, a, mode, refused, Update);
            && (forall p | p in picked :: p < |rows| && answers[p].None? && Judged(rows[p], a, mode, refused).None?)
            && (forall r | 0 <= r < |rows| && answers[r].None? && Judged(rows[r], a, mode, refused).None? ::
                  r in picked)
            && (forall x, y | 0 <= x < y < |picked| :: picked[x] != picked[y])
            && (forall p | p in picked :: p < |rows| && (rows[p].key !in a.contacts || mode.Upsert?))
  {
    PicksAre(rows, |rows|, answers, a, mode, refused, Insert);
    PicksAre(rows, |rows|, answers, a, mode, refused, Update);
    BothDistinct(Picks(rows, |rows|, answers, a, mode, refused, Insert),
        Picks(rows, |rows|, answers, a, mode, refused, Update));
  }

  /** With no room for the new contacts, only the updates are written. */
  lemma UpdatesOk(rows: seq<Row>, answers: Answers, a: Attempt, mode: Mode, refused: set<string>)
    requires |answers| == |rows|
    ensures var inserts := Picks(rows, |rows|, answers, a, mode, refused, Insert);
            var updates := Picks(rows, |rows|, answers, a, mode, refused, Update);
            && (forall x, y | 0 <= x < y < |updates| :: updates[x] != updates[y])
            && (forall p | p in updates :: p !in inserts && p in inserts + updates)
            && (forall p | p in inserts + updates && p !in inserts :: p in updates)
  {
    PicksAre(rows, |rows|, answers, a, mode, refused, Insert);
    PicksAre(rows, |rows|, answers, a, mode, refused, Update);
  }

  lemma PlanOk(rows: seq<Row>, answers: Answers, a: Attempt, mode: Mode, refused: set<string>)
    requires |answers| == |rows| && NothingWritten(answers)
    ensures var plan := PlanOf(rows, answers, a, mode, refused);
            && NothingWritten(plan.answers)
            && (forall p | p in plan.picked :: p < |rows| && plan.answers[p].None?)
            && (forall r | 0 <= r < |rows| && plan.answers[r].None? :: r in plan.picked)
            && (forall x, y | 0 <= x < y < |plan.picked| :: plan.picked[x] != plan.picked[y])
            && (forall p | p in plan.picked :: p < |rows| && (rows[p].key !in a.contacts || mode.Upsert?))
  {
    PicksOk(rows, answers, a, mode, refused);
    UpdatesOk(rows, answers, a, mode, refused);
  }

  /** What one attempt comes to. */
  ghost function RoundOf(first: Results, plan: Plan, a: Attempt, strict: bool): Round
  {
    if strict && (AnyFailed(first) || AnyFailed(plan.answers)) then Refused
    else if plan.picked == [] || a.ending.Commits? then Done
    else if a.ending.Violates? then Retry else Thrown
  }

  // ---- A batch with nothing in its way ----

  /** The row names segments and topics of the team, and its address takes mail or is stored. */
  predicate Clear(row: Row, a: Attempt, refused: set<string>)
  {
    row.segments <= a.segments && row.topics.Keys <= a.topics && (row.key in a.contacts || row.key !in refused)
  }

  /** How many of the first n rows would be new contacts. */
  function NewOnes(rows: seq<Row>, contacts: Store, n: nat): nat
    requires n <= |rows|
  {
    if n == 0 then 0 else NewOnes(rows, contacts, n - 1) + if rows[n - 1].key !in contacts then 1 else 0
  }

  lemma {:induction false} InsertsAreNew(rows: seq<Row>, n: nat, answers: Answers, a: Attempt, mode: Mode,
      refused: set<string>)
    requires n <= |rows| == |answers|
    ensures |Picks(rows, n, answers, a, mode, refused, Insert)| <= NewOnes(rows, a.contacts, n)
  {
    if n > 0 { InsertsAreNew(rows, n - 1, answers, a, mode, refused); }
  }

  function NoAnswers(n: nat): Answers { seq(n, _ => None) }

  lemma ClearJudged(row: Row, a: Attempt, mode: Mode, refused: set<string>)
    requires Clear(row, a, refused)
    ensures var v := Judge(row, a, mode, refused);
            && (v == Insert || v == Update <==> Writes(a.contacts, row, mode))
            && (!mode.Error? ==> !v.Refuse?)
  {
  }

  /** Then an attempt picks just the rows the mode writes. */
  lemma {:induction false} ClearPicks(rows: seq<Row>, a: Attempt, mode: Mode, refused: set<string>, r: nat)
    requires r < |rows| && Clear(rows[r], a, refused)
    requires a.room.Some? ==> NewOnes(rows, a.contacts, |rows|) <= a.room.value
    ensures r in PlanOf(rows, NoAnswers(|rows|), a, mode, refused).picked <==> Writes(a.contacts, rows[r], mode)
  {
    var none := NoAnswers(|rows|);
    InsertsAreNew(rows, |rows|, none, a, mode, refused);
    PicksAre(rows, |rows|, none, a, mode, refused, Insert);
    PicksAre(rows, |rows|, none, a, mode, refused, Update);
    ClearJudged(rows[r], a, mode, refused);
    var inserts := Picks(rows, |rows|, none, a, mode, refused, Insert);
    var updates := Picks(rows, |rows|, none, a, mode, refused, Update);
    assert r in inserts <==> Judge(rows[r], a, mode, refused) == Insert;
    assert r in updates <==> Judge(rows[r], a, mode, refused) == Update;
    assert r in inserts + updates <==> r in inserts || r in updates;
  }

  /** And it fails none but those the mode refuses. */
  lemma ClearUnfailed(rows: seq<Row>, a: Attempt, mode: Mode, refused: set<string>)
    requires (forall r | 0 <= r < |rows| :: Clear(rows[r], a, refused)) && !mode.Error?
    requires a.room.Some? ==> NewOnes(rows, a.contacts, |rows|) <= a.room.value
    ensures !AnyFailed(PlanOf(rows, NoAnswers(|rows|), a, mode, refused).answers)
  {
    InsertsAreNew(rows, |rows|, NoAnswers(|rows|), a, mode, refused);
    forall r | 0 <= r < |rows|
      ensures var answer := Judged(rows[r], a, mode, refused); answer.Some? ==> !answer.value.Failed? {
      ClearJudged(rows[r], a, mode, refused);
    }
  }

  /** Valid items on known segments and topics, room for the new ones, and a first transaction that commits. */
  ghost predicate Smooth(entries: seq<Entry>, mode: Mode, strict: bool, refused: set<string>, a: Attempt)
  {
    var rows := CollapseEntries(entries, mode);
    && (forall e | e in entries :: e.Valid?) && !(strict && mode.Error?) && a.ending.Commits?
    && (forall r | 0 <= r < |rows| :: Clear(rows[r], a, refused))
    && (a.room.Some? ==> NewOnes(rows, a.contacts, |rows|) <= a.room.value)
  }

  lemma {:induction false} ValidOpens(entries: seq<Entry>, mode: Mode)
    requires (forall e | e in entries :: e.Valid?) && !mode.Error?
    ensures !AnyFailed(FirstResults(entries, mode))
  {
    if entries != [] {
      ValidOpens(entries[..|entries| - 1], mode);
      assert entries[|entries| - 1] in entries;
    }
  }

  lemma SmoothIsDone(entries: seq<Entry>, mode: Mode, strict: bool, refused: set<string>, a: Attempt)
    requires Smooth(entries, mode, strict, refused, a)
    ensures var rows := CollapseEntries(entries, mode);
            RoundOf(FirstResults(entries, mode), PlanOf(rows, NoAnswers(|rows|), a, mode, refused), a, strict).Done?
  {
    if !mode.Error? {
      ClearUnfailed(CollapseEntries(entries, mode), a, mode, refused);
      ValidOpens(entries, mode);
    }
  }

  /** What such an attempt leaves is the batch of its items. */
  lemma {:induction false} SmoothIsBatch(entries: seq<Entry>, mode: Mode, strict: bool, refused: set<string>,
                      a: Attempt, mint: Mint, after: Store)
    requires Smooth(entries, mode, strict, refused, a)
    requires var rows := CollapseEntries(entries, mode);
             var plan := PlanOf(rows, NoAnswers(|rows|), a, mode, refused);
             Committed(a.contacts, after, rows, WrittenAll(rows, plan.answers, plan.picked, a.contacts, mint), mint)
    ensures after == Batch(a.contacts, Items(entries), mode, mint)
  {
    var rows := CollapseEntries(entries, mode);
    var plan := PlanOf(rows, NoAnswers(|rows|), a, mode, refused);
    var told := WrittenAll(rows, plan.answers, plan.picked, a.contacts, mint);
    PlanOk(rows, NoAnswers(|rows|), a, mode, refused);
    forall r | 0 <= r < |rows| ensures Wrote(told[r]) <==> Writes(a.contacts, rows[r], mode) {
      ClearPicks(rows, a, mode, refused, r);
    }
    CommittedIsBatch(a.contacts, after, entries, told, mode, mint);
  }

  /** An answer, once given, stays. */
  ghost predicate Extends(answers: Answers, told: Answers)
  {
    |told| == |answers| && forall r | 0 <= r < |answers| && answers[r].Some? :: told[r] == answers[r]
  }

  /** The rows' answers after each attempt so far: none at first, and each kept by all that follow. */
  ghost predicate Trail(rows: seq<Row>, trail: seq<Answers>, tries: nat)
  {
    && |trail| == tries + 1 && trail[0] == NoAnswers(|rows|) && |trail[tries]| == |rows|
    && forall n | 0 <= n < tries :: Extends(trail[n], trail[n + 1])
  }

  lemma TrailGrows(rows: seq<Row>, trail: seq<Answers>, tries: nat, told: Answers)
    requires Trail(rows, trail, tries) && Extends(trail[tries], told)
    ensures Trail(rows, trail + [told], tries + 1)
  {
    var more := trail + [told];
    forall n | 0 <= n < tries + 1 ensures Extends(more[n], more[n + 1]) {
      if n < tries { assert Extends(trail[n], trail[n + 1]); }
    }
  }

  /** What one attempt tells the rows it found open; the rest keep their answers. */
  function ToldBy(rows: seq<Row>, answers: Answers, a: Attempt, mode: Mode, refused: set<string>, done: bool,
      mint: Mint)
    : (told: Answers)
    requires |answers| == |rows|
    ensures |told| == |rows|
  {
    var plan := PlanOf(rows, answers, a, mode, refused);
    if done then WrittenAll(rows, plan.answers, plan.picked, a.contacts, mint) else plan.answers
  }

  lemma ToldExtends(rows: seq<Row>, answers: Answers, a: Attempt, mode: Mode, refused: set<string>, done: bool,
      mint: Mint)
    requires |answers| == |rows| && NothingWritten(answers)
    ensures Extends(answers, ToldBy(rows, answers, a, mode, refused, done, mint))
  {
    PlanOk(rows, answers, a, mode, refused);
    PicksAre(rows, |rows|, answers, a, mode, refused, Insert);
    PicksAre(rows, |rows|, answers, a, mode, refused, Update);
  }

  /** A failure told is one the attempt planned; the rows written add none, and leave none open. */
  lemma ToldFails(rows: seq<Row>, answers: Answers, a: Attempt, mode: Mode, refused: set<string>, done: bool,
      mint: Mint)
    requires |answers| == |rows| && NothingWritten(answers)
    ensures var told := ToldBy(rows, answers, a, mode, refused, done, mint);
            && (AnyFailed(told) <==> AnyFailed(PlanOf(rows, answers, a, mode, refused).answers))
            && (done ==> AllResolved(told)) && (!done ==> NothingWritten(told))
  {
    var plan := PlanOf(rows, answers, a, mode, refused);
    PlanOk(rows, answers, a, mode, refused);
    var told := ToldBy(rows, answers, a, mode, refused, done, mint);
    if AnyFailed(told) {
      var r :| 0 <= r < |told| && told[r].Some? && told[r].value.Failed?;
      assert plan.answers[r] == told[r];
    }
    if AnyFailed(plan.answers) {
      var r :| 0 <= r < |told| && plan.answers[r].Some? && plan.answers[r].value.Failed?;
      assert plan.answers[r] == told[r];
    }
  }

  class Tables {
    var contacts: Store

    /** Other writers leave the tables as they please between attempts. */
    method OthersWrite(now: Store)
      modifies this
      ensures contacts == now
    {
      contacts := now;
    }

    /** A row inserts or updates; one restating what is stored leaves the contact's own columns alone. */
    method WriteOne(row: Row, mint: Mint)
      modifies this
      ensures contacts == WriteRow(old(contacts), row, Upsert, mint)
    {
      if row.key !in contacts {
        contacts := contacts[row.key :=
          Contact(mint(row.key), row.email, row.firstName, row.lastName, row.unsubscribed == Some(true),
                  row.properties, row.segments, row.topics)];
        return;
      }
      var found := contacts[row.key];
      var unsubscribe := row.unsubscribed == Some(true) && !found.unsubscribed;
      var changed := exists p | p in row.properties ::
                       p !in found.properties || found.properties[p] != row.properties[p];
      var own := found;
      if (row.firstName.Some? && row.firstName != found.firstName)
         || (row.lastName.Some? && row.lastName != found.lastName) || unsubscribe || changed {
        own := found.(firstName := Or(row.firstName, found.firstName), lastName := Or(row.lastName, found.lastName),
                      unsubscribed := found.unsubscribed || unsubscribe,
                      properties := found.properties + row.properties);
      } else {
        assert found.properties + row.properties == found.properties;
      }
      contacts := contacts[row.key := own.(segments := own.segments + row.segments, topics := own.topics + row.topics)];
    }

    method WriteAll(todo: seq<Row>, mint: Mint)
      modifies this
      ensures contacts == WriteRows(old(contacts), todo, Upsert, mint)
    {
      for n := 0 to |todo|
        invariant contacts == WriteRows(old(contacts), todo[..n], Upsert, mint)
      {
        assert todo[..n + 1][..n] == todo[..n];
        WriteOne(todo[n], mint);
      }
      assert todo[..|todo|] == todo;
    }

    method TryOnce(rows: seq<Row>, results: Results, a: Attempt, mode: Mode, strict: bool, refused: set<string>,
                   mint: Mint, ghost first: Results, ghost answers: Answers)
      returns (after: Results, round: Round)
      requires Fit(rows, first) && |answers| == |rows| && results == Spread(rows, first, answers, mode)
      requires NothingWritten(answers)
      modifies this
      ensures var plan := PlanOf(rows, answers, a, mode, refused);
              && round == RoundOf(first, plan, a, strict)
              && after == Spread(rows, first,
                            if round.Done? then WrittenAll(rows, plan.answers, plan.picked, a.contacts, mint)
                                else plan.answers,
                            mode)
              && (forall p | p in plan.picked :: p < |rows|)
              && contacts == if round.Done? then WriteRows(a.contacts, RowsAt(rows, plan.picked), Upsert, mint)
                    else a.contacts
    {
      ghost var plan := PlanOf(rows, answers, a, mode, refused);
      ghost var judged := Answered(rows, |rows|, answers, a, mode, refused);
      PlanOk(rows, answers, a, mode, refused);
      SpreadFails(rows, first, plan.answers, mode);
      OthersWrite(a.contacts);
      var inserts, updates;
      after, inserts, updates := Classify(rows, results, a, mode, refused, first, answers);
      PicksAre(rows, |rows|, answers, a, mode, refused, Insert);
      if a.room.Some? && |inserts| > a.room.value {
        after := FailAll(rows, after, inserts, 403, mode, first, judged);
        inserts := [];
      }
      var picked := inserts + updates;
      assert picked == plan.picked;
      if strict && (exists i :: 0 <= i < |after| && after[i].Some? && after[i].value.Failed?) { return after, Refused; }
      if picked == [] {
        assert WrittenAll(rows, plan.answers, [], a.contacts, mint) == plan.answers;
        return after, Done;
      }
      if !a.ending.Commits? { return after, if a.ending.Violates? then Retry else Thrown; }
      WriteAll(RowsAt(rows, picked), mint);
      after := SucceedAll(rows, after, picked, a.contacts, mode, mint, first, plan.answers);
      round := Done;
    }

    /** One attempt, told in terms of the rows: what it answers, and what it leaves on the tables. */
    method Advance(rows: seq<Row>, results: Results, a: Attempt, mode: Mode, strict: bool, refused: set<string>,
                   mint: Mint, ghost first: Results, ghost answers: Answers)
      returns (after: Results, round: Round, ghost told: Answers)
      requires Fit(rows, first) && |answers| == |rows| && results == Spread(rows, first, answers, mode)
      requires NothingWritten(answers)
      modifies this
      ensures round == RoundOf(first, PlanOf(rows, answers, a, mode, refused), a, strict)
      ensures told == ToldBy(rows, answers, a, mode, refused, round.Done?, mint)
      ensures after == Spread(rows, first, told, mode) && Extends(answers, told)
      ensures Committed(a.contacts, contacts, rows, told, mint)
      ensures round.Done? ==> AllResolved(after)
      ensures !round.Done? ==> NothingWritten(told) && contacts == a.contacts
      ensures round.Refused? <==> strict && AnyFailed(after)
    {
      ghost var plan := PlanOf(rows, answers, a, mode, refused);
      PlanOk(rows, answers, a, mode, refused);
      CommitHolds(rows, plan.answers, plan.picked, a.contacts, mint);
      after, round := TryOnce(rows, results, a, mode, strict, refused, mint, first, answers);
      told := ToldBy(rows, answers, a, mode, refused, round.Done?, mint);
      ToldExtends(rows, answers, a, mode, refused, round.Done?, mint);
      SpreadFails(rows, first, told, mode);
      ToldFails(rows, answers, a, mode, refused, round.Done?, mint);
      if round.Done? { SpreadResolves(rows, first, told, mode); }
    }

    /**
     * The attempts, until one is final or none is left. `trail` is the rows'
     * answers after each: one given in an attempt is never changed later.
     */
    method Attempts(rows: seq<Row>, mode: Mode, strict: bool, refused: set<string>, attempts: seq<Attempt>, mint: Mint,
                    opening: Results, ghost first: Results)
      returns (results: Results, threw: bool, tries: nat, ghost trail: seq<Answers>)
      requires |attempts| == ATTEMPTS && Fit(rows, first) && opening == Spread(rows, first, NoAnswers(|rows|), mode)
      modifies this
      ensures 1 <= tries <= ATTEMPTS && Trail(rows, trail, tries)
      ensures results == Spread(rows, first, trail[tries], mode)
      ensures Committed(attempts[tries - 1].contacts, contacts, rows, trail[tries], mint)
      ensures !threw ==> AllResolved(results) || (strict && AnyFailed(results))
      ensures threw || (strict && AnyFailed(results)) ==> contacts == attempts[tries - 1].contacts
      ensures forall n | 0 <= n < tries - 1 :: attempts[n].ending == Violates
      ensures threw ==> attempts[tries - 1].ending == Breaks
                        || (attempts[tries - 1].ending == Violates && tries == ATTEMPTS)
      ensures RoundOf(first, PlanOf(rows, NoAnswers(|rows|), attempts[0], mode, refused), attempts[0], strict).Done? ==>
                !threw && tries == 1
                && trail[1] == ToldBy(rows, NoAnswers(|rows|), attempts[0], mode, refused, true, mint)
    {
      ghost var none := NoAnswers(|rows|);
      ghost var opens := RoundOf(first, PlanOf(rows, none, attempts[0], mode, refused), attempts[0], strict);
      ghost var now := none;
      results, trail := opening, [none];
      tries, threw := 0, false;
      while true
        invariant 0 <= tries < ATTEMPTS && Trail(rows, trail, tries) && now == trail[tries] && |now| == |rows|
        invariant NothingWritten(now) && results == Spread(rows, first, now, mode)
        invariant if tries == 0 then now == none else !opens.Done?
        invariant forall n | 0 <= n < tries :: attempts[n].ending == Violates
        decreases ATTEMPTS - tries
      {
        var round;
        ghost var told;
        results, round, told := Advance(rows, results, attempts[tries], mode, strict, refused, mint, first, now);
        TrailGrows(rows, trail, tries, told);
        assert (trail + [told])[tries + 1] == told;
        tries, trail, now := tries + 1, trail + [told], told;
        if round.Done? || round.Refused? { return; }
        if round.Thrown? || tries == ATTEMPTS {
          threw := true;
          return;
        }
      }
    }

    /**
     * Every position is resolved once, across all attempts, unless the
     * transaction fails for good, which a violation does only the third time,
     * or a strict batch meets an item in error; either way the tables then
     * stay as they were found. A batch with nothing in its way leaves what its
     * items leave.
     */
    method Write(entries: seq<Entry>, mode: Mode, strict: bool, refused: set<string>, attempts: seq<Attempt>,
        mint: Mint)
      returns (results: Results, threw: bool, tries: nat, ghost trail: seq<Answers>)
      requires |attempts| == ATTEMPTS
      modifies this
      ensures 1 <= tries <= ATTEMPTS && Trail(CollapseEntries(entries, mode), trail, tries)
      ensures var rows := CollapseEntries(entries, mode);
              var first := FirstResults(entries, mode);
              && Fit(rows, first)
              && results == Spread(rows, first, trail[tries], mode)
              && Committed(attempts[tries - 1].contacts, contacts, rows, trail[tries], mint)
      ensures !threw ==> AllResolved(results) || (strict && AnyFailed(results))
      ensures threw || (strict && AnyFailed(results)) ==> contacts == attempts[tries - 1].contacts
      ensures forall n | 0 <= n < tries - 1 :: attempts[n].ending == Violates
      ensures threw ==> attempts[tries - 1].ending == Breaks
                        || (attempts[tries - 1].ending == Violates && tries == ATTEMPTS)
      ensures Smooth(entries, mode, strict, refused, attempts[0]) ==>
                !threw && tries == 1 && contacts == Batch(attempts[0].contacts, Items(entries), mode, mint)
    {
      var rows := CollapseEntries(entries, mode);
      var opening := FirstResults(entries, mode);
      CollapseOk(entries, mode);
      SpreadNothing(rows, opening, mode);
      results, threw, tries, trail := Attempts(rows, mode, strict, refused, attempts, mint, opening, opening);
      if Smooth(entries, mode, strict, refused, attempts[0]) {
        SmoothIsDone(entries, mode, strict, refused, attempts[0]);
        SmoothIsBatch(entries, mode, strict, refused, attempts[0], mint, contacts);
      }
    }
  }
}
