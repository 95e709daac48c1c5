/**
 * What a batch of contacts reports: the response the API builds from resolved
 * results (apps/api/src/app.ts), and the outcome the command-line client
 * assembles from its chunks (packages/cli/src/millionsend.ts).
 */
module BatchOutcome {
  import opened Common
  import opened Contacts
  import opened ContactBatch

  /** POST /contacts/batch accepts at most this many items. */
  const BATCH_MAX := 1000

  datatype Datum = Datum(index: nat, id: nat, status: Status)

  datatype Counts = Counts(stored: Stored, failed: nat)

  datatype Stored = Stored(created: nat, updated: nat, skipped: nat)

  datatype Outcome = Outcome(data: seq<Datum>, counts: Counts, errors: seq<nat>)

  const NOTHING := Outcome([], Counts(Stored(0, 0, 0), 0), [])

  function Bump(c: Stored, status: Status): Stored
  {
    match status
    case Created => c.(created := c.created + 1)
    case Updated => c.(updated := c.updated + 1)
    case Skipped => c.(skipped := c.skipped + 1)
  }

  function Plus(a: Counts, b: Counts): Counts
  {
    Counts(Stored(a.stored.created + b.stored.created, a.stored.updated + b.stored.updated,
                  a.stored.skipped + b.stored.skipped),
           a.failed + b.failed)
  }

  function Whole(c: Counts): nat { c.stored.created + c.stored.updated + c.stored.skipped + c.failed }

  function With(c: Stored, status: Status): nat
  {
    match status
    case Created => c.created
    case Updated => c.updated
    case Skipped => c.skipped
  }

  /** How many items came to a status. */
  function Having(data: seq<Datum>, status: Status): nat
  {
    if data == [] then 0
    else Having(data[..|data| - 1], status) + if data[|data| - 1].status == status then 1 else 0
  }

  lemma {:induction false} HavingJoin(a: seq<Datum>, b: seq<Datum>, status: Status)
    ensures Having(a + b, status) == Having(a, status) + Having(b, status)
    decreases |b|
  {
    if b == [] {
      assert a + b == a;
    } else {
      var n := |b| - 1;
      HavingJoin(a, b[..n], status);
      assert (a + b)[..|a + b| - 1] == a + b[..n];
    }
  }

  lemma {:induction false} HavingAll(data: seq<Datum>)
    ensures Having(data, Created) + Having(data, Updated) + Having(data, Skipped) == |data|
  {
    if data != [] { HavingAll(data[..|data| - 1]); }
  }

  function Indices(data: seq<Datum>): seq<nat>
  {
    seq(|data|, x requires 0 <= x < |data| => data[x].index)
  }

  ghost predicate Differ(xs: seq<nat>, x: nat, y: nat) { x < y < |xs| ==> xs[x] != xs[y] }

  ghost predicate Distinct(xs: seq<nat>) { forall x: nat, y: nat :: Differ(xs, x, y) }

  /** The two lists together name every index of `lo..hi` once, and nothing else. */
  ghost predicate Splits(ds: seq<nat>, es: seq<nat>, lo: nat, hi: nat)
  {
    && Distinct(ds) && Distinct(es) && (forall i | i in ds :: i !in es)
    && forall i: nat :: i in ds || i in es <==> lo <= i < hi
  }

  /** Data and errors partition the indices of `lo..hi`. */
  ghost predicate Partition(o: Outcome, lo: nat, hi: nat) { Splits(Indices(o.data), o.errors, lo, hi) }

  /** The counts are those of what is listed, status by status. */
  ghost predicate Tallied(o: Outcome)
  {
    && (forall status :: With(o.counts.stored, status) == Having(o.data, status))
    && o.counts.failed == |o.errors|
  }

  /** So they sum to what is listed. */
  lemma TalliedSums(o: Outcome)
    requires Tallied(o)
    ensures Whole(o.counts) == |o.data| + |o.errors|
  {
    HavingAll(o.data);
    assert With(o.counts.stored, Created) == Having(o.data, Created);
    assert With(o.counts.stored, Updated) == Having(o.data, Updated);
    assert With(o.counts.stored, Skipped) == Having(o.data, Skipped);
  }

  /** The data and the errors of an outcome hold each of the first n indices once, and its counts are theirs. */
  ghost predicate Complete(out: Outcome, n: nat)
  {
    Partition(out, 0, n) && Tallied(out) && |out.data| + |out.errors| == n
  }

  lemma DistinctJoin(a: seq<nat>, b: seq<nat>, mid: nat)
    requires Distinct(a) && Distinct(b) && (forall i | i in a :: i < mid) && (forall i | i in b :: mid <= i)
    ensures Distinct(a + b)
  {
    forall x: nat, y: nat ensures Differ(a + b, x, y) {
      if y < |a| {
        assert Differ(a, x, y);
      } else if |a| <= x {
        assert Differ(b, x - |a|, y - |a|);
      } else if y < |a + b| {
        assert a[x] in a && b[y - |a|] in b;
      }
    }
  }

  lemma SplitsJoin(ds: seq<nat>, es: seq<nat>, ds': seq<nat>, es': seq<nat>, lo: nat, mid: nat, hi: nat)
    requires Splits(ds, es, lo, mid) && Splits(ds', es', mid, hi) && lo <= mid <= hi
    ensures Splits(ds + ds', es + es', lo, hi)
  {
    DistinctJoin(ds, ds', mid);
    DistinctJoin(es, es', mid);
    forall i: nat ensures i in ds + ds' || i in es + es' <==> lo <= i < hi {
      assert i in ds + ds' <==> i in ds || i in ds';
      assert i in es + es' <==> i in es || i in es';
    }
  }

  function AddOk(o: Outcome, n: nat, id: nat, status: Status): Outcome
  {
    o.(data := o.data + [Datum(n, id, status)], counts := o.counts.(stored := Bump(o.counts.stored, status)))
  }

  function AddFailed(o: Outcome, n: nat): Outcome
  {
    o.(errors := o.errors + [n], counts := o.counts.(failed := o.counts.failed + 1))
  }

  function OutcomeOf(results: Results): Outcome
    requires AllResolved(results)
  {
    if results == [] then NOTHING else
      var n := |results| - 1;
      var o := OutcomeOf(results[..n]);
      match results[n].value
      case Ok(id, status) => AddOk(o, n, id, status)
      case Failed(_) => AddFailed(o, n)
  }

  lemma NothingCompletes()
    ensures Complete(NOTHING, 0)
  {
  }

  lemma OkCompletes(o: Outcome, n: nat, id: nat, status: Status)
    requires Complete(o, n)
    ensures Complete(AddOk(o, n, id, status), n + 1)
  {
    assert Splits([n], [], n, n + 1);
    SplitsJoin(Indices(o.data), o.errors, [n], [], 0, n, n + 1);
    assert Indices(AddOk(o, n, id, status).data) == Indices(o.data) + [n];
    assert o.errors + [] == o.errors;
    assert AddOk(o, n, id, status).data[..|o.data|] == o.data;
  }

  lemma FailedCompletes(o: Outcome, n: nat)
    requires Complete(o, n)
    ensures Complete(AddFailed(o, n), n + 1)
  {
    assert Splits([], [n], n, n + 1);
    SplitsJoin(Indices(o.data), o.errors, [], [n], 0, n, n + 1);
    assert Indices(o.data) + [] == Indices(o.data);
  }

  /** Every index is reported once, and the counts sum to the batch. */
  lemma {:induction false} OutcomePartitions(results: Results)
    requires AllResolved(results)
    ensures Complete(OutcomeOf(results), |results|)
  {
    if results == [] {
      NothingCompletes();
    } else {
      var n := |results| - 1;
      OutcomePartitions(results[..n]);
      match results[n].value
      case Ok(id, status) => OkCompletes(OutcomeOf(results[..n]), n, id, status);
      case Failed(_) => FailedCompletes(OutcomeOf(results[..n]), n);
    }
  }

  /** Each index is reported for what became of it. */
  lemma {:induction false} OutcomeTells(results: Results)
    requires AllResolved(results)
    ensures forall d | d in OutcomeOf(results).data ::
              d.index < |results| && results[d.index] == Some(Ok(d.id, d.status))
    ensures forall i | i in OutcomeOf(results).errors :: i < |results| && results[i].value.Failed?
  {
    if results != [] { OutcomeTells(results[..|results| - 1]); }
  }

  /** The response to a batch whose positions are all resolved. */
  method Respond(results: Results) returns (o: Outcome)
    requires AllResolved(results)
    ensures o == OutcomeOf(results)
    ensures Complete(o, |results|) && Whole(o.counts) == |results|
    ensures forall d | d in o.data :: d.index < |results| && results[d.index] == Some(Ok(d.id, d.status))
    ensures forall i | i in o.errors :: i < |results| && results[i].value.Failed?
  {
    OutcomePartitions(results);
    OutcomeTells(results);
    TalliedSums(OutcomeOf(results));
    o := NOTHING;
    for n := 0 to |results|
      invariant o == OutcomeOf(results[..n])
    {
      assert results[..n + 1][..n] == results[..n];
      match results[n].value
      case Ok(id, status) =>
        o := o.(data := o.data + [Datum(n, id, status)], counts := o.counts.(stored := Bump(o.counts.stored, status)));
      case Failed(_) => o := o.(errors := o.errors + [n], counts := o.counts.(failed := o.counts.failed + 1));
    }
    assert results[..|results|] == results;
  }

  // ---- The client's chunks ----

  /** What one chunk's request comes to: a refusal of the whole chunk, or the API's own outcome for it. */
  datatype Reply = Refused | Answered(outcome: Outcome)

  /** What the API keeps to with a chunk (OutcomePartitions). */
  ghost predicate Kept(reply: Reply, size: nat)
  {
    reply.Answered? ==> Complete(reply.outcome, size)
  }

  function Shifted(data: seq<Datum>, base: nat): seq<Datum>
  {
    seq(|data|, x requires 0 <= x < |data| => data[x].(index := base + data[x].index))
  }

  lemma {:induction false} HavingShifted(data: seq<Datum>, base: nat, status: Status)
    ensures Having(Shifted(data, base), status) == Having(data, status)
  {
    if data != [] {
      HavingShifted(data[..|data| - 1], base, status);
      assert Shifted(data, base)[..|data| - 1] == Shifted(data[..|data| - 1], base);
    }
  }

  function Offset(xs: seq<nat>, base: nat): seq<nat>
  {
    seq(|xs|, x requires 0 <= x < |xs| => base + xs[x])
  }

  function Range(base: nat, size: nat): seq<nat> { seq(size, x requires 0 <= x < size => base + x) }

  lemma OffsetHas(xs: seq<nat>, base: nat, i: nat)
    ensures i in Offset(xs, base) <==> base <= i && i - base in xs
  {
    if base <= i && i - base in xs {
      var x :| 0 <= x < |xs| && xs[x] == i - base;
      assert Offset(xs, base)[x] == i;
    }
  }

  lemma DistinctOffset(xs: seq<nat>, base: nat)
    requires Distinct(xs)
    ensures Distinct(Offset(xs, base))
  {
    forall x: nat, y: nat ensures Differ(Offset(xs, base), x, y) { assert Differ(xs, x, y); }
  }

  lemma SplitsOffset(ds: seq<nat>, es: seq<nat>, base: nat, size: nat)
    requires Splits(ds, es, 0, size)
    ensures Splits(Offset(ds, base), Offset(es, base), base, base + size)
  {
    DistinctOffset(ds, base);
    DistinctOffset(es, base);
    forall i: nat
      ensures i in Offset(ds, base) || i in Offset(es, base) <==> base <= i < base + size
      ensures i in Offset(ds, base) ==> i !in Offset(es, base) {
      OffsetHas(ds, base, i);
      OffsetHas(es, base, i);
      if base <= i { assert (i - base) as nat in ds || (i - base) as nat in es <==> i - base < size; }
    }
  }

  lemma SplitsRange(base: nat, size: nat)
    ensures Splits([], Range(base, size), base, base + size)
  {
    forall i: nat ensures i in Range(base, size) <==> base <= i < base + size {
      if base <= i < base + size { assert Range(base, size)[i - base] == i; }
    }
  }

  /** One more chunk of the client's outcome: a refused chunk fails every item of it. */
  function Gathered(out: Outcome, reply: Reply, base: nat, size: nat): Outcome
  {
    match reply
    case Refused =>
      out.(errors := out.errors + Range(base, size), counts := out.counts.(failed := out.counts.failed + size))
    case Answered(o) =>
      Outcome(out.data + Shifted(o.data, base), Plus(out.counts, o.counts), out.errors + Offset(o.errors, base))
  }

  lemma GatherKeeps(out: Outcome, reply: Reply, base: nat, size: nat)
    requires Complete(out, base) && Kept(reply, size)
    ensures var after := Gathered(out, reply, base, size);
            Complete(after, base + size)
  {
    var after := Gathered(out, reply, base, size);
    match reply
    case Refused =>
      SplitsRange(base, size);
      SplitsJoin(Indices(out.data), out.errors, [], Range(base, size), 0, base, base + size);
      assert Indices(after.data) == Indices(out.data) + [];
    case Answered(o) =>
      SplitsOffset(Indices(o.data), o.errors, base, size);
      SplitsJoin(Indices(out.data), out.errors, Offset(Indices(o.data), base), Offset(o.errors, base), 0, base,
          base + size);
      assert Indices(after.data) == Indices(out.data) + Offset(Indices(o.data), base);
      forall status ensures Having(after.data, status) == Having(out.data, status) + Having(o.data, status) {
        HavingJoin(out.data, Shifted(o.data, base), status);
        HavingShifted(o.data, base, status);
      }
  }

  /** One reply per chunk of at most BATCH_MAX of the `n` items left, each as the API promises. */
  ghost predicate AllKept(replies: seq<Reply>, n: nat)
  {
    n > 0 ==>
      var size := Min(BATCH_MAX, n);
      replies != [] && Kept(replies[0], size) && AllKept(replies[1..], n - size)
  }

  lemma FirstKept(replies: seq<Reply>, n: nat)
    requires n > 0 && AllKept(replies, n)
    ensures replies != [] && Kept(replies[0], Min(BATCH_MAX, n)) && AllKept(replies[1..], n - Min(BATCH_MAX, n))
  {
  }

  // ---- Whose report each index is ----

  /** The chunk an input index is in reported this of it. */
  ghost predicate Reported(replies: seq<Reply>, d: Datum) {
    var c := d.index / BATCH_MAX;
    && c < |replies| && replies[c].Answered?
    && Datum(d.index % BATCH_MAX, d.id, d.status) in replies[c].outcome.data
  }

  /** The chunk an input index is in was refused whole, or reported an error for it. */
  ghost predicate FailedAt(replies: seq<Reply>, i: nat) {
    var c := i / BATCH_MAX;
    c < |replies| && (replies[c].Refused? || i % BATCH_MAX in replies[c].outcome.errors)
  }

  /** The outcome holds, for the indices so far, just what their chunks reported. */
  ghost predicate Tells(out: Outcome, replies: seq<Reply>, upto: nat) {
    && (forall d :: d in out.data <==> d.index < upto && Reported(replies, d))
    && (forall i: nat :: i in out.errors <==> i < upto && FailedAt(replies, i))
  }

  lemma ShiftedHas(data: seq<Datum>, base: nat, d: Datum)
    ensures d in Shifted(data, base) <==> base <= d.index && Datum(d.index - base, d.id, d.status) in data
  {
    if base <= d.index && Datum(d.index - base, d.id, d.status) in data {
      var x :| 0 <= x < |data| && data[x] == Datum(d.index - base, d.id, d.status);
      assert Shifted(data, base)[x] == d;
    }
  }

  lemma RangeHas(base: nat, size: nat, i: nat)
    ensures i in Range(base, size) <==> base <= i < base + size
  {
    if base <= i < base + size { assert Range(base, size)[i - base] == i; }
  }

  lemma WithinChunk(c: nat, i: nat)
    requires c * BATCH_MAX <= i < (c + 1) * BATCH_MAX
    ensures i / BATCH_MAX == c && i % BATCH_MAX == i - c * BATCH_MAX
  {
  }

  /** A complete chunk's data and errors are its own indices'. */
  lemma ChunkIndices(o: Outcome, size: nat)
    requires Complete(o, size)
    ensures (forall d | d in o.data :: d.index < size) && forall i | i in o.errors :: i < size
  {
    forall d | d in o.data ensures d.index < size {
      var x :| 0 <= x < |o.data| && o.data[x] == d;
      assert Indices(o.data)[x] == d.index && d.index in Indices(o.data);
    }
  }

  lemma GatherData(out: Outcome, replies: seq<Reply>, c: nat, size: nat, d: Datum)
    requires c < |replies| && size <= BATCH_MAX && Kept(replies[c], size) && Tells(out, replies, c * BATCH_MAX)
    ensures d in Gathered(out, replies[c], c * BATCH_MAX, size).data <==>
            d.index < c * BATCH_MAX + size && Reported(replies, d)
  {
    var base := c * BATCH_MAX;
    if base <= d.index < base + size { WithinChunk(c, d.index); }
    if replies[c].Answered? {
      ShiftedHas(replies[c].outcome.data, base, d);
      ChunkIndices(replies[c].outcome, size);
    }
  }

  lemma GatherErrors(out: Outcome, replies: seq<Reply>, c: nat, size: nat, i: nat)
    requires c < |replies| && size <= BATCH_MAX && Kept(replies[c], size) && Tells(out, replies, c * BATCH_MAX)
    ensures i in Gathered(out, replies[c], c * BATCH_MAX, size).errors <==>
            i < c * BATCH_MAX + size && FailedAt(replies, i)
  {
    var base := c * BATCH_MAX;
    if base <= i < base + size { WithinChunk(c, i); }
    match replies[c]
    case Refused => RangeHas(base, size, i);
    case Answered(o) =>
      OffsetHas(o.errors, base, i);
      ChunkIndices(o, size);
  }

  lemma GatherTells(out: Outcome, replies: seq<Reply>, c: nat, size: nat)
    requires c < |replies| && size <= BATCH_MAX && Kept(replies[c], size) && Tells(out, replies, c * BATCH_MAX)
    ensures Tells(Gathered(out, replies[c], c * BATCH_MAX, size), replies, c * BATCH_MAX + size)
  {
    forall d { GatherData(out, replies, c, size, d); }
    forall i: nat { GatherErrors(out, replies, c, size, i); }
  }

  /**
   * Indices refer to the whole input, not to the chunk, so data and errors
   * partition it, and each index is told as its own chunk reported it; the
   * items of a refused chunk all failed.
   */
  method BatchContacts(n: nat, replies: seq<Reply>) returns (out: Outcome)
    requires AllKept(replies, n)
    ensures Complete(out, n) && Whole(out.counts) == n
    ensures Tells(out, replies, n)
  {
    out := NOTHING;
    NothingCompletes();
    var rest, base := replies, 0;
    ghost var c, left := 0, n;
    while base < n
      invariant base <= n && left == n - base && c <= |replies| && rest == replies[c..]
      invariant base == c * BATCH_MAX || base == n
      invariant AllKept(rest, left) && Complete(out, base) && Tells(out, replies, base)
    {
      FirstKept(rest, left);
      var size := Min(BATCH_MAX, n - base);
      GatherTells(out, replies, c, size);
      out := AddChunk(out, rest[0], base, size);
      rest := rest[1..];
      base, left, c := base + size, left - size, c + 1;
    }
    TalliedSums(out);
  }

  /** The loop's body: a refused chunk is listed item by item, an answered one with its indices moved. */
  method AddChunk(out: Outcome, reply: Reply, base: nat, size: nat) returns (after: Outcome)
    requires Complete(out, base) && Kept(reply, size)
    ensures Complete(after, base + size) && after == Gathered(out, reply, base, size)
  {
    GatherKeeps(out, reply, base, size);
    after := Gather(out, reply, base, size);
  }

  method Gather(out: Outcome, reply: Reply, base: nat, size: nat) returns (after: Outcome)
    ensures after == Gathered(out, reply, base, size)
  {
    after := out;
    match reply
    case Refused =>
      for i := 0 to size
        invariant after == out.(errors := out.errors + Range(base, i))
      {
        after := after.(errors := after.errors + [base + i]);
      }
      after := after.(counts := after.counts.(failed := after.counts.failed + size));
    case Answered(o) =>
      for i := 0 to |o.data|
        invariant after == out.(data := out.data + Shifted(o.data, base)[..i])
      {
        after := after.(data := after.data + [o.data[i].(index := base + o.data[i].index)]);
      }
      for i := 0 to |o.errors|
        invariant after.counts == out.counts && after.data == out.data + Shifted(o.data, base)
        invariant after.errors == out.errors + Offset(o.errors, base)[..i]
      {
        after := after.(errors := after.errors + [base + o.errors[i]]);
      }
      after := after.(counts := Plus(after.counts, o.counts));
  }
}
