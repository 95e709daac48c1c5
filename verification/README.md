# Models of MillionSend's protocols

These modules model the parts of MillionSend that promise something about whole
runs rather than about one call, and prove those promises: metered billing and
the application of Stripe's state, contact batches and batch quotas, the
inbound MX's memory budget, cursor pagination on both sides, and the migration
command-line tool (plan, apply, resume, pacing, merge tags, cursor tracking).

Each file is one module. Code that changes state is a class or a method with
the loops of the original, proved against a specification function or a step
function; code that interleaves with itself or with others is a state machine
whose runs are sequences of steps, crashes and other writers included.

| file | what it models |
|---|---|
| OverageProtocol.dfy, OverageReport.dfy | the meter protocol as interleaved statements, and the loop that drives it |
| Rungs.dfy | the ladder of plans, and reading a rung back from a team's row |
| Subscription.dfy, Webhook.dfy, Unlocked.dfy | applying a subscription, the locked transactions that do it, and the writers without the lock |
| Contacts.dfy, ContactBatch.dfy, BatchOutcome.dfy | what a contact batch writes, how its attempts answer, how client and API report it |
| ContactValues.dfy, ContactAnswers.dfy | which item's values a contact ends with, and which status each position is answered |
| Quota.dfy, BatchQuota.dfy | quota reservations, and the quota pass of a batch send |
| Mx.dfy | the shared budget and the door of the inbound MX |
| Pages.dfy, ListAll.dfy | both forms of a page, and the client's cursor walk |
| Matching.dfy, Clash.dfy, Settling.dfy, Plan.dfy | pairing source rows with target rows, what becomes of two on one row, when rounds settle, and the plan over five resources |
| Sync.dfy, Arrival.dfy | contacts over repeated runs, and what arrives of a contact with each write |
| Resume.dfy, Suppressions.dfy | the interrupted pass, the suppression list |
| Pacer.dfy | request pacing and the retry loop |
| Braces.dfy, MergeTags.dfy | triple-brace tokens, and their rewriting |
| Cursor.dfy | the terminal cursor tracker and the row count |
| Common.dfy | small shared definitions |

`dafny verify dfyconfig.toml` checks the project.

## What the proofs found

- The check for an open pin before a move up (packages/billing/src/overage.ts:158)
  and the statement that settles the counter
  (packages/billing/src/subscription.ts:367-379) are separate, with a Stripe call
  between them, so a runner may pin in the gap. `MoveUpSafeIff` says exactly when
  that is harmless, and `UnguardedMoveBillsTwice` is a run that meters 150 units
  where 100 are due. The invariants over runs take the check as a guard.
- A pin at or below the reported counter is never picked up again
  (`TwoRunsSettle`).
- The webhook locks by subscription when its payload names no customer
  (packages/billing/src/webhook.ts:78). Such a delivery does not exclude the
  customer's other transactions: `NoCustomerDiverges` is a run that ends in a row
  Stripe has left although its state was fetched and applied since, and
  `NoCustomerGoesBack` one in which an ended plan comes back. `ConvergesIff` says
  exactly when this cannot happen: every run the endpoint may be sent converges if
  and only if every payload about a subscription names its customer. The comment at
  packages/billing/src/subscription.ts:36-41 says every writer of the billing
  columns takes that lock; `endMoveUpWait`, `endSubscription` and `setOverage`
  write them without it. The last writes one flag no apply touches; the other two
  are modelled as writes at any moment. `ConvergesUnlockedIff` says exactly what
  convergence is left: the row is Stripe's if and only if no such write that matters
  follows the last apply of what Stripe has. `EndedThoughEntitled` is a run that ends
  without a plan although the entitled subscription was applied since.
- In an upsert batch a later `unsubscribed: false` undoes an earlier `true` for
  the same address; one item at a time it does not. `UpsertFlagAgreesIff` says
  exactly when the two agree.
- The budget of the MX is not checked at the hand-off, where the count doubles:
  `buffered` may reach twice its limit (`TwiceReached`), and no more.
- A 429 leaves the pacing rate above its target exactly when the target is under
  1 (`CutAboveTargetIff`), so it speeds such a client up (`FloorAboveTarget`); the
  command line admits targets of 1 and more.
- A tab counts as a cell in `rowsFor` and not in the tracker, and DEL the other
  way round. `LineAgreesIff` says exactly for which lines the two still agree, and
  `TabOrDelDiffers` that at a width of 1 one of either parts them.
- The alias table of the merge tags is an object literal, so a token named after
  something every object inherits (`constructor`, `toString`) is left and
  reported although it fits the grammar (`InheritedIff`).
- `contact.unsubscribe_url` is the one name a second rewriting changes
  (`TwiceIsOnceIff`).
- Two source templates may match one target row, one by alias and one by name.
  The next plan creates if and only if one without an alias shares its row so, and
  no unmatched target row bears its name (`SecondPlanCreatesIff`). Aliases being
  unique on the target (packages/db/src/schema/templates.ts:29), as every write
  leaves them (`AliasesStayApart`), the pair is stuck if both have an alias and no
  unmatched target row before the shared one bears the name of the one matched by
  alias. `MigrationSettlesIff` says exactly when the migration settles: if and only
  if no pair is stuck, and then after three rounds at most. A stuck pair is updated
  by every later plan (`StuckUpdates`, `NeverSettlesHere`); one that is not stuck
  never shares a row again (`TogetherIff`, `ComesApartHere`). This is for distinct
  names: two templates of one name, with no alias and different contents, never
  settle (`OneNameNeverSettles`).
- A suppression that someone else adds between the listing and the add is
  recorded as created by the tool (`ForeignRecorded`). Over any chain of runs what
  is recorded is the tool's own if and only if every add knew of its addresses
  already listed (`RecordsOwnOverRunsIff`); what was listed when the chain began is
  never recorded (`NothingThereBeforeRecorded`).
- A run stopped between a write and its save leaves rows that no later state file
  names, so a rollback misses them (`LostChunkUnrecorded`, `NeverNamed`); what that
  write sent is sent again (`LostSaveResubmits`).

## Model

| member | source | states |
|---|---|---|
| OverageProtocol.NextKeeps | packages/billing/src/overage.ts:83-131 | Every statement of any runner, a crash, a refused or lost answer, new usage and a guarded move up keep the invariant tying row, meter and runners together. |
| OverageProtocol.RunKeeps | packages/billing/src/overage.ts:77-136 | The invariant holds after every interleaving whose moves up meet no open pin. |
| OverageProtocol.ExactlyOnce | packages/billing/src/overage.ts:24-33 | With no move up, in any interleaving, the recorded events are disjoint steps joined end to end from 0 and sum to the reported counter, or to the pin while its event has landed and its catch-up has not. |
| OverageProtocol.AcrossMoves | packages/billing/src/subscription.ts:365-380 | With guarded moves up and stale rungs, steps stay disjoint from each other and from what moves settled, both together account for the counter, and the total metered is at most the highest accepted less the smallest volume read. |
| OverageProtocol.MoveUpSafeIff | packages/billing/src/overage.ts:156-160 | A move up between a runner's read and its event leaves every unit counted once if and only if no pin was open or the move does not advance the counter. |
| OverageProtocol.MoveUpBillsOnlyLater | packages/billing/src/subscription.ts:365-380 | After a move up the next step bills just what was accepted past both the new volume and what was settled or reported before; nothing is taken back. |
| OverageProtocol.UnguardedMoveBillsTwice | packages/billing/src/subscription.ts:336-379 | A run with a pin taken between the check and the settling meters overlapping steps, 150 units where 100 are due. |
| OverageReport.Reporter.ReportUsageRow | packages/billing/src/overage.ts:78-135 | One row of the loop changes table and meter, and answers, as its specification says; `DueIff`, `PassedOver` and `OneAttempt` say what that is on the row's columns. |
| OverageReport.Reporter.ReportOverage | packages/billing/src/overage.ts:75-138 | The loop leaves what folding its rows leaves, and counts reported and failed rows exactly; `OneAttempt` says what each row leaves, `TallySums` what the two counts come to. |
| OverageReport.DueIff | packages/billing/src/overage.ts:66-109 | The loop takes up a row if and only if the team has a metered item and a customer, pays by the month, no move up holds a running period, and the event would be at most 35 days old. |
| OverageReport.PassedOver | packages/billing/src/overage.ts:78-109 | With any of those failing, table and meter stay as they are, and the row is neither reported nor failed. |
| OverageReport.OneAttempt | packages/billing/src/overage.ts:110-135 | What one attempt at such a row read fresh leaves of the row and of the meter, and how it is counted, for each answer of Stripe and with or without an open pin. |
| OverageReport.StaleRead | packages/billing/src/overage.ts:112-121 | A row read without a pin whose counter moved, or was pinned, since is left as it is, and no event goes out. |
| OverageReport.StalePin | packages/billing/src/overage.ts:122-131 | A pin read before others moved on: its event goes out again under the same identifier, and the row follows only if it still stands there. |
| OverageReport.TallySums | packages/billing/src/overage.ts:75-138 | Every row of a run is reported, failed or passed over, once. |
| OverageReport.SoldIsMetered | packages/core/src/plans.ts:164-176 | Once a subscription is applied, the volume the loop leaves unbilled is that of the rung Stripe sold, and only a monthly rung with a metered item is metered. |
| OverageReport.DriveRefinesProtocol | packages/billing/src/overage.ts:112-130 | Driving one row is three steps of the interleaved protocol, and so keeps its invariant. |
| OverageReport.OneRun | packages/billing/src/overage.ts:83-131 | One undisturbed run finishes an open pin, or else brings the counter to the larger of itself and what is accepted past the volume. |
| OverageReport.TwoRunsSettle | packages/billing/src/overage.ts:83-131 | Two undisturbed runs end with no pin at the maximum of counter, pin and due usage if and only if an open pin was above the counter. |
| Subscription.TeamBilling.ApplySubscription | packages/billing/src/subscription.ts:53-152 | The row becomes what the specification gives for every status, which `ActiveRow`, `PastDueRow`, `EndedRow` and `NotTaken` say column by column; unbilled overage is reported first exactly when the row stops naming its metered item. |
| Rungs.ReadsBack | packages/core/src/plans.ts:164-176 | A rung written to a row as plan and volume is the one read back from it. |
| Subscription.ActiveRow | packages/billing/src/subscription.ts:92-151 | While a subscription is paid for, the row read back is on the rung Stripe sold; it names the subscription, its metered item or the one just asked for, another scheduled rung, and Stripe's dates. |
| Subscription.PastDueRow | packages/billing/src/subscription.ts:123-151 | With payment overdue plan and volume stay as they are, and so does the item Stripe has. |
| Subscription.EndedRow | packages/billing/src/subscription.ts:126-151 | Ended or never begun, the row is the free plan without volume, item or scheduled rung. |
| Subscription.NotTaken | packages/billing/src/subscription.ts:76-91 | A system team, a past state of another subscription than the row's, and a paid one on no known rung change nothing. |
| Subscription.SettledOverwrites | packages/billing/src/subscription.ts:83-151 | An entitled subscription leaves nothing of the row that was there. |
| Subscription.NeverSystem | packages/billing/src/subscription.ts:76-81 | Applies never take a team to or from the system plan, nor change one on it. |
| Subscription.Confluence | packages/billing/src/subscription.ts:42-152 | With one entitled subscription, any order and repetition of applies that includes it ends in the row it alone gives. |
| Subscription.OrderShowsOtherwise | packages/billing/src/subscription.ts:84-87 | With two entitled subscriptions, or none on a fresh row, two orders give different rows. |
| Webhook.NextKeeps | packages/billing/src/webhook.ts:68-88 | Begin, lock, fetch, commit and rollback of any transaction, and any change at Stripe, keep the invariant. |
| Webhook.RunKeeps | packages/billing/src/subscription.ts:204-212 | In every run, states fetched under one lock are applied in Stripe's order, and every event kept in the ledger was covered by a fetch at least as new. |
| Webhook.Converges | packages/billing/src/webhook.ts:46-54 | When every payload about a subscription names its customer, then in any run, once Stripe stands still with one entitled subscription fetched since, the row is the one it alone gives. |
| Webhook.ConvergesIff | packages/billing/src/webhook.ts:68-88 | Every run the endpoint may be sent converges if and only if no payload about a subscription lacks its customer. |
| Webhook.EndedConverges | packages/billing/src/subscription.ts:107-151 | Under the same condition, once no subscription is entitled and the row's own, ended, was fetched since Stripe's last change, the row is the free plan it alone gives. |
| Webhook.KeptEventConverges | packages/billing/src/webhook.ts:69-88 | Under the same condition, once a delivery announcing the last change is kept, the row is Stripe's. |
| Webhook.NoCustomerDiverges | packages/billing/src/webhook.ts:78-78 | With one delivery without a customer, a run ends in the row of an older state although the one entitled subscription was fetched and applied since. |
| Webhook.NoCustomerGoesBack | packages/billing/src/webhook.ts:78-78 | Likewise a plan that Stripe has ended comes back and stays, the event kept in the ledger. |
| Unlocked.ConvergesUnlockedIff | packages/billing/src/subscription.ts:220-468 | With waits and plans ended at any moment without the lock, once Stripe stands still with one entitled subscription applied since, the row is the one it alone gives if and only if after one such apply no plan was ended, and no wait either unless there was none. |
| Unlocked.EndedThoughEntitled | packages/billing/src/subscription.ts:428-468 | A run in which the plan is ended after the entitled subscription was fetched and applied: the row stays without a plan. |
| Unlocked.UnlockedWrites | packages/billing/src/subscription.ts:236-468 | Ending a wait clears the hold alone; ending a plan clears every billing column. |
| Webhook.Endpoint.HandleWebhook | packages/billing/src/webhook.ts:55-90 | The reply, the ledger and the row of one delivery, for a bad signature, a repeat, an event about nothing, a failed fetch and an apply. |
| Webhook.DeliverAlone | packages/billing/src/webhook.ts:68-88 | Alone, the protocol's four steps do to ledger and row what the endpoint does. |
| Webhook.ApplyAlone | packages/billing/src/subscription.ts:170-215 | Alone, a reconcile puts the customer's newest subscription on the row, an apply the one it names, and neither keeps an event; without one to find nothing changes. |
| Webhook.DeliveredOnce | packages/billing/src/webhook.ts:68-77 | In every run at most one transaction is delivering an event, and none once it is kept. |
| Contacts.BatchEqualsOneByOne | apps/api/src/app.ts:1173-1455 | A batch of valid items leaves what its items leave one at a time: wholly under error and skip, under upsert in all but the unsubscribed flag. |
| Contacts.UpsertFlagAgreesIff | apps/api/src/app.ts:1236-1240 | Under upsert the flag agrees too if and only if the contact was out already, no item unsubscribes, or the last stated flag does. |
| Contacts.NeverSubscribesAgain | apps/api/src/app.ts:1371-1400 | Whatever its items say, a batch never clears a stored contact's unsubscribed flag, removes it or gives it another id. |
| Contacts.UpsertKeepsOptOuts | apps/api/src/app.ts:1426-1451 | Items that only opt out of topics keep every opt-out a stored contact has. |
| Contacts.CollapseDistinct | apps/api/src/app.ts:1201-1243 | Items collapse to one write per address. |
| ContactValues.UpsertFields | apps/api/src/app.ts:1236-1243 | Under upsert each name, each property and each topic of the contact left under an address is what the last of its items to state it says, else what was stored. |
| ContactValues.UpsertRest | apps/api/src/app.ts:1368-1453 | Under upsert the contact ends in the segments it was in and those some item of its address names, out if it was or if the last stated flag says so, with the id and email it had, or its first item's; an address no item has is left alone. |
| ContactValues.FirstItemHolds | apps/api/src/app.ts:1230-1243 | Under skip and error a stored contact is left as it was, and a new one is what its address's first item says. |
| ContactValues.LastWinsIs | apps/api/src/app.ts:1199-1203 | Of an item's choices about a topic the last one counts. |
| ContactBatch.CollapseOk | apps/api/src/app.ts:1179-1243 | Every request position is resolved by the collapsing or belongs to exactly one row. |
| ContactAnswers.FirstIs | apps/api/src/app.ts:1179-1228 | Before any attempt a malformed item has its own error and, under error, each later item of an address 422; every other position is open. |
| ContactAnswers.RowAnswers | apps/api/src/app.ts:1204-1232 | A row answers for exactly its address's items, under error only the first, and the first of them leads. |
| ContactAnswers.RowTold | apps/api/src/app.ts:1303-1350 | What a committing attempt answers an open row: 404 for a foreign segment or topic, 422 for an address that takes no mail, 403 when the new contacts outnumber the room, 409, skipped, updated or created otherwise. |
| ContactAnswers.PositionAnswers | apps/api/src/app.ts:1245-1256 | Each position answers what its row does, except that under skip only the first item of an address is told it was written. |
| ContactBatch.Classify | apps/api/src/app.ts:1303-1332 | The loop settles just the open rows its reads decide, and picks the rest to insert or update, in order. |
| ContactBatch.Tables.WriteOne | apps/api/src/app.ts:1372-1453 | One row inserts the contact or updates it as its specification says, which `UpsertFields`, `UpsertRest` and `FirstItemHolds` say of the items; one restating what is stored changes no own column. |
| ContactBatch.Tables.TryOnce | apps/api/src/app.ts:1273-1508 | One attempt ends, is refused, retries or throws as its reads and its transaction decide, and writes all its rows or none. |
| ContactBatch.Tables.Write | apps/api/src/app.ts:1272-1510 | Every position is resolved once across all attempts unless the transaction fails for good, which a violation does only at the third attempt, or a strict batch meets an error, and then the tables stay as they were found; an answer given in one attempt stays, and a batch with nothing in its way leaves what its items leave. |
| ContactBatch.CommittedIsBatch | apps/api/src/app.ts:1351-1455 | When every row the mode writes is written, the tables hold what the batch of items leaves. |
| ContactBatch.SmoothIsBatch | apps/api/src/app.ts:1272-1455 | Valid items on known segments and topics, with room for the new ones and a transaction that commits, leave what the batch of items leaves. |
| BatchOutcome.OutcomePartitions | apps/api/src/app.ts:1853-1866 | Data and errors of a response partition the request's indices, and the counts are theirs, status by status. |
| BatchOutcome.Respond | apps/api/src/app.ts:1856-1866 | The response loop builds that outcome: each datum is its own position's answer, each error a failed one, and the counts sum to the batch. |
| BatchOutcome.GatherKeeps | packages/cli/src/millionsend.ts:324-351 | Adding one chunk, answered or failed whole, extends the partition to its indices. |
| BatchOutcome.BatchContacts | packages/cli/src/millionsend.ts:311-353 | The client's chunked outcome partitions 0..n-1, its counts sum to n, and it tells each index exactly what the index's own chunk reported; the items of a refused chunk all failed. |
| Quota.Counters.ReserveQuota | packages/core/src/quota.ts:291-319 | A reservation charges every counter that caps the send or none, refuses with the room left, and gives back what a later counter refused. |
| Quota.Counters.ReleaseQuota | packages/core/src/quota.ts:321-345 | A release undoes exactly one charge, and its floor at zero never bites. |
| Quota.FitsLeavesWithin | packages/core/src/quota.ts:121-136 | A charge that fits leaves every capped counter of its day, the day's, its pool's and the period's, within its ceiling. |
| Quota.FitsSpec | packages/core/src/quota.ts:121-136 | A count fits if and only if it takes no capped counter of the day past its ceiling: the day's and its pool's, or the period's and the day's. |
| Quota.RoomIsFit | packages/core/src/quota.ts:103-119 | A count fits a daily cap if and only if it is at most the room a refusal reports. |
| BatchQuota.FitIsLongest | apps/api/src/app.ts:4304-4312 | The fit is the longest run of a day's items, from the first, that the room holds. |
| BatchQuota.DecideSpec | apps/api/src/app.ts:4279-4322 | A day keeps all its items, the longest prefix the room read holds, or none once others took that room; what it keeps fits. |
| BatchQuota.QuietDecide | apps/api/src/app.ts:4301-4322 | With no one else on the counters, a prefix fits the day if and only if it is no longer than what the day keeps. |
| BatchQuota.ReserveDay | apps/api/src/app.ts:4279-4322 | The reservation of a day keeps the decided prefix and charges just its recipients. |
| BatchQuota.PlaceDay | apps/api/src/app.ts:4273-4350 | A day parks exactly the tail of its items past the decided prefix, or refuses the batch, and is left as it was, exactly for the reason of `DayRefusal`. |
| BatchQuota.DayRefusal | apps/api/src/app.ts:4286-4343 | A day is refused as monthly quota exceeded if and only if its recipients do not fit the period, and as backlog full if and only if the plan is daily, they do not fit the day or its pool, and no more mail may wait. |
| BatchQuota.PlaceBatch | apps/api/src/app.ts:4262-4381 | The batch is refused exactly at the first day with such a reason, or when it is held and the review queue is full, and then commits nothing. Otherwise every day parks its decided tail, every counter holds just the unparked recipients, and right after its charge every day that keeps items has each capped counter within its ceiling; with no one else on the counters all are so at the end, and the batch goes out whole if and only if every day is roomy. A held batch parks whole and holds nothing. |
| BatchQuota.WholeIff | apps/api/src/app.ts:4262-4350 | With no one else on the counters, a batch that is not refused parks nothing if and only if its own recipients of each day and of the period fit every ceiling. |
| BatchQuota.RefusedIsNotRoomy | apps/api/src/app.ts:4286-4343 | With no one else on the counters, the day a batch is refused at does not fit. |
| BatchQuota.DayWithin | apps/api/src/app.ts:4279-4322 | However others charge in between, a day that keeps items had every capped counter within its ceiling right after its charge. |
| BatchQuota.QuietWithin | apps/api/src/app.ts:4262-4350 | With no one else on the counters, all days that keep items end within their ceilings. |
| BatchQuota.ChargeIsKept | apps/api/src/app.ts:4262-4350 | The charge on each day, its pool and the period equals the recipients of the unparked items, a prefix of each day's. |
| Mx.BudgetKept | apps/mx/src/mx.ts:436-521 | Every handler, at any moment the sessions allow, keeps the account of the budget. |
| Mx.DoorKept | apps/mx/src/mx.ts:408-445 | Every handler keeps the per-address counts and the minute's admissions. |
| Mx.MemoryBound | apps/mx/src/mx.ts:452-521 | In every reachable state `buffered` is the sum of what transfers hold, message bytes fit the limit, `buffered` is at most twice it, and is 0 when nothing is open. |
| Mx.TwiceReached | apps/mx/src/mx.ts:507-510 | The factor of two is reached. |
| Mx.WholeMessage | apps/mx/src/mx.ts:466-511 | What is handed over is every byte the message sent. |
| Mx.KeptIffFits | apps/mx/src/mx.ts:466-476 | A chunk of a message whole so far is kept if and only if it fits the shared budget; otherwise the message gives back all it held. |
| Mx.HangUpFreesNothing | apps/mx/src/mx.ts:478-479 | A client hanging up during the hand-off frees none of its bytes. |
| Mx.DoorBound | apps/mx/src/mx.ts:408-445 | An address's count is its number of sessions, within its share, and no more than the limit are admitted in a minute. |
| Mx.AdmitsIff | apps/mx/src/mx.ts:408-435 | In every run a connection is let in if and only if its address holds less than its share of sessions and has tried, this time included, no more often this minute than it may. |
| Mx.HandedOverIff | apps/mx/src/mx.ts:466-511 | A message that ends is handed over, every byte of it, if and only if it was never called too large and no chunk of it found the budget full. |
| Mx.Server.Connect | apps/mx/src/mx.ts:408-435 | Admission and refusal, with the counts each leaves; like every handler it keeps the account of the budget and the door. |
| Mx.Server.Close | apps/mx/src/mx.ts:436-445 | Closing releases a streaming message and the address's slot. |
| Mx.Server.Chunk | apps/mx/src/mx.ts:466-476 | A chunk is kept, or starves the message, or is drained. |
| Mx.Server.End | apps/mx/src/mx.ts:477-516 | The end hands the message over, counted twice, or refuses it. |
| Mx.Server.Settle | apps/mx/src/mx.ts:515-519 | The settled hand-off releases what it held. |
| Pages.KeysetRefinesArray | apps/api/src/app.ts:816-872 | For distinct sort keys and every query, unknown cursors included, the database form answers as the list form over the newest-first list. |
| Pages.EndCursor | apps/api/src/app.ts:820-824 | The end cursor reads as one past the oldest row. |
| Pages.Requests | apps/api/src/app.ts:852-872 | A cursor no row has is refused, `before` counts when both are given, and a page is 20 rows by default. |
| Pages.FollowIsList | apps/api/src/app.ts:811-815 | Following `after` walks the whole list in order with no repeat. |
| Pages.BeforeUndoesAfter | apps/api/src/app.ts:808-815 | `before` the first id of a page returns the page that led to it. |
| ListAll.AnyServerStops | packages/cli/src/http.ts:44-67 | Whatever the server answers, the walk makes at most one request more than its limit. |
| ListAll.EachPageBringsAnId | packages/cli/src/http.ts:59-65 | Every non-empty page accepted moves the cursor and brings a new id. |
| ListAll.RequestsBounded | packages/cli/src/millionsend.ts:175-193 | A walk that ends well made at most one request more than the distinct ids it returns, oldest first. |
| ListAll.HonestServer | packages/cli/src/millionsend.ts:171-193 | Against a server that pages like the list, the walk returns every row once, oldest first, if and only if the list fits the page limit; else it raises for that limit. |
| ListAll.SortSorts | packages/cli/src/millionsend.ts:187-189 | The final sort keeps the rows and orders them by creation time and id. |
| ListAll.CursorGuard.Admit | packages/cli/src/http.ts:51-66 | The guard's counter, its three refusals in order, and the ids it remembers. |
| ListAll.ListAll | packages/cli/src/millionsend.ts:175-193 | The loop is the walk. |
| Matching.FirstMatch | packages/cli/src/plan.ts:284-286 | The row found is the first with the alias, else the first with the name. |
| Matching.MatchIs | packages/cli/src/plan.ts:284-286 | A source row matches the first target row with its alias, failing any the first with its name, and none if no row has either. |
| Matching.BuildPlan | packages/cli/src/plan.ts:109-319 | The loop decides create, update, unchanged or neither for every source row. |
| Matching.ApplyRows | packages/cli/src/apply.ts:220-244 | Applying sends each item to the row the plan named, and appends the rows created. |
| Matching.FoundAtHome | packages/cli/src/plan.ts:284-286 | After a round every source row matches the target row it was left on. |
| Matching.NoCreatesAgain | packages/cli/src/plan.ts:109-325 | A second plan creates nothing, and updates only a row whose create could not carry everything. |
| Matching.TwoRoundsSettle | packages/cli/src/plan.ts:109-325 | After two rounds the plan writes nothing. |
| Matching.TwoRoundsCarry | packages/cli/src/plan.ts:109-325 | After two rounds every source row matches a target row that bears its keys and needs no patch. |
| Matching.Unhomed | packages/cli/src/apply.ts:220-244 | A target row no source row matches is left as it was. |
| Plan.TranslateWebhookEvents | packages/cli/src/translate.ts:209-225 | The loop keeps the known events and drops the others, each once, in order. |
| Plan.AmongIs | packages/cli/src/translate.ts:209-225 | Every event is kept once or dropped once, as the target knows it or not. |
| Plan.AmongGrows | packages/cli/src/translate.ts:209-225 | Both lists are in the order of first appearance. |
| Plan.SameSetExact | packages/cli/src/plan.ts:106-107 | Comparing event lists without repeats is comparing their sets. |
| Plan.Migrate | packages/cli/src/apply.ts:246-334 | Planning and applying the five resources in order. |
| Plan.OneRoundCreatesAll | packages/cli/src/plan.ts:109-325 | With distinct keys and matches, applying every create and update and planning again gives no creates. |
| Plan.TwoRoundsWriteAll | packages/cli/src/plan.ts:109-325 | One further round and the plan writes nothing, so a third round leaves the target as it is. |
| Plan.TemplatesCarried | packages/cli/src/plan.ts:280-323 | After two rounds every template with a body is on the target field by field: name and alias, the subject and both bodies with their merge tags rewritten each in its own place, and nothing where the source has nothing. |
| Plan.PropertiesCarried | packages/cli/src/plan.ts:130-152 | After one round every property is there; one that was there keeps its own type. |
| Plan.TopicsCarried | packages/cli/src/plan.ts:154-189 | After one round every topic is there with its description; a new one has the source's default, one that was there keeps its own. |
| Plan.SegmentsCarried | packages/cli/src/plan.ts:191-221 | After one round every segment is there with its filter; one without a filter leaves the target's. |
| Plan.SkippedIff | packages/cli/src/plan.ts:254-291 | Left to the user are exactly the templates without a body and the webhooks without a known event. |
| Plan.PatchSendsChanges | packages/cli/src/plan.ts:293-318 | A patch sends just the fields that differed when it was worked out. |
| Plan.WebhooksCarried | packages/cli/src/plan.ts:514-524 | After two rounds every webhook with a known event is there, with those events and its status. |
| Plan.SecondPlanUpdates | packages/cli/src/plan.ts:514-524 | The second plan updates a webhook if and only if the first created it and the source has it disabled. |
| Plan.TemplateLags | packages/cli/src/plan.ts:290-321 | A created template needs a second round if and only if its alias is the empty string. |
| Plan.WebhookLags | packages/cli/src/plan.ts:514-524 | A created webhook differs from its source if and only if the source has it disabled. |
| Clash.NextCreatesIff | packages/cli/src/plan.ts:284-286 | With distinct names and aliases, a second plan creates if and only if a source row without an alias shares its target row with another and no unmatched target row bears its name. |
| Clash.FlipsForEverIff | packages/cli/src/plan.ts:284-286 | Two source rows on one target row are both updated there by every later plan if and only if both have an alias and no unmatched target row bears the one's alias, or its name before the shared row. |
| Settling.AliasesStayApart | packages/db/src/schema/templates.ts:29 | No write of a round, at whatever item, gives a row an alias that another row bears; an empty alias counts as none. |
| Settling.StuckUpdates | packages/cli/src/plan.ts:284-321 | Every plan, the first and every later one, updates both of a stuck pair on the row they share. |
| Settling.SettlesIff | packages/cli/src/plan.ts:284-325 | With distinct names and aliases, some plan after n rounds writes nothing if and only if no pair is stuck on one target row, and then every plan after three rounds does. |
| Settling.TogetherIff | packages/cli/src/plan.ts:284-286 | After every later round a pair that shared a row shares one again if it is stuck, and never does if it is not. |
| Plan.MigrationSettlesIff | packages/cli/src/plan.ts:109-325 | Of the whole account: the plan over the five resources comes to write nothing if and only if no two templates are stuck on one target row, and then after three rounds. |
| Plan.OneNameNeverSettles | packages/cli/src/plan.ts:284-286 | Two templates of one name, without an alias, that want different contents never let the migration settle. |
| Plan.SecondPlanCreatesIff | packages/cli/src/plan.ts:284-321 | Of templates: the second plan creates exactly in that case. |
| Plan.PairFlipsForEverIff | packages/cli/src/plan.ts:284-321 | Of templates, unique aliases or not: this one pair is updated on its row by every later plan exactly in that case. |
| Plan.NeverSettlesHere | packages/cli/src/plan.ts:284-321 | A target row with one template's alias and another's name: every later plan updates it twice, and no round settles it. |
| Plan.ComesApartHere | packages/cli/src/plan.ts:284-321 | With another row of the one's name before it, the next plan creates nothing and finds the pair on two rows. |
| Sync.OptOutsSurvive | packages/cli/src/apply.ts:437-579 | In any sequence of runs after a completed enrichment, no write undoes an opt-out or clears the unsubscribed flag under an address its run did not insert. |
| Sync.OptOutsSurviveByContact | packages/cli/src/apply.ts:437-579 | Likewise for every contact its run did not create, as long as no one else puts another contact under an address a run inserted. |
| Sync.WriteKeepsOptOuts | packages/cli/src/apply.ts:337-387 | Neither the contacts pass nor a flush of either enrichment pass undoes one. |
| Sync.FlipsIff | packages/cli/src/apply.ts:133-157 | A topics flush turns an opt-out into an opt-in if and only if the whole list is sent and its last word on the topic is an opt-in. |
| Sync.ChunkNotes | packages/cli/src/apply.ts:361-374 | What the contacts pass notes as created is an address this run inserted. |
| Arrival.SentIff | packages/cli/src/apply.ts:498-545 | A contact of a flush is sent if and only if it has a choice or a property for the pass and this run neither skipped nor failed it. |
| Arrival.TopicArrives | packages/cli/src/apply.ts:133-157 | A taken topics flush leaves each topic as the last choice sent about it, or as it was where none is sent, and changes no property. |
| Arrival.OptOutArrives | packages/cli/src/apply.ts:145-151 | When the source's last word on a topic is an opt-out, a taken topics flush leaves the contact out of it, newly created or not. |
| Arrival.PropertyArrives | packages/cli/src/apply.ts:138-144 | A taken properties flush leaves each property the target has as the source does, and changes no topic. |
| Arrival.FlagArrives | packages/cli/src/apply.ts:544-551 | In either pass the flag and the names go along exactly for a contact this run's contacts pass never saw; memberships never do. |
| Arrival.OthersStay | packages/cli/src/apply.ts:535-545 | A flush leaves alone every address no contact of it has and every one this run skipped or failed. |
| Arrival.ContactArrives | packages/cli/src/apply.ts:356-368 | Under upsert a contact of a chunk ends out if it is at the source or was here, with the source's names and in its segments besides its own. |
| Arrival.NewContactArrives | packages/cli/src/apply.ts:356-368 | Under skip and error a stored contact is left as it was, and a new one is as the source has it. |
| Arrival.StatusNoted | packages/cli/src/apply.ts:367-378 | The run notes of each contact of a chunk what became of it: failed, skipped, updated or created. |
| Resume.NextKeeps | packages/cli/src/apply.ts:167-387 | Start, crash, plan row, chunk, enrichment flush, save, finish and any change by others keep the invariant of cursor, record and rows. |
| Resume.EveryContactSubmitted | packages/cli/src/apply.ts:351-386 | However often runs were interrupted, once one finishes every source contact was submitted. |
| Resume.RollbackNamesOwnRows | packages/cli/src/apply.ts:167-171 | At any moment the state file names only rows this tool created, by plan rows, the contacts pass or a flush, none that was there before. |
| Resume.SavedNamesAll | packages/cli/src/apply.ts:367-382 | Once a chunk is saved, the state file names every row it inserted. |
| Resume.CreatedIsNamed | packages/cli/src/apply.ts:167-171 | So it does for a row of the plan and for all rows of a flush. |
| Resume.ResumesWhereSaved | packages/cli/src/apply.ts:353-355 | A run stopped once its chunk is saved goes on right after that chunk. |
| Resume.UnknownCursorStartsOver | packages/cli/src/apply.ts:353-354 | A cursor the snapshot does not hold starts the pass over. |
| Resume.LostChunkUnrecorded | packages/cli/src/apply.ts:364-382 | The rows of a chunk whose run stops before its save are on no record. |
| Resume.NeverNamed | packages/cli/src/apply.ts:364-382 | A row of this tool on no record is named by no later state file, so a rollback misses it. |
| Resume.LostSaveResubmits | packages/cli/src/apply.ts:351-386 | After a run that sent a chunk and stopped before saving it, any chain of runs that finishes has sent every contact of that chunk again. |
| Resume.Import.ContactsPass | packages/cli/src/apply.ts:351-386 | The pass, stopped anywhere or run to its end, keeps the invariant, and at its end has submitted everything. |
| Suppressions.RecordsOwnIff | packages/cli/src/apply.ts:406-421 | An add records only ids it made if and only if every address already listed is one the pass knew of. |
| Suppressions.NothingThereBeforeRecorded | packages/cli/src/apply.ts:404-435 | Over any chain of interrupted runs, with others changing the list at any time, no id listed when the chain began is ever recorded. |
| Suppressions.RecordsOwnOverRunsIff | packages/cli/src/apply.ts:404-435 | Over the same chains every recorded id is this tool's own if and only if every recorded add knew of its addresses already listed. |
| Suppressions.UndisturbedPass | packages/cli/src/apply.ts:404-435 | Chains in which others change the list only between runs record only ids this tool made. |
| Suppressions.ForeignRecorded | packages/cli/src/apply.ts:406-421 | An address listed by someone else in between is recorded as created. |
| Suppressions.RecordAnswer | packages/cli/src/apply.ts:416-423 | The loop records the unknown ids, each once. |
| Suppressions.RecordedOnce | packages/cli/src/apply.ts:416-423 | No id is recorded twice by an add. |
| Pacer.RateBounded | packages/cli/src/http.ts:206-223 | With targets of at least 1 the effective rate stays between 1 and the target. |
| Pacer.StartsSpaced | packages/cli/src/http.ts:224-229 | Any two scheduled starts are a gap of the fastest target apart for each start between them. |
| Pacer.WindowBound | packages/cli/src/http.ts:224-229 | Any window of W ms holds at most W*R/1000 + 1 starts. |
| Pacer.HoldRespected | packages/cli/src/http.ts:224-238 | A start is at its own time, the next slot or the hold, whichever is last, so after every wait already asked for. |
| Pacer.HoldIs | packages/cli/src/http.ts:231-238 | The hold is the longest wait any answer with two requests or fewer left asked for, each at least none and at most two minutes, and no longer. |
| Pacer.RampSplits | packages/cli/src/http.ts:213-223 | Asking for the rate on the way does not change the rate found later. |
| Pacer.Recovers | packages/cli/src/http.ts:312-319 | After a 429 and k quiet seconds the rate is k above the half it fell to, up to the target. |
| Pacer.CutAboveTargetIff | packages/cli/src/http.ts:312-319 | From any rate up to the target, a 429 leaves the rate above it if and only if the target is under 1. |
| Pacer.FloorAboveTarget | packages/cli/src/http.ts:313-313 | A fresh client with a target under 1 is sped up to 1 by a 429. |
| Pacer.Pacing.Acquire | packages/cli/src/http.ts:224-229 | The slot taken, the next slot left, and the sleep until it. |
| Pacer.Pacing.SetRps | packages/cli/src/http.ts:355-359 | An unthrottled client follows the new target; a throttled one keeps climbing. |
| Pacer.UnlimitedFollows | packages/cli/src/http.ts:355-359 | A client never limited runs at the last target asked for, whatever else comes in between. |
| Pacer.ClimbsOn | packages/cli/src/http.ts:355-359 | A throttled client does not jump to a new target. |
| Pacer.Request | packages/cli/src/http.ts:264-348 | Every answer before the last is a broken exchange or a 429, the last decides the reply by its status, giving up is running out of one kind of attempt, attempts are bounded, and the back-off doubles. |
| Braces.ParseReads | packages/cli/src/translate.ts:58-58 | Tokens are leftmost and as short as they close, and the text is what they render to. |
| Braces.RewriteParses | packages/cli/src/translate.ts:74-90 | The rewritten text's tokens are the text's, rewritten one by one. |
| Braces.IdempotentIff | packages/cli/src/translate.ts:74-90 | Rewriting twice is rewriting once if and only if it is so for each token. |
| MergeTags.TranslateMergeTags | packages/cli/src/translate.ts:74-90 | The replacing loop gives the rewritten text and the reported tokens. |
| MergeTags.OutsideUnchanged | packages/cli/src/translate.ts:70-89 | Text outside the tokens is unchanged, and each token is renamed or left. |
| MergeTags.FitsOrReported | packages/cli/src/translate.ts:70-89 | Every token of the output fits the target's grammar or stood in the input and is reported; each is reported once and nothing else is. |
| MergeTags.ReportsGrow | packages/cli/src/translate.ts:74-90 | Tokens are reported in the order of first appearance. |
| MergeTags.ContactTokens | packages/cli/src/translate.ts:61-89 | However it is spaced, a token of one of the contact's fields becomes the target's own name for the three built-in ones and the bare key for any other, its fallback kept. |
| MergeTags.PlainTokens | packages/cli/src/translate.ts:61-89 | A token already in the grammar keeps its name, but for the unsubscribe link and the names the alias table inherits. |
| MergeTags.TwiceIsOnceIff | packages/cli/src/translate.ts:61-82 | Translating twice is translating once if and only if no token names contact.unsubscribe_url with a fallback that fits. |
| MergeTags.InheritedIff | packages/cli/src/translate.ts:61-85 | A token already in the grammar is left and reported if and only if the alias table inherits its name. |
| Cursor.CursorTracker.Feed | packages/cli/src/tty-ui.ts:37-63 | Feeding a text moves the tracker token by token. |
| Cursor.StaysOnScreen | packages/cli/src/tty-ui.ts:18-24 | Whatever is sent, the column stays on the screen and only a full row waits to wrap. |
| Cursor.ChunksAgree | packages/cli/src/tty-ui.ts:14-16 | However a text is cut at token boundaries, the tracker ends where the whole text takes it. |
| Cursor.ShownNext | packages/cli/src/tty-ui.ts:53-61 | One more character takes the closed form one further, pending wrap included. |
| Cursor.TrackerCountsRows | packages/cli/src/tty-ui.ts:206-210 | For any width and any lines of printable characters and sequences that move nothing, writing each line and a newline moves the row by exactly `rowsFor`. |
| Cursor.ChunksCountRows | packages/cli/src/tty-ui.ts:25-65 | The same in whatever chunks the text is written. |
| Cursor.VisibleIsPrinted | packages/cli/src/utils.ts:66-75 | What `stripControl` leaves of such a line is its printable characters. |
| Cursor.CutInside | packages/cli/src/tty-ui.ts:36-45 | Whole, a sequence moves the tracker as its last character says; cut anywhere inside, all of it but its escape is taken for text. |
| Cursor.SequenceMoves | packages/cli/src/tty-ui.ts:43-53 | A cursor movement goes the number of rows or cells its decimal count states, at least one, and no further than the screen is wide; any other sequence moves nothing. |
| Cursor.ControlStripped | packages/cli/src/utils.ts:66-75 | A control sequence with any parameters and intermediates takes no cell. |
| Cursor.CommandStripped | packages/cli/src/utils.ts:66-75 | Nor does an operating system command, closed by a bell or by a string terminator. |
| Cursor.TrackerMoves | packages/cli/src/tty-ui.ts:37-63 | With tabs and DELs too, each line moves the tracked row by the rows of the cells the tracker counts. |
| Cursor.LineAgreesIff | packages/cli/src/utils.ts:66-75 | A line with tabs and DELs moves the tracked row by `rowsFor` if and only if its two counts of cells fill as many rows. |
| Cursor.TabOrDelDiffers | packages/cli/src/utils.ts:66-75 | At a width of 1 they part on a character and a tab or a DEL. |

## Left out

- The contents of other systems: Stripe, SES, SQS, DNS and the database are outcomes (accepted, refused, answer lost), each statement is atomic, and the advisory lock is a mutex per key.
- Stripe drops repeated event identifiers only within a window; the models take the window as unbounded.
- The Stripe calls of `changeRung` other than the meter (schedules, prices, invoices), and those of `endMoveUpWait`, `setOverage`, `endSubscription` and the refund of fraud: of these only the writes to the team's row are modelled (Unlocked.dfy), and the overage flag, which no apply reads or writes, is not.
- Webhook.EndedConverges: has no writers without the lock; only the convergence to an entitled subscription is stated with them.
- A run of the overage report over one team's rows only, and a price tagged with the free rung.
- Arrival.StatusNoted: for chunks whose addresses differ; with a repeated address the last answer is noted, an error over any other.
- Arrival.TopicArrives: like the other lemmas of a flush or a chunk, for contacts whose addresses differ; what an address with several items ends as is `ContactValues.UpsertFields`.
- What an apply repairs at Stripe (adding or re-pricing a metered item) is one of Stripe's own changes in the transaction model; only the id it returns reaches the row.
- Contact activity rows and the events a batch emits; they follow the tables.
- ContactBatch.Tables.TryOnce: does not model another writer between an attempt's reads and its transaction, except where that raises a violation; an update or a delete of a contact the attempt writes, when it raises none (a row with no memberships), is not seen, because reads and transaction work on one state of the tables.
- ContactBatch.Tables.Write: likewise; between attempts others may change the tables in any way.
- An email's lower-case key is part of the item, because there is no case folding over arbitrary text here.
- The domain warm-up after the quota pass, the hourly mirror of the counters, and idempotency keys.
- Empty-string cursors, and sort keys finer than an integer timestamp.
- Sizes of chunks in the MX are bytes of the message; the recipient cache and the session timer are not modelled.
- A session of the MX sends one message at a time, sends nothing once closed, and its id is not reused.
- Plan items for domains, broadcasts, contacts and API keys, the domain cap and the grouping of rows: single-branch facts.
- The target stores what it is sent, lists the rows it creates last, and takes every create and update of a round.
- Segment filters are canonical text, translated or absent.
- Sync.OptOutsSurvive: speaks of an address the run inserted, not of a row id: an address inserted by the run, deleted by someone else and added again counts as the run's own, as in the code.
- Terminal width is constant while a text is fed; a resize in the middle of a line is not modelled.
- Request bodies, headers other than the rate headers, and time-outs of the HTTP client.
