# Local-first sync for a spaced-repetition app

A Dafny model of the sync protocol between the clients and the server of a flash-card application, with
proofs of what the protocol promises, and of two smaller parts the client relies on: its study memory
with cached media totals, and the 64-day review schedule.

**Server.** Per user one sequence counter; every write takes the next number. Pushed operations are
clamped, validated, reordered (upserts first), deduplicated by operation id and applied last-write-wins,
one transaction each. Pulls page over the sequence. Tombstones are purged once every active device has
confirmed them. A user has a limited number of device slots.

**Client.** An outbox with one item per record, coalesced as edits come in; a drain loop that sends
batches and applies the answers; a pull loop that applies pages last-write-wins and moves a cursor forward.

**Composed system** (`sync_system.dfy`). One user's devices and the server as a state machine. A step is a
local edit or delete, a batch being built, one operation being served, an answer arriving, a request
failing or being repeated, a late duplicate, one page being read, a delta taking its view of the local rows,
one record being applied, a device reporting, a purge, the clock. Runs are arbitrary sequences of steps; what
has happened so far, every local change included, is kept as history beside the state. Three theorems hold over
all runs of their kind: no edit and no delete is lost; no stale version comes back after a purge; and a device
that has nothing left to send and nothing left to pull holds exactly what the server shows. Runs from a new
account, or from a given state, show what happens just outside their hypotheses.

## How the files fit together

| file | what it holds |
|---|---|
| `sync_types.dfy`, `lww.dfy` | records, operations, answers; last-write-wins on both sides; row mappers |
| `server_apply.dfy`, `titles.dfy`, `validation.dfy`, `push_batch.dfy` | one apply transaction, title clashes, admission, the batch loop |
| `refusals.dfy`, `admitted_batch.dfy`, `push_answers.dfy` | why operations are refused, what is admitted and in which order, what an answer says |
| `replay.dfy`, `order_independence.dfy` | sending again; any order of writes |
| `paging.dfy`, `torn_pull.dfy`, `commit_order.dfy`, `lock_first.dfy`, `devices.dfy` | pages, the two-query pull, commit order, what the lock as first statement adds, device slots and purge |
| `sync_server.dfy` | the sync service as a class over its tables, each method proved against the functions above |
| `outbox.dfy`, `coalescing.dfy`, `drain.dfy`, `giving_up.dfy`, `failed_ops.dfy` | the outbox, what coalescing means, why draining stops, when an operation is given up, the failed list |
| `client_pull.dfy`, `pull_delta.dfy`, `cursor.dfy` | applying pulled records, page after page; the cursor |
| `sync_client.dfy` | the client's stores as a class: outbox, drain loop, pull loop |
| `in_sync.dfy` | a device in sync up to its cursor: what pulls, writes, purges and edits make of that |
| `sync_system.dfy`, `no_lost_edit.dfy`, `no_resurrection.dfy`, `failing_runs.dfy` | the composed system, its two safety theorems, and two runs outside their hypotheses |
| `convergence.dfy`, `backdated_delete.dfy` | the third theorem, convergence, and a run outside its hypotheses |
| `card_data.dfy`, `study_memory.dfy`, `rollback.dfy`, `media_stats.dfy`, `card_store.dfy`, `map_sums.dfy` | cards, the memory index, rollback, cached totals, card operations |
| `wire_media.dfy` | media buffers to wire references and back |
| `schedule.dfy`, `study.dfy`, `topic_week.dfy` | the 64-day schedule, grading, a topic's week |

`dafny verify dfyconfig.toml` checks the project.

## Hypotheses

- A database or IndexedDB transaction is one atomic step. In the composed system, serving one operation is
  one step, building a batch and marking it in flight is one step (the code marks after building,
  `apps/client/src/services/sync-push.ts:223-226`), and applying one pulled record is one step, decided on the
  view of the local rows that the code reads once when the delta begins
  (`apps/client/src/services/sync-pull.ts:113-118`).
- An answer taking effect, as far as it does, is one step of the composed system. The code runs one transaction per accepted
  operation, rename and rejection (`apps/client/src/services/sync-push.ts:120-155`); an edit between two of
  them is seen in the model before or after all of them. The class `SyncClient.SyncStore` runs them one after
  another, with nothing in between.
- A purge is one step. The code runs four statements without a transaction: read the active devices, drop the
  stale ones, delete cards, delete topics (`apps/server/src/sync/conflict.service.ts:106-131`). What another
  request writes between them is not modelled; `SyncServer.PurgeInTwo` takes the two deletes one after another.
- A pull sees one snapshot. The code runs two queries in no fixed order; `TornPull.TornPageHasIff` says exactly
  which rows the page then misses, whichever query comes first, and `TornPull.TopicSkipped` and
  `TornPull.CardSkipped` give states for either order.
- No change is lost: a device clock is at most the skew of five minutes ahead of the server's; no edit is made
  to a record that the delta being applied still has to come to; and the renames an answer reports concern only
  operations that the same answer accepts. A late duplicate of any request may arrive at any time.
- No stale resurrection: edits and deletes carry the present time of one clock, joining devices start empty,
  the purge runs while all devices of the run are active, and no request arrives so late that it is stale: an
  upsert older than the record's purged tombstone whose op id is not logged and whose record is not stored.
  `NoResurrection.LateRequestIff` proves that exactly these do harm, if they go through;
  `FailingRuns.LateRequestComesBack` is a run that ends in one. Deletes may be soft or hard.
- Convergence: the hypotheses of both theorems above, and besides: the run starts at a positive time; the changes
  to one record carry different times; deletes are soft; no title clashes, on the server or on a device; every
  pulled record can be read; no topic takes cards along, in a pull or in a purge; and no delete is backdated,
  that is, takes the place of an unsent delete older than the row it deletes. The device in question has an empty
  outbox and a cursor at the server's sequence, and its latest change to a record was neither recorded as failed
  nor cancelled out after the record had been sent.
- The drain ends only if the server stops refusing requests for the rate limit at some point; with nothing else
  touching the outbox.
- Purged means purged by the purge's own condition. Cards that only fall with a purged topic are not
  covered; `Devices.CascadePurgesUnconfirmed` shows an unconfirmed card tombstone going that way.
- Clocks, JSON sizes, retry times, the JSON parser, the digest, local midnights, readability of records, and
  failures of storage, network, media store and transactions are parameters.

## Where the code does not do what is hoped for

- A tie goes to the incoming write on the server and to the local row on the client
  (`LastWriteWins.ServerAndClientAgree`, `OrderIndependence.TiesDependOnOrder`).
- A queued upsert and a delete cancel even when an earlier upsert of the record is still under way or got
  through: the delete is then never sent, and the record comes back (`FailingRuns.CancelledDeleteComesBack`,
  `Coalescing.DeleteNeverSent`). If the record had never been sent, cancelling is harmless
  (`NoLostEdit.CleanCancelIsHarmless`).
- A rename that an answer reports and that the local title index refuses fails the taking over half way: what was
  accepted is gone from the outbox, later renames are not taken over, and the rejections are neither retried nor
  given up (`SyncSystem.HeardStops`, `SyncSystem.TakenKeepsTitles`).
- An answer leaves a topic it renames with another title than the server's exactly if the topic's own operation
  comes later in the batch, is not older than the rename, and brings another title or a hard delete
  (`PushAnswers.TitlesAgreeAfterAck`): a device clock ahead of the server's is enough.
- A card of someone else that is sent with a topic the server does not have is refused as worth a retry, although
  no retry can succeed (`Refusals.RetryableIffCurable`).
- A second delete that takes the place of an unsent one keeps the first one's time, also when a later version of
  the record was pulled in between. It then loses on the server, is acknowledged all the same, and the device
  stays without a record that the server shows (`BackdatedDelete.BackdatedIff`,
  `BackdatedDelete.BackdatedDeleteIsLost`). `NoLostEdit.NoDeleteIsLost` speaks of the time such a delete carries.
- A delete of a record the server does not store leaves nothing behind, so an older upsert that comes later is
  stored (`OrderIndependence.EarlyDeleteIsForgotten`).
- An upsert whose record is marked deleted creates a tombstone the first time and a live row the second time
  (`Replay.CardTwice`, `Replay.TopicTwice`).
- A pulled record overwrites a newer local row exactly when the view taken at the start of the delta lets it
  (`PullDelta.RowSurvivesIff`); an edit made between two records is lost that way
  (`PullDelta.EditBetweenRecordsLost`). A pulled topic delete takes the topic's local cards along however new
  they are.
- Two queries on different snapshots let the cursor pass rows it never delivered (`TornPull.NothingMissedIff`).
- A bulk change of cards in which one id comes twice is not rolled back exactly
  (`Rollback.RollbackExactIff`).
- The comment on `shouldApplyIncoming` says that remote wins only when strictly newer; the code breaks ties by
  device and record id, and is called with the stored device unknown. The model follows the code.
- The comment in `apps/server/src/sync/seq.ts:9-13` gives commit order as the reason for the lock; the update
  that allocates a sequence locks the same row. What the lock as first statement adds is in `LockFirst`.

## Model

| member | source | states |
|---|---|---|
| `NoLostEdit.NoEditIsLost` | apps/client/src/services/sync-queue.ts:42-85 | over all runs under the hypotheses: every edit ever made is superseded by a later local change of its record, or was left behind by its device, or was recorded as failed, or the server has or has let go a version at least as new, or its row fell with a topic that a pull deleted; or else its device still stores exactly what it wrote, queued under that op id; acks may be lost, requests repeated or delivered late, rows edited again or pulled over mid-push |
| `NoLostEdit.NoDeleteIsLost` | apps/client/src/services/sync-queue.ts:42-85 | over the same runs: every delete ever made is superseded, left behind, recorded as failed, matched on the server by a version or tombstone at least as new, logged while the server did not store the record, cancelled out with a queued edit, or still queued under its own time |
| `NoLostEdit.CleanCancelIsHarmless` | apps/client/src/services/sync-queue.ts:26-36 | over the same runs: a delete that cancelled the queued edit of a record never sent before loses nothing: as long as it is the latest change there, its device never sends the record, and the server stores it only if another device sent it |
| `FailingRuns.CancelledDeleteComesBack` | apps/client/src/services/sync-queue.ts:26-36 | the condition is needed: a run from a new account, meeting every hypothesis, in which the record had been sent, ends with the server showing it in a version no newer than the delete, while the device has neither row nor operation |
| `NoLostEdit.LetGoOnlyBy` | apps/server/src/sync/sync.service.ts:295-348 | serving an operation makes the server let go of a version only by a hard delete of the record or its topic, or by renaming a topic whose stored time lay in the future |
| `NoLostEdit.DrainedMeansDelivered` | apps/client/src/services/sync-push.ts:120-155 | in such a run, once a device's outbox is empty, its latest edit of each record, if not recorded as failed, has reached the server at least as new, unless its row fell with a topic |
| `NoLostEdit.StepKeeps` | apps/client/src/services/sync-queue.ts:144-169 | every step of the composed system keeps the invariant behind these: an item is removed or retried only under its own op id, what is sent under an op id is that change or the change is settled, and what the server has logged is settled |
| `NoLostEdit.AckKeeps` | apps/client/src/services/sync-push.ts:120-155 | an answer applied while the row was edited again leaves the newer operation queued with its row, and every settled change accounted for |
| `NoLostEdit.ServingIsSafe` | apps/server/src/sync/sync.service.ts:458-485 | serving an operation, in order or late, keeps the invariant; an op is logged only together with its effect |
| `NoLostEdit.AppliedFacts` | apps/client/src/services/sync-pull.ts:134-208 | in such a run, one pulled record leaves each local row as it is, or puts the pulled, newer version in its place, or removes an older one, or takes it along with its topic; and the server has or had what it brings |
| `SyncSystem.PullNeverBlocks` | apps/server/src/sync/sync.service.ts:651-697 | in every run, whatever its steps, the user's sequences stay distinct and below the counter, so a resting device may always pull from its cursor |
| `NoResurrection.NoStaleResurrection` | apps/server/src/sync/conflict.service.ts:106-131 | over all runs under one clock, late requests included unless stale: once a tombstone is purged, no device holds, is pushing, or is being handed a version of the record older than it, and the server stores none |
| `NoResurrection.StepKeeps` | apps/server/src/sync/sync.service.ts:699-732 | every step, late requests that are not stale included, keeps the invariant behind it: whatever a device holds or may push is at least as new as every tombstone at or below the cursor it has applied or confirmed |
| `NoResurrection.FinishPullKeeps` | apps/client/src/services/sync-pull.ts:105-132 | moving the cursor over a page is justified: every tombstone it passes was in the page and is obeyed |
| `NoResurrection.PurgeKeeps` | apps/server/src/sync/conflict.service.ts:106-131 | a purge on confirmed sequences keeps the invariant; a device confirms a sequence by sending it, never by being handed it |
| `NoResurrection.LateRequestIff` | apps/server/src/sync/sync.service.ts:235-293 | after any such run, a late request leaves some record shown in a version older than its purged tombstone if and only if it is an upsert older than that tombstone, not logged, of a record not stored, and it goes through |
| `Convergence.Converges` | apps/client/src/services/sync.service.ts:370-373 | over all calm runs from a new account (see Hypotheses), in any interleaving, with lost answers, repeats, late duplicates and purges: a device that has nothing left to send and has pulled everything holds a record exactly if the server shows it, at the server's time and with the contents the server stores for it |
| `Convergence.DevicesConverge` | apps/client/src/services/sync.service.ts:370-373 | in such a run any two such devices hold the same records, at the same times, with the same stored contents |
| `Convergence.StepKeeps` | apps/client/src/services/sync-pull.ts:105-219 | every calm step keeps the invariants of all three theorems; the third says that each live row at or below a device's cursor is held at least as new or was deleted there since, that each held row is a version someone wrote and is on the server or the device's own latest edit, and that the page in hand still stands |
| `Convergence.ApplyNextKeeps` | apps/client/src/services/sync-pull.ts:134-208 | applying one record of a page in hand keeps it, though rows may have been edited, deleted and pushed since the page was read |
| `Convergence.PurgeKeeps` | apps/server/src/sync/conflict.service.ts:106-131 | a purge keeps it: it takes only tombstones that no device, and no page in hand, has an older live version to set against |
| `BackdatedDelete.BackdatedIff` | apps/client/src/services/sync-queue.ts:63-70 | a delete carries a time before that of the row it deletes if and only if it takes the place of an unsent delete that is older than the row |
| `BackdatedDelete.BackdatedDeleteIsLost` | apps/client/src/services/sync-queue.ts:63-70 | the condition is needed: from any state in which a record came back, in a later version, to a device with an unsent delete of it, deleting it again, sending and hearing the answer leaves the device with nothing to send and nothing to pull, without the record, while the server shows it as before |
| `FailingRuns.LateRequestComesBack` | apps/client/src/services/sync-push.ts:157-176 | such a request occurs: a run from a new account in which a topic is made, saved, deleted, delivered, confirmed and purged while its first push is still under way; when that arrives, the topic is live in a version older than its tombstone |
| `CommitOrder.CommitsAboveEveryWatermark` | apps/server/src/sync/seq.ts:4-37 | with any interleaving of lock, allocate, write, commit, abort and pull steps, no transaction commits a sequence at or below a watermark already answered |
| `CommitOrder.CursorNeverSkips` | apps/server/src/sync/sync.service.ts:374-393 | in every run, each committed row at or below a device's cursor was delivered to it |
| `CommitOrder.CommitOrderIsSequenceOrder` | apps/server/src/sync/seq.ts:19-37 | sequences are committed in order and without gaps |
| `CommitOrder.NobodyIsBlocked` | apps/server/src/sync/seq.ts:19-37 | a working transaction can always go on, commit or abort, after which any can lock; and a pull is always answered |
| `LockFirst.GoesBackIff` | apps/server/src/sync/sync.service.ts:235-293 | a card write compared with an earlier state moves the stored card back in time exactly when it beat the version read and a newer one was committed in between |
| `LockFirst.ReadBeforeLockLosesNewer` | apps/server/src/sync/seq.ts:9-37 | two upserts of one card, the first reading before the second commits: the older one ends up stored, under the higher sequence; read under the lock, the newer stays |
| `LockFirst.LockedIsTheTransaction` | apps/server/src/sync/sync.service.ts:374-393 | compared under the lock, the write is the transaction's own |
| `ServerApply.ApplyAdvances` | apps/server/src/sync/sync.service.ts:365-396 | a committed transaction leaves rows alone, drops them, or rewrites them under a sequence above every earlier one of the user; sequences stay distinct |
| `ServerApply.ApplyKeepsIntegrity` | apps/server/src/sync/sync.service.ts:166-348 | every transaction keeps body kinds, foreign keys and unique live titles, including the cascade of a hard delete |
| `ServerApply.ApplyIsolatesUsers` | apps/server/src/sync/sync.service.ts:182-185 | one user's transaction leaves every row of every other user exactly as it was |
| `ServerApply.ApplyDominates` | apps/server/src/sync/sync.service.ts:259-292 | after a committed upsert the server holds the record at least as new as what was pushed |
| `LastWriteWins.ExactlyOneVersionWins` | apps/server/src/sync/mappers.ts:79-94 | with the device id supplied, of two different versions exactly one replaces the other |
| `LastWriteWins.ServerTieGoesToIncoming` | apps/server/src/sync/sync.service.ts:186-198 | as the server calls it, the incoming write wins exactly when it is not older |
| `LastWriteWins.ServerAndClientAgree` | apps/client/src/lib/sync-serialize.ts:163-168 | server and client pick the same side of two versions exactly when the times differ |
| `LastWriteWins.MappersRoundTrip` | apps/server/src/sync/mappers.ts:4-77 | a record survives storing and reading back exactly when nothing in it reads as absent (a zero time, a missing archived flag) |
| `LastWriteWins.StoredBodyIs` | apps/server/src/sync/mappers.ts:4-77 | storing changes nothing in a body but a missing archived flag, which reads as false, and a zero review date, which reads as none; twice is once |
| `Titles.TopicUpsertCommitsIff` | apps/server/src/sync/sync.service.ts:201-230 | an upsert that beats the stored version commits exactly when there is no clash, or the title with the short id is free, or the losing topic arrives already deleted |
| `Titles.ClashOutcome` | apps/server/src/sync/conflict.service.ts:40-80 | a settled clash leaves the later edit (on a tie the greater id) with the title and the other side with the title and its short id, a stored loser at the present time, and is reported so |
| `Titles.DisambiguatedTellsApart` | apps/server/src/sync/conflict.service.ts:49-51 | two losers of one title get different titles unless their ids begin with the same four characters |
| `Titles.PutTopicUniqueIff` | apps/server/src/sync/conflict.service.ts:26-36 | a topic write keeps live titles unique exactly when no other live topic of the user has the written title |
| `OrderIndependence.OrderDoesNotMatter` | apps/server/src/sync/sync.service.ts:259-292 | any permutation of upserts and soft deletes with distinct times on a stored record ends in the same visible content: payload, deleted flag and time |
| `OrderIndependence.HiddenBodyIff` | apps/server/src/sync/sync.service.ts:329-346 | if the latest write is a delete, the body hidden under the tombstone is the same for every order exactly when no upsert could have changed the body |
| `OrderIndependence.MergeShowsLatest` | apps/server/src/sync/sync.service.ts:329-346 | the final time and deleted flag, and the payload if it is an upsert, are those of the latest write |
| `OrderIndependence.ApplyAllMerges` | apps/server/src/sync/sync.service.ts:365-396 | transactions applied one after the other to a stored record compute last-write-wins on its content |
| `OrderIndependence.TiesDependOnOrder` | apps/server/src/sync/sync.service.ts:186-198 | with equal times the order decides: two concrete writes |
| `OrderIndependence.EarlyDeleteIsForgotten` | apps/server/src/sync/sync.service.ts:309 | a delete before the record is stored is forgotten: two concrete writes |
| `PushBatch.AckNamesBatch` | apps/server/src/sync/sync.service.ts:585-649 | accepted and rejected together name exactly the operations of the batch, once per occurrence, whatever faults the server meets |
| `PushBatch.AckPartition` | apps/server/src/sync/sync.service.ts:458-488 | for distinct op ids every operation is on exactly one side of the answer |
| `PushBatch.OrderedIsPermutation` | apps/server/src/sync/sync.service.ts:603-606 | the reorder loses and invents nothing and puts no delete before an upsert |
| `Validation.PartitionMalformed` | apps/server/src/sync/mutation-validation.ts:106-126 | the loop splits a batch into the operations the validator passes and permanent rejections of the others |
| `Validation.PartitionIsExact` | apps/server/src/sync/mutation-validation.ts:106-126 | the two parts together are the batch |
| `Validation.PartitionIsFaithful` | apps/server/src/sync/mutation-validation.ts:98-126 | exactly what passes is applied, and exactly what does not is refused, for good and with the problem found |
| `Validation.ValidatorSound` | apps/server/src/sync/mutation-validation.ts:80-104 | an upsert the validator passes carries a payload of its own table for its own record |
| `Validation.ValidatorPassesIff` | apps/server/src/sync/mutation-validation.ts:17-104 | the validator passes exactly the operations the database can store: times are dates, and an upsert carries the record it names, of its own table, with JSON that parses, no NUL, raw or escaped, and numbers in range |
| `Validation.ClampExact` | apps/server/src/sync/seq.ts:46-75 | clamping leaves an operation alone exactly when none of its times is beyond the skew; a time beyond it becomes the latest one within it, and nothing else changes; clamping twice is clamping once |
| `AdmittedBatch.AdmittedMembers` | apps/server/src/sync/sync.service.ts:596-606 | operations within the skew are admitted exactly as sent if the validator passes them |
| `AdmittedBatch.AdmittedInOrder` | apps/server/src/sync/sync.service.ts:596-606 | what is applied, and in which order: all and only the operations that pass once clamped, upserts before deletes, each in the order they were sent |
| `AdmittedBatch.BuiltBatchAdmitted` | apps/server/src/sync/sync.service.ts:596-606 | a batch a client builds from rows the server can store is admitted in full, clamped at most, and nothing of it is refused as malformed |
| `Replay.ReplaySkipsAccepted` | apps/server/src/sync/sync.service.ts:460-463 | re-sending a batch: an operation accepted before changes nothing and is accepted again unless the server cannot answer |
| `Replay.FullReplayChangesNothing` | apps/server/src/sync/idempotency.service.ts:13-55 | a batch accepted in full can be sent again without any change |
| `Replay.CardTwice` | apps/server/src/sync/sync.service.ts:235-293 | without the op log, a card upsert applied twice leaves the same contents exactly when the first did not create a tombstone |
| `Replay.TopicTwice` | apps/server/src/sync/sync.service.ts:182-230 | a topic upsert applied twice, whichever side of a clash was renamed, leaves the same contents exactly when the first did not create a tombstone |
| `Replay.DeleteTwice` | apps/server/src/sync/sync.service.ts:295-348 | a delete applied twice leaves the same contents exactly unless it was soft first, hard the second time, and took effect |
| `SyncServer.SyncService.ApplyMutationWithMark` | apps/server/src/sync/sync.service.ts:365-396 | the transaction ends as specified: committed with all its writes and the op logged, or failed with every table as before |
| `SyncServer.SyncService.ApplyTopicUpsert` | apps/server/src/sync/sync.service.ts:166-233 | statement by statement, with the unique index checked at each write, the body does what the specified topic upsert does |
| `SyncServer.SyncService.ApplyCardUpsert` | apps/server/src/sync/sync.service.ts:235-293 | the body does what the specified card upsert does, refusals included |
| `SyncServer.SyncService.ApplyDelete` | apps/server/src/sync/sync.service.ts:295-348 | the body does what the specified soft or hard delete does |
| `SyncServer.SyncService.ResolveTopicTitleConflict` | apps/server/src/sync/conflict.service.ts:15-81 | finds the one clashing topic, renames the loser if stored, and reports whether the index still holds |
| `SyncServer.SyncService.ApplyOrderedMutations` | apps/server/src/sync/sync.service.ts:442-489 | the loop over a batch computes the specified tables, and an answer that says of each operation how it fared: accepted, refused and why, and every rename it brought about |
| `SyncServer.SyncService.ApplyPushBatch` | apps/server/src/sync/sync.service.ts:585-649 | clamp, validate, reorder, apply; deletes are hard exactly when no other device of the user is active; the answer accepts, reports and refuses exactly as `PushAnswerIs` says |
| `PushAnswers.PushAnswerIs` | apps/server/src/sync/sync.service.ts:442-489 | of a whole push: an operation is accepted exactly if it was logged before or committed and was reported; a rename is in the answer exactly if an operation that committed and was reported settled that clash; an operation is refused exactly if it is malformed, or with the very failure it met |
| `PushAnswers.TurnIs` | apps/server/src/sync/sync.service.ts:458-485 | one turn: the tables move exactly when the operation commits, to where its transaction leaves them |
| `PushAnswers.RenameStandsIff` | apps/server/src/sync/conflict.service.ts:40-80 | in a batch with each record once and every commit reported: after the last rename of a topic the server stores it under the new title exactly if its own operation, where that comes later, leaves the title alone |
| `PushAnswers.TitlesAgreeAfterAck` | apps/client/src/services/sync-push.ts:128-132 | the device that takes such an answer over, its index letting every rename in, has the title of the last rename, and that is the title the server stores exactly under that condition |
| `Refusals.DeleteRefusedIff` | apps/server/src/sync/sync.service.ts:295-348 | a delete is refused exactly for a record of someone else |
| `Refusals.DeleteDoes` | apps/server/src/sync/sync.service.ts:295-348 | a delete leaves a newer version alone; otherwise it removes the record and, with a topic, its cards, or marks it deleted at its own time, or now if it has none |
| `Refusals.CardRefusedIff` | apps/server/src/sync/sync.service.ts:235-293 | a card is refused exactly if its topic is not stored, or topic or card are someone else's, with the failure that belongs to it |
| `Refusals.TopicRefusedIff` | apps/server/src/sync/sync.service.ts:166-233 | a topic is refused exactly if it is someone else's, or if it is not older than the stored one and meets a clash that cannot be settled |
| `Refusals.RetryableIffCurable` | apps/server/src/sync/sync.service.ts:398-440 | a refusal is said to be worth a retry exactly if some later tables, in which no record changed hands, take the very same operation; and in one case more, which is not |
| `SyncServer.SyncService.Report` | apps/server/src/sync/sync.service.ts:102-164 | registers or refreshes a device, or refuses and changes nothing |
| `SyncServer.SyncService.Revoke` | apps/server/src/sync/sync.service.ts:80-100 | revokes another device; the current one is refused |
| `SyncServer.SyncService.MinPulled` | apps/server/src/sync/conflict.service.ts:118-121 | the fold finds the lowest confirmed sequence of the active devices, none if there are none |
| `SyncServer.SyncService.PurgeSyncedTombstones` | apps/server/src/sync/conflict.service.ts:106-131 | dropping stale devices and deleting cards, then topics, below the boundary is exactly the specified purge |
| `SyncServer.SyncService.Pull` | apps/server/src/sync/sync.service.ts:651-697 | two limited queries, merged by sequence and cut, topics first: the answer holds exactly the user's rows above the cursor up to the watermark, each once and as stored, as many as the limit allows, and tells whether any are left |
| `SyncServer.PurgeInTwo` | apps/server/src/sync/conflict.service.ts:129-130 | two deletes by boundary remove exactly what every active device has confirmed, plus the cascade |
| `Paging.PagingRefinesSpec` | apps/server/src/sync/sync.service.ts:657-697 | taking limit+1 rows per table, merging and cutting gives the lowest rows of both tables together; something is left exactly when more than the limit lie above the cursor |
| `Paging.LowestFirstUnique` | apps/server/src/sync/sync.service.ts:659-680 | the simple specification of a page determines it |
| `Paging.TopicsFirstPermutes` | apps/server/src/sync/sync.service.ts:682-690 | topics-first delivery has every row of the page once, as stored, topics before cards |
| `Paging.PageIsComplete` | apps/server/src/sync/sync.service.ts:651-697 | a page holds exactly the user's rows above the cursor up to the watermark, each once; while more is announced the watermark moves |
| `TornPull.TornPageHasIff` | apps/server/src/sync/sync.service.ts:663-674 | with applies between the two queries, whichever table is read first, a stored row the cursor passes is in the page exactly when it is not a row of that table written in between |
| `TornPull.NothingMissedIff` | apps/server/src/sync/sync.service.ts:663-674 | no row is missed exactly when no row of the table read first that the cursor passes was written in between |
| `TornPull.TopicSkipped` | apps/server/src/sync/sync.service.ts:663-674 | topics read first: a concrete pair of states in which a topic is skipped |
| `TornPull.CardSkipped` | apps/server/src/sync/sync.service.ts:663-674 | cards read first: a concrete pair of states in which a card is skipped |
| `TornPull.OneSnapshotMissesNothing` | apps/server/src/sync/sync.service.ts:659-674 | with both queries on one snapshot every row the cursor passes is in the page |
| `Devices.SlotsNeverExceeded` | apps/server/src/sync/sync.service.ts:102-164 | over every run of reports, revocations and ageing under any clock, at most the limit of unrevoked and of active devices; a revoked device never becomes active again |
| `Devices.RefusedIffFull` | apps/server/src/sync/sync.service.ts:123-144 | a new device is refused exactly when the slots are taken by devices seen within the window |
| `Devices.ReportDoes` | apps/server/src/sync/sync.service.ts:102-164 | what a report changes and when it is refused, device by device: last seen now, the cursor sent confirmed, stale devices of the user dropped only for a new one |
| `Devices.RevokeDoes` | apps/server/src/sync/sync.service.ts:80-100 | a revocation marks exactly an unrevoked device of the user |
| `Devices.PurgeRemovesOnly` | apps/server/src/sync/conflict.service.ts:106-131 | a row goes exactly when it is a tombstone every active device confirmed (with no active device, one past the window), or a card of such a topic; all else stays as it is |
| `Devices.PurgeDropsStale` | apps/server/src/sync/conflict.service.ts:114-116 | of the devices a purge drops exactly the user's unrevoked ones last seen a window ago or earlier |
| `Devices.CascadePurgesUnconfirmed` | apps/server/src/sync/conflict.service.ts:129-130 | a concrete state in which the cascade takes a card tombstone no device has confirmed |
| `Devices.PurgeKeepsIntegrity` | apps/server/src/sync/conflict.service.ts:129-130 | a purge keeps foreign keys, unique titles and distinct sequences |
| `Outbox.AckIsFate` | apps/client/src/services/sync-push.ts:120-155 | applying an answer is, record by record: removed if the batch's very operation is still queued and accepted, renamed or given up; retried once more if merely rejected; otherwise untouched |
| `Outbox.AcceptedFate` | apps/client/src/services/sync-queue.ts:144-153 | of the accepted operations exactly those leave that the queue still holds under the same op id; an item replaced mid-push stays |
| `Outbox.RejectedFate` | apps/client/src/services/sync-queue.ts:155-169 | a rejected operation the queue still holds leaves if it is given up and counts one attempt otherwise; an item replaced mid-push stays |
| `Outbox.SettlesIff` | apps/client/src/services/sync-push.ts:120-155 | an answer ends an operation of the batch exactly if it accepts it, renames its record, refuses it for good, or refuses it with its last attempt |
| `Outbox.RetriedLater` | apps/client/src/services/sync-queue.ts:155-169 | an operation merely refused stays as it was, with exactly one attempt more used up, and is due from its retry time on |
| `Outbox.EnqueuedIsFresh` | apps/client/src/services/sync-queue.ts:42-85 | every change starts with a clean slate: a fresh op id, all attempts left, due at once, whatever became of the item it replaces; it keeps its place only if it replaces an unsent operation of its kind; no other record's item is touched |
| `GivingUp.GivenUpOnlyIf` | apps/client/src/services/sync-push.ts:134-152 | over all runs, whatever their steps: an operation is recorded as failed only if an answer refused that very op id for good, or as many answers as there are attempts refused it; and none is charged an attempt without such an answer |
| `Outbox.BuildScans` | apps/client/src/services/sync-push.ts:41-118 | the batch is exactly what can be sent among the first items, in queue order; dropped are exactly the due upserts without a row among them; and the scan stopped there only at the end, at the count, or at an item that does not fit |
| `Outbox.BuildKeepsDistinct` | apps/client/src/services/sync-push.ts:41-118 | a batch has each record and each op id at most once |
| `Coalescing.DroppedIff` | apps/client/src/services/sync-queue.ts:27-36 | a delete is dropped exactly when an upsert of the record is queued and not in flight; otherwise it is queued under a fresh op id, and nothing else changes |
| `Coalescing.DeleteNeverSent` | apps/client/src/services/sync-queue.ts:32-34 | deleting a record whose edit is queued leaves the device without record and operation while the server still shows it |
| `Drain.AckLowersAttempts` | apps/client/src/services/sync-push.ts:132-152 | with the outbox unchanged, an answer lowers the attempts left exactly when it has a word on any operation of the batch, and never raises them |
| `Drain.EmptyBatchMeansWaiting` | apps/client/src/services/sync-push.ts:64-118 | an empty batch means every item waits for its retry time or had no row |
| `FailedList.AddFailedFacts` | apps/client/src/services/sync-meta.ts:71-86 | one entry per operation, at most fifty; new entries survive, an old one gives way only to a new one of its operation or to the bound |
| `SyncClient.SyncStore.CoalesceAndPut` | apps/client/src/services/sync-queue.ts:42-85 | queues an operation as specified: a fresh item with all attempts left, unless a delete meets an unsent upsert; one item per record and unique op ids are kept |
| `SyncClient.SyncStore.GetQueue` | apps/client/src/services/sync-queue.ts:107-112 | every item once, oldest first |
| `SyncClient.SyncStore.BuildMutations` | apps/client/src/services/sync-push.ts:41-118 | the build loop computes the specified batch and removes rowless upserts from the queue |
| `SyncSystem.ConflictsRename` | apps/client/src/services/sync-pull.ts:62-82 | after the renames of an answer a local topic has title and time of the last rename about it and is otherwise as it was; no other row changes, none comes or goes |
| `SyncSystem.TakenKeepsTitles` | apps/client/src/services/sync-pull.ts:62-70 | the renames taken over keep local titles pairwise different, and the first one that would not ends it |
| `SyncSystem.HeardStops` | apps/client/src/services/sync-push.ts:120-155 | an answer with a rename the index refuses takes only accepted operations, and those of topics renamed before, from the outbox; it retries none and gives none up; any other answer takes effect in full |
| `SyncClient.SyncStore.ApplyPushAck` | apps/client/src/services/sync-push.ts:120-155 | the three loops compute the specified outbox, rows and failed list, as far as the local title index lets the renames in; it tells whether it did |
| `SyncClient.SyncStore.PushBatchOnce` | apps/client/src/services/sync-push.ts:186-207 | one request, reporting the device and applying the batch: an answered one leaves the server and the answer as the server specifies, applies the answer, strictly lowers the attempts left, and gives the newest accepted time; a lost or limited one leaves the client as it was; a request counts as lost only if it or its answer was, or the device was refused, and as broken only if the index refuses a rename |
| `SyncClient.SyncStore.PushQueue` | apps/client/src/services/sync-push.ts:209-240 | the drain, rate limits retried, terminates; it ends normally only when nothing is due; the exchanges it logs led the server from where it was to where it is; what left the outbox had no row to send or was settled by the answer to that very operation; rows, failed list and returned time are what these answers make of them; it is interrupted only by a lost request or answer, a refused device, or a rename the index refuses |
| `SyncClient.AcceptedAreLogged` | apps/server/src/sync/sync.service.ts:458-485 | whatever an answer in such a log accepts, the server has logged |
| `SyncClient.GivenUpIs` | apps/client/src/services/sync-push.ts:134-152 | the failed list gets exactly an entry for each operation of the batch refused for good or with its last attempt, under its record and the server's code |
| `SyncClient.NewestIsLatest` | apps/client/src/services/sync-push.ts:197-203 | the returned time is that of the newest accepted operation, or zero |
| `SyncClient.PoisonIsPerRecord` | apps/client/src/services/sync-pull.ts:46-60 | entries of unreadable records are one per record |
| `SyncClient.HardIff` | apps/server/src/sync/conflict.service.ts:83-96 | deletes are hard exactly if every other device is someone else's, revoked, or out of the window |
| `SyncClient.PushConfirmsNothing` | apps/server/src/sync/sync.service.ts:102-164 | a push shows its device as seen and confirms no cursor |
| `SyncClient.SyncStore.ApplyPullDelta` | apps/client/src/services/sync-pull.ts:105-132 | the rows are what the records make of them one after another on a view taken at the start; it fails only at a record whose two titles other local topics have; every other local row stays exactly as it was or falls with its topic; only unreadable records are poisoned; the cursor moves only over a page applied to its end |
| `SyncClient.SyncStore.AdvanceTo` | apps/client/src/services/sync-meta.ts:49-59 | the cursor moves forward, never back |
| `SyncClient.SyncStore.PullChanges` | apps/client/src/services/sync-pull.ts:210-219 | each request reads a page, reports the device and purges; the loop terminates; received are rows the server had at the start, each once, and they take effect; every local row they do not replace or delete stays exactly as it was or falls with its topic; among the received is every row above the old cursor that the server ends with, and of the others only cards that fell with their topic are missing; at the end no row lies above the cursor; after it the server holds the device as having reported, and nothing is left to purge; it fails only at a record above the cursor whose two titles other local topics have, or if the device is refused |
| `InSync.PullKeepsSync` | apps/client/src/services/sync-pull.ts:105-219 | a pull from any cursor, complete or broken off, carries the match on: if every row at or below the old cursor was matched locally (a live one by the same version or a newer one, a tombstone by nothing older), every row at or below the new one is, but for records that were unreadable, fell with their topic, or were unmatched before and not brought again |
| `InSync.WritesKeepSync` | apps/server/src/sync/sync.service.ts:365-396 | whatever any device writes on the server afterwards disturbs no match: it lands above every cursor answered |
| `InSync.PurgeKeepsSync` | apps/server/src/sync/conflict.service.ts:106-131 | nor does a purge |
| `InSync.EditKeepsSyncIff` | apps/client/src/services/sync-queue.ts:42-85 | a local write keeps the match exactly when it is not older than the server's row at or below the cursor, at the same time has its contents, and brings no tombstoned record back at an earlier time, or the record was excused |
| `InSync.SyncedForLife` | apps/client/src/services/sync.service.ts:340-373 | a device that starts at cursor zero, whatever it holds, and then pulls any number of times, complete or not, with operations of any device served, purges, local edits and deletes in between, in any order, is in sync up to its cursor at every moment; edits are as in `EditKeepsSyncIff`, and two versions at one time are one version |
| `InSync.PulledAsServed` | apps/client/src/services/sync-pull.ts:134-219 | a device in sync at any cursor that holds nothing newer of a record than the server has it as the server does: live at the server's time with its contents, up to a local title, unless excused as above; not at all if the server shows it as deleted |
| `InSync.PulledDevicesAgree` | apps/client/src/services/sync-pull.ts:134-219 | two such devices, each at a cursor of its own, agree on every record at or below both: on having it, on its time, and on its contents up to local titles |
| `InSync.LivesAgree` | apps/client/src/services/sync-pull.ts:134-219 | so two devices after any two such lives on one server agree on every record at or below both cursors |
| `ClientPull.ApplyRecordMovesForward` | apps/client/src/services/sync-pull.ts:134-170 | local rows only get newer, or leave with a newer delete of their own or of their topic |
| `ClientPull.ApplyRecordCatchesUp` | apps/client/src/services/sync-pull.ts:172-208 | after its record, a local row is at least as new, or absent for a tombstone, or the record was unreadable |
| `PullDelta.RecordProgresses` | apps/client/src/services/sync-pull.ts:134-208 | one more record keeps everything received so far in effect: live rows matched, unreadable, or gone with their topic; no local row older than a tombstone; and every row of the start still there as it was, gone with a received topic, or replaced or deleted by a newer received version of itself |
| `PullDelta.RefusedIff` | apps/client/src/services/sync-pull.ts:160-168 | a record is refused exactly if it is a live, readable topic that wins, and two other local topics have its title and the longer one with its short id |
| `PullDelta.RecordWrites` | apps/client/src/services/sync-pull.ts:134-208 | a live record that wins is stored as it came, a topic under its own title unless another local topic has it, else with its short id; a deleted one takes its row and, with a topic, exactly that topic's cards; any other changes no row, and is booked if unreadable |
| `PullDelta.RecordKeepsTitles` | apps/client/src/lib/db.ts:66 | local topic titles stay pairwise different |
| `PullDelta.AccurateIsAtomic` | apps/client/src/services/sync-pull.ts:113-118 | where the snapshot is accurate for the record, applying it is an atomic compare and write |
| `PullDelta.RowSurvivesIff` | apps/client/src/services/sync-pull.ts:134-208 | a newer local row survives a pulled record of its key exactly when the view taken at the start does not let the record take effect; a row of another key falls exactly when it is a card of the deleted topic |
| `PullDelta.EditBetweenRecordsLost` | apps/client/src/services/sync-pull.ts:113-118 | an edit made between two records of a delta is overwritten by the second though newer, and the operation still queued then carries the older version |
| `Cursor.SeqRoundTrip` | packages/sync-protocol/src/cursor.ts:14-33 | a printed sequence is read back as itself exactly when it fits a signed 64-bit column |
| `Cursor.CursorRoundTrip` | packages/sync-protocol/src/cursor.ts:19-33 | a received cursor survives reading and printing exactly when it is a plain decimal in range without leading zeros; nothing reads as more than the maximum |
| `Cursor.AdvanceIsForward` | apps/client/src/services/sync-meta.ts:44-59 | for any stored text and any watermark the stored position ends at the later of the two |
| `Cursor.AdvanceCommutes` | apps/client/src/services/sync-meta.ts:44-59 | two watermarks in either order leave the same position |
| `StudyMemory.IndexAgrees` | apps/client/src/services/study-memory.ts:18-32 | in the index every bucket is non-empty and a card is in exactly its topic's bucket |
| `StudyMemory.Memory.PutCard` | apps/client/src/services/study-memory.ts:34-40 | stores a card, hands back what it replaced, and keeps the index exact, also when the card changes topic |
| `StudyMemory.Memory.PutTopic` | apps/client/src/services/study-memory.ts:118-122 | stores a topic and hands back what it replaced |
| `StudyMemory.Memory.DeleteCard` | apps/client/src/services/study-memory.ts:42-49 | removes a card, hands it back, and drops a bucket that becomes empty |
| `StudyMemory.Memory.RestoreCard` | apps/client/src/services/study-memory.ts:149-155 | puts the entry back to the given state and keeps the index exact |
| `StudyMemory.Memory.RestoreTopic` | apps/client/src/services/study-memory.ts:141-147 | puts a topic back to the given state |
| `StudyMemory.Memory.ReplaceAll` | apps/client/src/services/study-memory.ts:51-56 | reloads topics and cards with an exact index, later entries over earlier ones |
| `StudyMemory.LastTopicWins` | apps/client/src/services/study-memory.ts:51-56 | of several topics with one id the last is loaded, and only ids that occur |
| `StudyMemory.LastCardWins` | apps/client/src/services/study-memory.ts:51-56 | of several cards with one id the last is loaded, and only ids that occur |
| `StudyMemory.Memory.CardsByTopic` | apps/client/src/services/study-memory.ts:106-108 | the bucket holds exactly the topic's cards |
| `Rollback.RollbackExactIff` | apps/client/src/services/card.services.ts:228-249 | restoring first to last what each put replaced gives back the map exactly if and only if, for every id put twice, its last put but one was the card that was there |
| `Rollback.DistinctRollsBack` | apps/client/src/services/card.services.ts:228-249 | for distinct ids the rollback is exact |
| `CardStore.Store.CreateCard` | apps/client/src/services/card.services.ts:52-77 | row, outbox operation, memory and totals change together; a failed or refused add changes nothing |
| `CardStore.Store.UpdateCard` | apps/client/src/services/card.services.ts:79-107 | row, outbox operation, memory and totals change together; an abort changes nothing |
| `CardStore.Store.DeleteCardById` | apps/client/src/services/card.services.ts:109-134 | row, outbox operation, memory and totals change together; an abort changes nothing |
| `CardStore.Store.PutAllCards` | apps/client/src/services/card.services.ts:207-226 | every listed card is stored as listed last and has a fresh upsert queued under its last op id, an unsent upsert passing on its age; every other card and item is as before |
| `CardStore.Store.UpdateCardsLevelBulk` | apps/client/src/services/card.services.ts:228-254 | all rows, moved and stamped, and a fresh upsert for each in one transaction, all else as before; an abort leaves storage and outbox alone and memory as the rollback leaves it, exact for distinct ids |
| `CardStore.Store.PutLocalCard` | apps/client/src/services/sync-local.ts:72-90 | a pulled card: memory, row and totals together, or nothing |
| `CardStore.Store.DeleteLocalCard` | apps/client/src/services/sync-local.ts:152-163 | a pulled card delete: memory, row and totals together, or nothing |
| `CardStore.Store.PutLocalTopic` | apps/client/src/services/sync-local.ts:91-101 | a pulled topic: memory and row together, or nothing |
| `CardStore.Store.DeleteLocalTopic` | apps/client/src/services/sync-local.ts:103-150 | the topic and exactly its cards go from memory and storage, the totals follow; an abort restores all of them |
| `CardData.SumEmbeddedCardMedia` | apps/client/src/lib/card-media-stats.ts:20-50 | the counters end at the number of blocks holding an image, and audio, and the bytes they hold, over both sides |
| `MediaStats.CardMediaIsCount` | apps/client/src/lib/card-media-stats.ts:20-50 | what a card embeds is never negative, so the totals may be kept by it |
| `MediaStats.TotalPut` | apps/client/src/lib/card-media-stats.ts:161-181 | a put changes the full scan by what is put less what was there |
| `MediaStats.TotalRemove` | apps/client/src/lib/card-media-stats.ts:183-191 | a delete changes the full scan by what was there |
| `MediaStats.ScanFollows` | apps/client/src/lib/card-media-stats.ts:100-115 | totals equal to a scan are written back unclamped: the clamp at zero never fires |
| `MediaStats.StatsRow.RecordUpsert` | apps/client/src/lib/card-media-stats.ts:161-181 | the cached totals stay what a full scan would find |
| `MediaStats.StatsRow.RecordDelete` | apps/client/src/lib/card-media-stats.ts:183-191 | the cached totals stay what a full scan would find |
| `MediaStats.StatsRow.AdjustTo` | apps/client/src/lib/card-media-stats.ts:153-159 | a change collected over several cards leads to what a full scan would find |
| `MediaStats.Rebuild` | apps/client/src/lib/card-media-stats.ts:116-146 | the repair scan finds the total of all cards, in whatever order it meets them |
| `WireMedia.PrepareWireCardData` | packages/sync-protocol/src/wire-media.ts:91-120 | the outgoing conversion: references for local buffers, and exactly the buffers' hashes gathered, each with its own buffer |
| `WireMedia.CollectWireMediaRefs` | packages/sync-protocol/src/wire-media.ts:144-158 | exactly the hashes of the well-formed references in the card |
| `WireMedia.WireRoundTrip` | packages/sync-protocol/src/wire-media.ts:91-142 | for digests without collision among the card's buffers, hydrating the wire form with them gives the card back exactly when no buffer is empty and nothing in it was a reference already |
| `WireMedia.ToWireTwice` | packages/sync-protocol/src/wire-media.ts:122-125 | converting twice is converting once |
| `WireMedia.CollectedAreWritten` | packages/sync-protocol/src/wire-media.ts:144-158 | the hashes collected from the wire form are those of the non-empty buffers and of the references already there |
| `WireMedia.RefAnnounces` | packages/sync-protocol/src/wire-media.ts:91-120 | the reference for a buffer announces its hash, type and length; what is no buffer is sent as it is |
| `WireMedia.HydratesIff` | packages/sync-protocol/src/wire-media.ts:127-142 | hydrating fails exactly if the card refers to a hash whose bytes are not at hand |
| `Schedule.TableRule` | apps/client/src/lib/leitner-schedule.ts:3-68 | the table by rule: on which days of the cycle each level is studied |
| `Schedule.RoundingExactIff` | apps/client/src/lib/leitner-schedule.ts:71-76 | rounding to whole days is exact if and only if the local-time shift is within half a day |
| `Schedule.CycleDayCounts` | apps/client/src/lib/leitner-schedule.ts:70-76 | under such shifts the cycle day is the number of calendar days since the pivot modulo 64, before the pivot as well |
| `Schedule.EveryCycleAlike` | apps/client/src/lib/leitner-schedule.ts:3-76 | for every pivot, any 64 consecutive days study level L exactly 2^(7-L) times |
| `Schedule.WaitIsExact` | apps/client/src/lib/get-next-review-message.ts:7-25 | the wait for a level's next day, day by day of the cycle, at most 1, 2, 4, 9, 16, 35, 64 days |
| `Schedule.LongestWaitsOccur` | apps/client/src/lib/get-next-review-message.ts:7-25 | each of these bounds is reached |
| `Schedule.GetNextReviewDate` | apps/client/src/lib/get-next-review-message.ts:7-25 | the search returns the first day from today or tomorrow on that studies the level, within the bound; none exactly for a level outside 1 to 7 |
| `TopicWeek.SetStartWeek` | apps/client/src/models/topic.model.ts:30-45 | nothing before the first day, then each day of the week as the schedule has it |
| `TopicWeek.Topic.constructor` | apps/client/src/models/topic.model.ts:16-28 | a new topic, not archived, starts today, with the week as planned and all open, the next update on the coming Sunday, and its change time now |
| `TopicWeek.Topic.UpdateWeek` | apps/client/src/models/topic.model.ts:65-78 | all seven days of today's week as the topic's schedule has them, all open; the next update on the Sunday after |
| `TopicWeek.Topic.Reactivate` | apps/client/src/models/topic.model.ts:80-87 | starts over from today, not archived, the week all open, and leaves the time of the last change alone |
| `TopicWeek.NextIsSunday` | apps/client/src/models/topic.model.ts:47-63 | the next update falls on the Sunday after, one to seven days ahead, and that week begins with it |
| `Study.SelectedAreDue` | apps/client/src/lib/study.ts:19-33 | the list holds exactly the due cards, each as often as it occurs |
| `Study.GradedOncePerDay` | apps/client/src/lib/study.ts:8-33 | a graded card goes up by one level or back to the lowest there is, stays within levels 1 to 8, and is not due again that day |
| `Study.TodayLevelsInRange` | apps/client/src/lib/leitner-schedule.ts:3-68 | no day asks for a level outside 1 to 7 |
| `Study.StudyDayIsDue` | apps/client/src/lib/study.ts:19-33 | the day's step grades exactly the cards the due list selects |
| `Study.MasteredAfterExactly` | apps/client/src/lib/study.ts:8-33 | a level-1 card answered correctly on every due day is at level 8 after exactly 57 days from the first day of a cycle and 121 - r days from day r, never sooner, and stays there: at most 120 days from any start |

## Left out

- NoLostEdit.NoEditIsLost: runs in which an answer renames a topic whose operation it does not accept, or that was edited again meanwhile, are excluded: the rename then replaces the title and time of the newer edit.
- NoLostEdit.NoDeleteIsLost: a hard delete leaves nothing on the server; it counts as let go at its own time, and an older upsert that arrives later is stored.
- NoResurrection.NoStaleResurrection: excludes devices that return after the active window, revoked devices that rejoin with old data, and stale late requests; the code has no repair path there. It speaks of purged tombstones; a hard delete leaves none.
- Convergence.Converges: excludes hard deletes, title clashes, unreadable records, topics that take cards along, equal times, backdated deletes, and devices whose latest change failed or cancelled out after the record had been sent; for backdated and cancelled deletes see `BackdatedDelete.BackdatedDeleteIsLost` and `FailingRuns.CancelledDeleteComesBack`. Contents are compared as the server stores them.
- OrderIndependence.OrderDoesNotMatter: compares what readers see, and records the server does not store yet are excluded.
- Replay.DeleteTwice: the operation carries a time; without one each apply uses its own present.
- CardStore.Store.UpdateCardsLevelBulk: cards are values; a caller that passes the very objects memory holds changes the remembered state too.
- CardStore.Store.UpdateCardsLevelBulk: the source books no media change here, so the cached totals stay exact when the moved cards embed what the stored ones do.
- MediaStats.StatsRow.RecordUpsert: the statistics row exists and memory matches storage; a rebuild on a missing row already includes the card whose change is then added.
- Schedule.GetNextReviewDate: dates are calendar days; formatting is left out.
- SyncClient.SyncStore.PushQueue: no edits during the drain; a lost request or answer ends it, as an error ends the source's; the growing delay between limited requests is left out.
- Local edits of a topic are not refused for a title another local topic has, as the source's transaction would be; the runs of the composed system include such edits.
- SyncClient.SyncStore.PullChanges: no one else writes to the server meanwhile, and only this pull writes local rows.
- A zero time reads as absent in several places of the source. The model follows that for delete operations, for `deletedAt` and for `reviewDate`; on the client side it takes a tombstone's time as given.
- Identifiers are compared by character code; the source compares by locale, which agrees on lower-case hexadecimal ids.
- Numbers on the wire are integers; the validator's checks for fractions are left out. JSON text is kept as text.
- Records always carry their time and outbox items their op id; fallbacks for rows of older versions are left out.
- The op log and its cache are one set; expiry and pruning are one step that may forget any entry.
- Codes in the failed list stand for the server's codes; media codes are collapsed into one.
- Fanout and hello deltas over WebSocket, account switching, tab broadcast and locks are left out; a fanout delta never moves the cursor. The bootstrap request is a pull, a report and a purge.
- The settings outbox, media upload and download, the media cache counters, DOM cleaning, Anki import and sharing are left out.
- Import and deletion of cards in several chunks (`putCardsChunk`, `deleteCardsBulk`) are left out: memory is rolled back although earlier chunks were committed, and a repeated id in one deletion is restored as missing.
- Listeners, cloning and the order of cards in memory are left out.
