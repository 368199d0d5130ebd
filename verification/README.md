# zk-note: a verified model of synchronisation, blobs, attachments, time and text

This project models the parts of zk-note, an end-to-end encrypted note store, where a mistake loses or misreads
somebody's notes, and proves what the system promises about them. `dafny verify dfyconfig.toml` checks everything.

| files | part of zk-note |
|---|---|
| `Protocol`, `SyncServer`, `Storage`, `Conflicts`, `Decisions`, `PushLoop`, `Convergence`, `Retries`, `SyncPull`, `PullQuery`, `CursorSafety`, `Writes`, `Interruptions` | the sync protocol: the compare-and-swap server, the client store, refused pushes, last-write-wins, paged pulling, and what a replica may rely on, crashes in the middle of an operation included |
| `Blobs`, `BlobQuota` | the Cloudflare blob store: SQL tables, triggers and an object bucket under crashes and late puts |
| `Bytes`, `Base64`, `ChunkWire`, `ChunkCrypto`, `AttachmentStream` | chunked attachments: wire format, associated data, streaming encryption and decryption |
| `Calendar`, `Timestamps`, `StampShapes` | day-to-date conversion, RFC 3339 formatting, validation and order |
| `LineMatch`, `Diff3`, `ConflictMarkers` | the three-way merge of note bodies, and reading its conflicts back |
| `Text`, `Trimming`, `EditBuffer`, `PlainBuffers` | the `$EDITOR` buffer, printed and parsed |
| `SshSigning` | the canonical bytes signed for SSH authentication |

State that the source updates in place is a class (`SyncServer.Adapter`, `Storage.MemoryStorage`, `Blobs.BlobStore`,
`AttachmentStream.Reader`), whose methods are proved to follow functions on its value; loops are loops. What the source
promises is then proved about those functions, over every input, every run or every interleaving.

Clock readings, fresh UUIDs, nonces, the results of encryption and lower-casing are parameters. Nothing was executed.

## What the proofs found

* **Keeping the remote side of an outdated conflict loses the newer version.** A refusal is recorded, somebody edits on,
  the client pulls that and then keeps the remote side of its record: the replica falls back to the older version with
  an empty queue, and no later pull repairs it (`CursorSafety.KeepRemoteLosesNewerVersion`,
  `TakingOutdatedRemoteRegresses`). Duplicating does the same.
* **A replayed acknowledgement can hide a newer version** in the same way (`CursorSafety.ReplayHidesNewerVersion`).
  `CursorSafety.StepKeepsSafeIff` gives the exact condition for every step, `TakingRemoteIsSafeIffHeld` and
  `ReplayIsSafeIffHeld` the one a client can read off its own store; `ForwardRunIsSafe` a check that rules both out:
  never lower the revision held.
* **A crash in the middle of last-write-wins can strand the edit.** The removal loop runs before the retry is queued; a
  process that stops in between keeps the edit as head with nothing queued, so it is never sent, and no pull brings the
  server's version (`Interruptions.InterruptedLwwStrandsTheEdit`). `Interruptions.TornStepIsSafeIff` says for every
  operation which of its writes it may stop after.
* **`days_to_ymd` overflows after its last March.** The January correction is a 32-bit addition
  (`Calendar.JanuaryOverflows`); `Calendar.DaysToYmdIsCivilIff` is the exact condition.
* **Last-write-wins compares timestamps as text, and accepted timestamps need not sort by time.** They do exactly
  within one way of writing them (`StampShapes.ShapesAgreeIff`, `OffsetsSortAgainstTime`).
* **The edit buffer aborts on a title or tag outside ASCII.** The fence search slices inside the character
  (`EditBuffer.AccentedTitlePanics`); `EditBuffer.PrintedPanicsExactly` and `ParsePanicsExactly` give the exact condition.
* **Timestamps sort by time exactly until the year 10000** (`Timestamps.OrderedExactlyBeforeYear10000`).
* **The two expiry statements must see one selection.** If the clock ticks between them a stored object can leak
  (`Blobs.TwoClockReadingsLeakInARun`). With fewer than eight reservations expired the batch is safe exactly when none
  expires between the two readings (`Blobs.ExpiryBelowTheLimitIff`); with eight selected, exactly when no other one
  ties with the last of them (`Blobs.ExpiryIsSafeIff`).
* **The merge's shortcuts keep carriage returns that the full merge rewrites** (`Diff3.ShortcutsAgreeIff`).
* **Chunk serialisation accepts chunks it cannot read back**: short nonces (`ChunkWire.EmptyNonceIsUnreadable`), and ids
  and ciphertexts whose length fields wrap (`ChunkWire.LongIdIsUnreadable`); `ChunkWire.RoundTripsExactlyWhenFits` is
  the exact condition. Bytes after a chunk are ignored.
* A reused mutation id is compared on object, revision, deletion flag and envelope, not on the object kind
  (`SyncServer.ResendIsAnsweredOnce`). In the SSH message the length and re-encoding checks after Base64 decoding
  can never fail (`SshSigning.DecodingAlreadyChecks`).
* **`lcs_matched_pairs` is documented to find a longest common subsequence and does not always.** Above four million
  table cells only the common ends are matched (`LineMatch.LongTextsAreNotMatched` gives two texts of 2001 lines). The
  pairs are a longest matching if and only if the middle fits the table or has no line in common
  (`LineMatch.PairsAreLongestIff`).

## Model

| member | source | states |
|---|---|---|
| `SyncServer.Adapter.PushMutation` | crates/zk-sync/src/adapter.rs:416-506 | injected failure, replay, mismatch, conflict or acceptance: state and answer are those of the decision function `Push` |
| `SyncServer.RunIsExplained` | crates/zk-sync/src/adapter.rs:416-506 | in every run the counter is the number of accepted pushes, their sequences are 1..n, each object's revision counts its accepted pushes and its value is the last of them, and the processed table holds exactly those pushes |
| `SyncServer.RunKeepsExplanation` | crates/zk-sync/src/adapter.rs:416-506 | the same from any explained state: the log grows by exactly the pushes accepted meanwhile |
| `SyncServer.NoUpdateIsLost` | crates/zk-sync/src/adapter.rs:448-506 | of two consecutive accepted writes of an object the later expected the revision the earlier left |
| `SyncServer.ResendIsAnsweredOnce` | crates/zk-sync/src/adapter.rs:419-437 | resending an accepted request at any later point returns the original answer and changes nothing; a reused id with other content is refused without change |
| `SyncServer.DuplicatesAreInvisible` | crates/zk-sync/src/adapter.rs:419-437 | a history with any resends inserted after first acceptance ends in the same state with the same accepted log |
| `SyncServer.ResurrectionSawTheDelete` | crates/zk-sync/src/adapter.rs:448-506 | a live version after a delete at revision k was written by a push that expected revision k or later |
| `Storage.MemoryStorage.Enqueue` | crates/zk-storage/src/memory.rs:114-130 | appends in order, refuses exactly the ids already queued, touches nothing else |
| `Storage.MemoryStorage.GetMutation` | crates/zk-storage/src/memory.rs:132-138 | finds the queued mutation with the id, or none if and only if it is absent |
| `Storage.MemoryStorage.Remove` | crates/zk-storage/src/memory.rs:163-174 | the queue without that id in its order, and whether it was there |
| `Storage.MemoryStorage.UpdateStatus` | crates/zk-storage/src/memory.rs:176-196 | changes status and retry count of that entry only; fails if and only if it is absent |
| `Storage.MemoryStorage.RemoveAllFor` | crates/zk-sync/src/conflict.rs:221-231 | the removal loop leaves exactly the other objects' mutations in order |
| `Storage.MemoryStorage.ResolveRecord` | crates/zk-storage/src/memory.rs:353-373 | closes the record with its resolution, keeping its three envelopes |
| `Storage.DropQueuedIsWithout` | crates/zk-storage/src/memory.rs:148-174 | removing an object's mutations one id at a time removes exactly that object's mutations |
| `Storage.WithoutHasNone` | crates/zk-storage/src/memory.rs:148-174 | afterwards the object has none queued and every other object's queue is as before |
| `Storage.StatusKeepsTheRest` | crates/zk-storage/src/memory.rs:176-196 | a status update keeps length, order, ids and all other fields |
| `Conflicts.EvaluateGuardedLww` | crates/zk-sync/src/conflict.rs:451-636 | refuses exactly deletion conflicts with the store unchanged; otherwise the store, winner, revisions and retry are those of `Lww`, and the winner is local exactly if a retry is queued; which side that is, with the vault open or locked, is in `Decisions` |
| `Conflicts.LwwKeepsBothSides` | crates/zk-sync/src/conflict.rs:513-635 | the winner is head, the loser is in the base store, and the resolved record holds base, local and remote |
| `Conflicts.LwwLosesAtMostTheReplaced` | crates/zk-sync/src/conflict.rs:513-635 | on any store, every envelope held before is held after, unless it was the object's head, one of its queued mutations, the archive slot of the remote revision, or a record under the same conflict id |
| `Conflicts.LwwLosesNothing` | crates/zk-sync/src/conflict.rs:513-635 | with the conflicting mutation the only one queued and the old head the local edit, the remote version or the retained base, every envelope held before is held after |
| `Conflicts.RecordConflict` | crates/zk-sync/src/conflict.rs:138-189 | the stored record, or refusal with the store unchanged when the merge candidate cannot be decrypted |
| `Conflicts.ResolveConflict` | crates/zk-sync/src/conflict.rs:198-434 | for each of the five strategies the whole new store and the mutation queued (in terms of the record's fields in `Decisions`); a refusal up front leaves the store unchanged, a failed copy leaves the remote version taken and the record open |
| `Conflicts.ResolutionQueuesOneRetry` | crates/zk-sync/src/conflict.rs:221-363 | exactly one queued mutation for the object, based on the remote revision; other objects' heads and queues and all other conflict records untouched |
| `Conflicts.DuplicateKeepsBoth` | crates/zk-sync/src/conflict.rs:364-434 | the object holds the remote version with nothing queued and the new object the local one, queued as a creation; if the copy fails the local version is still in the open record |
| `Conflicts.AcknowledgeAccepted` | crates/zk-sync/src/queue.rs:369-404 | head written, mutation removed, older bases pruned; refused if and only if the mutation is gone |
| `Conflicts.PushOne` | crates/zk-sync/src/push.rs:150-233 | one round: the server takes its step and the store becomes what the answer calls for, last-write-wins and recorded conflicts included |
| `PushLoop.PushPendingChanges` | crates/zk-sync/src/push.rs:128-237 | the loop over the snapshot with its limit, skipped failures, vanished mutations, stop on conflict and fatal answers computes `PushFrom`, of which `PushFromTells` and `WhatEndsTheLoop` say what it sends and why it ends |
| `PushLoop.LoopIsTurns` | crates/zk-sync/src/push.rs:128-237 | a loop between whose rounds other clients take any turns, with requests and answers lost or not, is a run of turns: its own one per round with that round's fate, the others' as they came; its rounds send the snapshot in order, each mutation once, and the answers decide how it ends; so every theorem about interleaved turns covers overlapping loops |
| `PushLoop.QuietLoopIsPushFrom` | crates/zk-sync/src/push.rs:128-237 | with nobody else about and nothing lost, that loop is the routine's |
| `PushLoop.WhatEndsTheLoop` | crates/zk-sync/src/push.rs:128-237 | as long as the answers let it go on, every mutation of the snapshot that is not failed is sent, up to the limit; a fatal answer, a record that cannot be made and, under the option, a recorded conflict end the loop at once with that error, and no other answer does |
| `PushLoop.PushFromTells` | crates/zk-sync/src/push.rs:128-237 | the routine alone is such a run of turns |
| `Decisions.KeepingLocalTakesLocal` | crates/zk-sync/src/conflict.rs:233-275 | after keeping or restoring the local side, head and queued retry are the record's local version, deletion included, and the record is closed with it |
| `Decisions.KeepingRemoteTakesRemote` | crates/zk-sync/src/conflict.rs:276-305 | after keeping the remote side, the head is the record's remote version and nothing is queued |
| `Decisions.MergingTakesTheMerge` | crates/zk-sync/src/conflict.rs:306-363 | after a merge, head and retry are the sealed note, live |
| `Decisions.DuplicatingCreatesTheCopy` | crates/zk-sync/src/conflict.rs:364-434 | the object holds the remote version, the new object the copy, queued as a creation |
| `Decisions.RetryReachesServer` | crates/zk-sync/src/push.rs:150-233 | delivered to a server still at its revision, a queued version is what server and client hold, one revision up, with nothing queued |
| `Decisions.RefusalIsRecorded` | crates/zk-sync/src/conflict.rs:138-189 | the record of a refused push holds the edit, the server's object as it is, and the retained base |
| `Decisions.KeptEditReachesServer` | crates/zk-sync/src/conflict.rs:138-275 | refused, recorded, kept and delivered, the server holds the very edit that was refused |
| `Decisions.GivingWayTakesServersVersion` | crates/zk-sync/src/conflict.rs:138-305 | refused, recorded and given up, the client holds the server's version with nothing to send |
| `Decisions.OpenLaterEditWins` | crates/zk-sync/src/conflict.rs:473-511 | with both notes open the one stamped later is taken, at the same instant the greater ciphertext; stated on head and queue afterwards |
| `Decisions.LockedLaterEditWins` | crates/zk-sync/src/conflict.rs:494-511 | locked, with the head at the refused revision: the edit is taken exactly if it was queued later than the head was stored, at the same instant if its ciphertext is greater |
| `Decisions.BlindGreaterCiphertextWins` | crates/zk-sync/src/conflict.rs:494-511 | locked and without such a head, the greater ciphertext is taken |
| `Decisions.WinningEditReachesServer` | crates/zk-sync/src/conflict.rs:513-576 | the winning edit's retry, delivered, is what the server holds |
| `Decisions.EditReachesServer` | apps/cli/src/client/notes.rs:302-362 | a local edit is head and queued on the version it replaced, which is retained; delivered, it is what the server holds |
| `Decisions.AcknowledgementPrunesBelow` | crates/zk-sync/src/queue.rs:395-402 | an acknowledgement forgets the object's versions below the accepted revision and no others |
| `Decisions.DecisionIsRefusedIff` | crates/zk-sync/src/conflict.rs:198-220 | which decisions are refused before any write |
| `Decisions.DecidedOnce` | crates/zk-sync/src/conflict.rs:198-434 | after a decision that succeeded every further one is refused; after a failed copy the record is open as before |
| `Decisions.DeletionsAreRecorded` | crates/zk-sync/src/conflict.rs:464-468 | with a deletion on either side the refused mutation stays queued and is recorded, whatever the policy |
| `Decisions.CandidateIsKept` | crates/zk-sync/src/conflict.rs:138-189 | a merge candidate that was made is in the record |
| `Decisions.UnmergeableIsNotRecorded` | crates/zk-sync/src/conflict.rs:138-189 | one that cannot be decrypted leaves no record |
| `Decisions.UnsettledIsMarked` | crates/zk-sync/src/push.rs:220-233 | after a transport failure the mutation is pending again, after a fatal answer failed; nothing else changes |
| `Decisions.RecordedIsPending` | crates/zk-sync/src/push.rs:190-218 | a refused mutation is pending again |
| `Convergence.GuardedLwwConverges` | crates/zk-sync/src/conflict.rs:473-636 | for any number of clients and any interleaving with lost requests and lost answers: at most n(n+2) turns move anything, every answered push among them, and at rest the server holds an edit no other edit beats |
| `Convergence.GreatestEditWins` | crates/zk-sync/src/conflict.rs:473-511 | with pairwise distinct (updated_at, ciphertext) every interleaving that comes to rest leaves the server with the edit that beats all others |
| `Convergence.GreatestIsUnique` | crates/zk-sync/src/conflict.rs:473-511 | two unbeaten edits agree on timestamp and ciphertext, so with distinct ones the winner is unique |
| `Convergence.TurnKeepsInv` | crates/zk-sync/src/push.rs:138-240 | every turn of any client keeps the global invariant |
| `Convergence.TurnLowersTotal` | crates/zk-sync/src/push.rs:138-240 | every turn that moves lowers the measure, and no turn raises it |
| `Convergence.AutomaticTurnsKeepTheDelete` | crates/zk-sync/src/conflict.rs:464-468 | whatever the queues and policies, stale automatic turns leave a delete exactly as it is |
| `Retries.RefusalsAreSomeoneElses` | crates/zk-sync/src/conflict.rs:198-434 | a client pushes one edit and settles each refusal by last-write-wins or a decision of any strategy, its store carried through the run, others pushing and messages lost meanwhile: the refusals it settles name strictly increasing sequences, each an accepted push somebody else made since, and are no more than there were accepted pushes |
| `Retries.ResolutionRebases` | crates/zk-sync/src/conflict.rs:221-434 | every strategy leaves the object with one retry at the refusal's revision or with nothing queued |
| `SyncPull.PullChanges` | crates/zk-sync/src/adapter.rs:508-537 | the page is the first `limit` of the sorted list of exactly the objects changed after the cursor |
| `SyncPull.WorkerPull` | apps/cloudflare-worker/src/sync.rs:42-87 | refuses exactly the queries that do not parse; otherwise limit-plus-one fetching yields the very page of filter, sort and take; what it reads from a query is in `PullQuery` |
| `PullQuery.QueryIsRead` | apps/cloudflare-worker/src/sync.rs:42-62 | a cursor and a limit written into a query, under each of the cursor's three names and in either order, are those of the page, 50 for a limit of 0 and at most 500; past 2^53 - 1 and 2^32 - 1 they are refused |
| `PullQuery.DigitsExactly` | apps/cloudflare-worker/src/sync.rs:50-56 | digits are read as the number they stand for, anything else is refused |
| `PullQuery.WrittenNumberIsRead` | apps/cloudflare-worker/src/sync.rs:50-56 | a number is read as written, with or without a plus sign, up to the maximum |
| `PullQuery.LastPairOverrides` | apps/cloudflare-worker/src/sync.rs:46-60 | a pair at the end is read over everything before it |
| `PullQuery.LaterCursorReplaces` | apps/cloudflare-worker/src/sync.rs:46-60 | of two cursors the later one counts |
| `PullQuery.OtherPairsChangeNothing` | apps/cloudflare-worker/src/sync.rs:47-58 | unknown keys, with or without a value, change nothing |
| `PullQuery.OneBadPairRefuses` | apps/cloudflare-worker/src/sync.rs:46-60 | one value that is no number, anywhere, refuses the query |
| `PullQuery.EmptyQueryIsRead` | apps/cloudflare-worker/src/sync.rs:43-46 | without a query the page starts at the beginning with 50 changes |
| `SyncPull.PagesAgree` | apps/cloudflare-worker/src/sync.rs:42-87 | the page for given objects, cursor and limit is unique, so Worker and adapter agree |
| `SyncPull.ApplyChange` | crates/zk-sync/src/cursor.rs:137-173 | stores the object and then advances the cursor; older changes are ignored |
| `SyncPull.PullRemoteChanges` | crates/zk-sync/src/pull.rs:159-250 | the loop terminates and its whole effect is to store the server's versions between the old and the new cursor, everything else in the store unchanged; with a limit of at least one and no page bound nothing is left beyond the cursor |
| `SyncPull.EmptyReplicaMirrors` | crates/zk-sync/src/pull.rs:159-250 | from an empty replica a complete pull ends with exactly the server's objects, each at its current version |
| `CursorSafety.StepKeepsSafeIff` | crates/zk-sync/src/orchestrator.rs:162-200 | for every step a client or the server can take (pages, applications, crashes, local edits, pushes accepted, lost, replayed, refused, settled by last-write-wins or recorded, decisions of every strategy, purges) it keeps safety if and only if a stated condition holds |
| `CursorSafety.StepKeepsSound` | crates/zk-sync/src/orchestrator.rs:162-200 | every step keeps what safety is judged against: sequences, answers, pages and open records that quote real versions |
| `CursorSafety.RunIsSafeIff` | crates/zk-sync/src/orchestrator.rs:162-200 | in every run, each server object at or below the cursor with nothing queued is held at its current revision and content all along if and only if every step is harmless |
| `CursorSafety.ForwardRunIsSafe` | crates/zk-sync/src/queue.rs:369-404 | a client that never lets an acknowledgement or a decision lower the revision it holds is safe in every run |
| `CursorSafety.NewClientRunIsSafeIff` | crates/zk-sync/src/orchestrator.rs:162-200 | for a client joining an account after any history both hold: safe all along if and only if every step is harmless, and safe if it makes the check |
| `CursorSafety.ReplayIsSafeIffHeld` | crates/zk-sync/src/queue.rs:369-404 | on an object held as pulled with nothing else queued, acknowledging a replayed answer is safe if and only if its revision is the one held |
| `CursorSafety.TakingRemoteIsSafeIffHeld` | crates/zk-sync/src/conflict.rs:276-305 | on an object held as pulled, taking the remote side is safe if and only if the record's remote revision is the one held |
| `CursorSafety.PullCompletes` | crates/zk-sync/src/pull.rs:159-250 | a pull that leaves nothing beyond the cursor makes a safe replica current on every object with nothing queued |
| `CursorSafety.TakingOutdatedRemoteRegresses` | crates/zk-sync/src/conflict.rs:276-305 | taking the remote side of an outdated record leaves an older version with nothing queued, and no pull repairs it |
| `CursorSafety.KeepRemoteLosesNewerVersion` | crates/zk-sync/src/conflict.rs:276-305 | a run from a new account in which that happens |
| `CursorSafety.ReplayHidesNewerVersion` | crates/zk-sync/src/queue.rs:369-404 | a run in which a replayed answer puts the client's older version back for good |
| `Writes.WritesMakeTheStep` | crates/zk-sync/src/conflict.rs:221-635 | the single writes of every client operation, in the program's order, together are that operation |
| `Interruptions.TornStepIsSafeIff` | crates/zk-sync/src/conflict.rs:221-635 | every operation (page application, edit, push with its acknowledgement, last-write-wins or recorded conflict, decision, purge) stopped after any number of its writes leaves the replica safe if and only if a stated condition on the store and the server before it holds |
| `Interruptions.TornStaysSound` | crates/zk-sync/src/conflict.rs:221-635 | stopped anywhere, an operation keeps what safety is judged against |
| `Interruptions.InterruptedRunIsSafeIff` | crates/zk-sync/src/conflict.rs:221-635 | in every run of operations, each completed or stopped between two writes, the replica is safe all along if and only if every one is harmless |
| `Interruptions.InterruptedLwwStrandsTheEdit` | crates/zk-sync/src/conflict.rs:518-556 | last-write-wins for the local edit stopped after the removal loop leaves the edit as head with nothing queued, for good |
| `Blobs.MoveKeepsInv` | apps/cloudflare-worker/src/blobs.rs:74-144 | every step of uploads, overwrites, deletes, late puts and cleanup keeps the two-store invariant |
| `Blobs.PublishedBytesAreStored` | apps/cloudflare-worker/src/blobs.rs:74-95 | in every interleaving each published row names a key whose uploaded bytes are in the bucket |
| `Blobs.GarbageNeverComesBack` | apps/cloudflare-worker/src/blobs.rs:113-144 | a key that was ever garbage is never reserved or live later |
| `Blobs.NoStoredObjectLeaks` | apps/cloudflare-worker/src/blobs.rs:80-144 | every key in the bucket is live, reserved or marked for cleanup, however late its put lands |
| `Blobs.ExpiryIsSafeIff` | apps/cloudflare-worker/src/blobs.rs:124-128 | after the first statement's selection at one clock reading, every selection the second may make at a later one keeps the invariant if and only if whatever else has expired by then comes strictly after a full selection |
| `Blobs.ExpiryBelowTheLimitIff` | apps/cloudflare-worker/src/blobs.rs:124-128 | with fewer than eight selected, the batch keeps the invariant if and only if no reservation expires between the two readings |
| `Blobs.ExpiryNeedsOneSelection` | apps/cloudflare-worker/src/blobs.rs:124-128 | the step to both: the batch keeps the invariant if and only if both statements select the same reservations |
| `Blobs.TwoClockReadingsLeak` | apps/cloudflare-worker/src/blobs.rs:124-128 | a reservation expiring between two clock readings is dropped unmarked, and its late put is tracked by nothing |
| `Blobs.TwoClockReadingsLeakInARun` | apps/cloudflare-worker/src/blobs.rs:74-128 | a run from a fresh store that reaches it |
| `Blobs.BlobStore.PutBlob` | apps/cloudflare-worker/src/blobs.rs:74-95 | the PUT arm to its end: quota refusal, failed put, failing cancel, publication answered or ambiguous; tables, bucket and status afterwards |
| `Blobs.BlobStore.Delete` | apps/cloudflare-worker/src/blobs.rs:97-109 | the row is gone, its key is garbage, and the status says whether it was there |
| `Blobs.SweptRow` | apps/cloudflare-worker/src/blobs.rs:131-144 | a swept row is gone, or not due again for a day; all others are as they were |
| `Blobs.BlobStore.Reconcile` | apps/cloudflare-worker/src/blobs.rs:120-146 | the tables and the bucket after a cleanup run over the rows its queries may select, every statement at its own clock reading, failing at any bucket delete |
| `BlobQuota.QuotaHoldsInEveryRun` | apps/cloudflare-worker/migrations/0001_server.sql:44-65 | the trigger-kept counters always equal the summed sizes, so no interleaving exceeds the quota |
| `BlobQuota.RoomIsExact` | apps/cloudflare-worker/src/blobs.rs:74-82 | a reservation is refused exactly if it would take the stored and reserved bytes past the quota |
| `BlobQuota.MoveIsAccounted` | apps/cloudflare-worker/migrations/0001_server.sql:49-65 | every step keeps the counters exact and within the quota |
| `Calendar.EpochIsNewYear1970` | crates/zk-core/src/time.rs:223-235 | day 0 is 1970-01-01 |
| `Calendar.CivilFollowsTheCalendar` | crates/zk-core/src/time.rs:201-235 | for every n the date of n is valid and the date of n+1 is its calendar successor |
| `Calendar.CivilIsIncreasing` | crates/zk-core/src/time.rs:223-235 | later days have later dates |
| `Calendar.CivilReachesEveryDate` | crates/zk-core/src/time.rs:223-235 | every valid date is the date of its day number |
| `Calendar.CivilIsABijection` | crates/zk-core/src/time.rs:201-235 | days and valid dates correspond one to one |
| `Calendar.DaysToYmdIsCivilIff` | crates/zk-core/src/time.rs:223-235 | with wrapping additions the conversion is the calendar if and only if the year returned fits in 32 bits; without overflow if and only if the March-based year fits as well |
| `Calendar.JanuaryOverflows` | crates/zk-core/src/time.rs:228-234 | in January and February of year 2147483648 the 32-bit addition overflows and the wrapped year is the least one |
| `Calendar.OverflowIsReachable` | crates/zk-core/src/time.rs:7-17 | that day is within reach of a 64-bit count of seconds |
| `Timestamps.FormatPreservesOrder` | crates/zk-core/src/time.rs:7-17 | before the year 10000 the text order of formatted instants is exactly their time order, and equal texts mean equal instants |
| `Timestamps.OrderedExactlyBeforeYear10000` | crates/zk-core/src/time.rs:7-17 | text order and time order agree on all instants before a bound if and only if the bound is at most the year 10000 |
| `Timestamps.FormattedIsValid` | crates/zk-core/src/time.rs:75-199 | every formatted instant before the year 10000 passes the validator |
| `Timestamps.StampFields` | crates/zk-core/src/time.rs:7-17 | every number in its columns and every mark between them |
| `Timestamps.LaterEditWins` | crates/zk-sync/src/conflict.rs:487-493 | between two edits stamped by the formatter last-write-wins picks the one stamped later |
| `StampShapes.AcceptedIff` | crates/zk-core/src/time.rs:75-199 | the validator accepts a text if and only if it is a date of the years 1 to 9999 and a time, leap seconds included, written in some shape (separator, fraction width, UTC or offset) |
| `StampShapes.WrittenIsValid` | crates/zk-core/src/time.rs:75-199 | one half of it: everything written in a shape is accepted |
| `StampShapes.AcceptedIsWritten` | crates/zk-core/src/time.rs:75-199 | the other half: an accepted text is taken apart into date, time, fraction and shape |
| `StampShapes.SameShapeOrder` | crates/zk-sync/src/conflict.rs:487-493 | written in one shape, timestamps compare as text exactly as their instants do, leap seconds included |
| `StampShapes.ShapesAgreeIff` | crates/zk-sync/src/conflict.rs:487-493 | for two accepted shapes the text order is always the time order if and only if the shapes are the same |
| `StampShapes.OffsetsSortAgainstTime` | crates/zk-sync/src/conflict.rs:487-493 | two accepted timestamps with different offsets that sort against time |
| `StampShapes.LaterStampWins` | crates/zk-sync/src/conflict.rs:487-493 | between two edits stamped in one shape last-write-wins picks the later one |
| `Bytes.Utf8BytesAreValid` | crates/zk-protocol/src/attachment.rs:145-147 | the UTF-8 encoding of any text passes the validity check used on ids |
| `Bytes.ValidExactlyTexts` | crates/zk-protocol/src/attachment.rs:145-147 | the validity check accepts exactly the encodings of texts |
| `Bytes.CharBytesRead` | crates/zk-protocol/src/attachment.rs:145-147 | a character's number is in the low bits of its bytes |
| `Bytes.FourBytesRead` | crates/zk-protocol/src/attachment.rs:89-116 | numbers are written most significant byte first |
| `Base64.GroupIsOneNumber` | crates/zk-crypto/src/attachment.rs:101-133 | three bytes are one number of 24 bits, written in four letters, the highest six bits first |
| `Base64.RfcVectors` | crates/zk-crypto/src/attachment.rs:101-133 | vectors of RFC 4648, section 10, and the letters in which the alphabets differ |
| `Base64.DecodesToExactly` | crates/zk-crypto/src/attachment.rs:101-133 | a text decodes to given bytes if and only if it is their encoding, in every alphabet and padding |
| `ChunkWire.ToBytes` | crates/zk-protocol/src/attachment.rs:89-116 | the appended bytes are the frame with wrapping length fields, or the encoding error |
| `ChunkWire.FromBytes` | crates/zk-protocol/src/attachment.rs:119-193 | the offset-advancing decoder never reads out of bounds and computes `Parse` |
| `ChunkWire.DecodesExactlyEncodings` | crates/zk-protocol/src/attachment.rs:89-193 | a buffer decodes to a chunk if and only if the chunk fits its length fields and the buffer starts with its encoding |
| `ChunkWire.RoundTripsExactlyWhenFits` | crates/zk-protocol/src/attachment.rs:89-193 | a chunk survives the wire if and only if id, nonce and ciphertext have lengths the format can express |
| `ChunkWire.EmptyNonceIsUnreadable` | crates/zk-protocol/src/attachment.rs:89-116 | a chunk without a nonce is serialised and does not come back |
| `ChunkWire.LongIdIsUnreadable` | crates/zk-protocol/src/attachment.rs:89-116 | an id of 65536 letters is serialised with length 0 and does not come back |
| `ChunkWire.SerialisingFailsExactly` | crates/zk-protocol/src/attachment.rs:89-116 | which chunks are not serialised, and why |
| `ChunkWire.ParsingFailsExactly` | crates/zk-protocol/src/attachment.rs:119-147 | which buffers are refused for their magic, their id or their length |
| `ChunkWire.EncodingsAreUnambiguous` | crates/zk-protocol/src/attachment.rs:89-193 | no encoding is a prefix of another chunk's |
| `ChunkWire.CutEncodingIsTruncated` | crates/zk-protocol/src/attachment.rs:119-193 | an encoding cut short anywhere is refused as truncated with honest lengths |
| `ChunkCrypto.BuildChunkAad` | crates/zk-crypto/src/attachment.rs:31-47 | the appended bytes are the associated data |
| `ChunkCrypto.AadFields` | crates/zk-crypto/src/attachment.rs:31-47 | the associated data place by place |
| `ChunkCrypto.RefusalsExactly` | crates/zk-crypto/src/attachment.rs:113-153 | which chunks are refused before the cipher is asked, and why |
| `ChunkCrypto.AadIsInjective` | crates/zk-crypto/src/attachment.rs:31-47 | associated data determines version, id, index and total, whatever the id contains |
| `ChunkCrypto.DecryptInvertsEncrypt` | crates/zk-crypto/src/attachment.rs:70-153 | decrypting an encrypted chunk returns its plaintext |
| `ChunkCrypto.SealFixesChunk` | crates/zk-crypto/src/attachment.rs:113-153 | what the cipher authenticates determines every field of the chunk, texts included |
| `ChunkCrypto.BinaryRoundTrip` | crates/zk-crypto/src/attachment.rs:156-196 | encrypting to wire bytes and decrypting them gives back index, total and plaintext |
| `AttachmentStream.ChunkCountCovers` | crates/zk-core/src/attachment.rs:33-39 | the chunk count is just enough for the size and never wraps |
| `AttachmentStream.Reader.Read` | crates/zk-core/src/attachment.rs:130-132 | a reader that delivers arbitrary short reads, none only at the end |
| `AttachmentStream.FillBuffer` | crates/zk-core/src/attachment.rs:127-138 | whatever the short reads, the buffer ends full or with all that was left |
| `AttachmentStream.EncryptChunks` | crates/zk-core/src/attachment.rs:123-165 | chunk i is the i-th slice of the stream and the running hash has seen exactly what the chunks reach |
| `AttachmentStream.EncryptStream` | crates/zk-core/src/attachment.rs:86-190 | success exactly when the smaller of stream length and chunk capacity is the declared size, with that manifest and all slices; else the exact error |
| `AttachmentStream.DecryptStream` | crates/zk-core/src/attachment.rs:244-362 | accepts exactly the lists `Accepted` describes; the error names the first bad chunk and what is wrong with it, or the first final check that fails, with the values compared; what it wrote is the plaintext of good chunks only, also on failure |
| `AttachmentStream.DecryptRestoresTheFile` | crates/zk-core/src/attachment.rs:86-362 | what a successful encryption returned is accepted with its manifest and decrypts to exactly the declared bytes |
| `AttachmentStream.DecryptRestoresTheEmptyFile` | crates/zk-core/src/attachment.rs:106-121 | an empty file is one empty chunk and comes back empty |
| `AttachmentStream.OnlyTheOriginalIsAccepted` | crates/zk-core/src/attachment.rs:258-328 | without forgery the only accepted list of chunks, with any manifest or none, is the original one |
| `LineMatch.FillTable` | crates/zk-sync/src/diff3.rs:66-79 | every cell holds the longest-common-subsequence length of the rest of both texts |
| `LineMatch.LcsBounds` | crates/zk-sync/src/diff3.rs:66-79 | no increasing matching of equal lines is longer than the table says |
| `LineMatch.EndsBound` | crates/zk-sync/src/diff3.rs:45-62 | setting common ends aside never costs a match |
| `LineMatch.MatchedPairs` | crates/zk-sync/src/diff3.rs:40-118 | prefix, table walk and suffix compute `Pairs` |
| `LineMatch.PairsMatch` | crates/zk-sync/src/diff3.rs:40-118 | the pairs are always a strictly increasing matching of equal lines |
| `LineMatch.PairsAreLongestIff` | crates/zk-sync/src/diff3.rs:37-118 | no matching is longer than the pairs if and only if the trimmed middle fits the table limit or has no line in common |
| `LineMatch.LongTextsAreNotMatched` | crates/zk-sync/src/diff3.rs:66-69 | two texts with a common line of which no pair is found |
| `Diff3.Diff3Merge` | crates/zk-sync/src/diff3.rs:121-296 | shortcuts, anchors and chunks computed step by step are the merge function |
| `Diff3.CommonAnchorsFit` | crates/zk-sync/src/diff3.rs:173-183 | the anchors lead through all three texts in order, each at three equal lines |
| `Diff3.CommonAnchorsAreShared` | crates/zk-sync/src/diff3.rs:173-183 | the anchors are exactly the base lines matched on both sides |
| `Diff3.AnchorsKeepChunksApart` | crates/zk-sync/src/diff3.rs:184-296 | between two anchors lies exactly one chunk, cut at both in all three texts, and each anchor's line stands for itself |
| `Diff3.PiecesCover` | crates/zk-sync/src/diff3.rs:184-296 | the pieces put together give back base, local and remote, each completely |
| `Diff3.NoEditIsDiscarded` | crates/zk-sync/src/diff3.rs:192-260 | every chunk cuts all three texts and the merged lines in the same place, and there stands exactly the change of the side that made one (nothing, if it deleted the lines), the common change, or local's, base's and remote's lines one after the other between the four marker lines |
| `ConflictMarkers.ChosenTextIsThatMerge` | crates/zk-sync/src/diff3.rs:192-260 | if the texts have no marker lines: whoever takes one side of every marked region of the merged text gets the merge in which that side wins every conflict |
| `ConflictMarkers.ConflictsAreTheClashes` | crates/zk-sync/src/diff3.rs:226-250 | the list of conflicts reports exactly the chunks both sides changed differently, with line number and all three versions |
| `Diff3.MergeIsSymmetric` | crates/zk-sync/src/diff3.rs:121-296 | with the sides exchanged the merge is as clean, has the same text if clean, and the same conflicts mirrored |
| `Diff3.UnchangedRemoteYieldsLocal` | crates/zk-sync/src/diff3.rs:130-136 | if remote left the lines alone, the full merge is local's text |
| `Diff3.EqualEditsYieldEither` | crates/zk-sync/src/diff3.rs:122-128 | equal edits merge to that edit without conflict |
| `Diff3.ShortcutsAgreeIff` | crates/zk-sync/src/diff3.rs:122-153 | each of the three shortcuts gives what the full merge gives if and only if the side it returns has no carriage return |
| `Diff3.ShortcutKeepsWindowsBreak` | crates/zk-sync/src/diff3.rs:130-153 | a Windows line break is kept by a shortcut and rewritten by the full merge |
| `EditBuffer.FindClosingFence` | apps/cli/src/edit.rs:104-121 | the byte-stepping search finds the first fence, nothing, or aborts inside a wide character |
| `EditBuffer.ParseEditBuffer` | apps/cli/src/edit.rs:36-102 | fence, line loop and fallbacks compute `Parse`, of which the rows below say what comes out |
| `PlainBuffers.HeadingIsRead` | apps/cli/src/edit.rs:82-94 | a buffer that begins with a heading, blanks around it as you like: that title, the default tags, and the rest trimmed, Windows breaks made plain |
| `PlainBuffers.PlainHeadingIsRead` | apps/cli/src/edit.rs:82-94 | `# t` over a body without carriage returns gives title `t` and the trimmed body |
| `PlainBuffers.LoneHeadingIsRead` | apps/cli/src/edit.rs:82-94 | a heading alone has an empty body |
| `PlainBuffers.PlainBufferIsBody` | apps/cli/src/edit.rs:82-101 | with neither fence nor heading the defaults stay and all of it is the body |
| `PlainBuffers.UnclosedFenceIsBody` | apps/cli/src/edit.rs:36-101 | likewise with a fence that is never closed and ASCII after it |
| `PlainBuffers.FencedIsRead` | apps/cli/src/edit.rs:36-80 | frontmatter between fences is read and what follows is the body, with plain or Windows line breaks |
| `PlainBuffers.WindowsTitleIsRead` | apps/cli/src/edit.rs:36-80 | the title line of a Windows buffer, without its carriage return |
| `PlainBuffers.OtherLinesChangeNothing` | apps/cli/src/edit.rs:60-78 | other lines of the frontmatter are ignored |
| `PlainBuffers.WrittenTagIsRead` | apps/cli/src/edit.rs:69-78 | a tag in quotes of either kind and blanks is read without them, in lower case |
| `PlainBuffers.TagsOfConcat` | apps/cli/src/edit.rs:69-78 | each tag is read for itself, in order |
| `PlainBuffers.BlankTagIsDropped` | apps/cli/src/edit.rs:69-78 | nothing between two commas is no tag |
| `EditBuffer.ParsePanicsExactly` | apps/cli/src/edit.rs:36-121 | any buffer aborts the parser if and only if it opens with a fence and a wide character precedes the closing one |
| `EditBuffer.PrintedPanicsExactly` | apps/cli/src/edit.rs:21-121 | a printed note aborts the parser if and only if title or tags leave ASCII |
| `EditBuffer.AccentedTitlePanics` | apps/cli/src/edit.rs:104-121 | an input on which it aborts |
| `EditBuffer.PrintedNoteIsRead` | apps/cli/src/edit.rs:21-121 | for every single-line ASCII title and plain tags: what title, tags and body come back |
| `EditBuffer.EditRoundTrip` | apps/cli/src/edit.rs:21-121 | plain title and tags and the trimmed body come back, whatever fences the body holds |
| `EditBuffer.TitleSurvivesExactly` | apps/cli/src/edit.rs:58-68 | a single-line ASCII title survives for every default if and only if its ends are no blanks or quotes |
| `SshSigning.SigningBytes` | crates/zk-protocol/src/ssh.rs:56-102 | exactly the valid challenges are framed, field by field |
| `SshSigning.SignedExactly` | crates/zk-protocol/src/ssh.rs:56-87 | signed are exactly the challenges of version 1 with fingerprint and nonce of 32 bytes, ids not nil, an expiry, and a printable web address of at most 2048 characters |
| `SshSigning.MessageReads` | crates/zk-protocol/src/ssh.rs:88-93 | read from its beginning the message gives domain, version, audience and fingerprint |
| `SshSigning.AccountReads` | crates/zk-protocol/src/ssh.rs:93-99 | then a flag and the account |
| `SshSigning.LastFields` | crates/zk-protocol/src/ssh.rs:99-102 | and device, challenge, nonce and expiry in the last 72 bytes |
| `SshSigning.AppendString` | crates/zk-protocol/src/ssh.rs:104-108 | a string after its 32-bit length |
| `SshSigning.DecodingAlreadyChecks` | crates/zk-protocol/src/ssh.rs:65-77 | 43 letters that decode are 32 canonical bytes |
| `SshSigning.MessageDeterminesChallenge` | crates/zk-protocol/src/ssh.rs:56-102 | messages that agree, even as beginnings of longer strings, come from the same challenge |

## Left out

- Revisions, server sequences and cursors are unbounded; 64-bit overflow is not modelled.
- The AEAD, BLAKE2 and the signature schemes are ideal or abstract: sealing opens, and `NothingForged` is a hypothesis about the chunks presented, not proved of a cipher.
- UUIDs and storage keys are fresh by hypothesis where the source draws them at random.
- Storage lock errors, reader, writer and sink I/O errors, and network error mapping: plumbing.
- `Conflicts.LwwLosesNothing`: needs the conflicting mutation to be the object's only queued one, because the removal loop drops all of them; `LwwLosesAtMostTheReplaced` covers every store.
- `PushLoop.PushPendingChanges`: the report's counters and lists are left out; they do not touch the state. Resetting in-flight mutations on start-up only touches their status.
- `CursorSafety.RunIsSafeIff`: safety speaks of revision, deletion flag and envelope, not of the stored sequence, which last-write-wins and decisions set to 0. Injected failures are transport failures.
- `Interruptions.TornStepIsSafeIff`: a single write is atomic.
- `SyncPull.PullRemoteChanges`: decryption after pulling is left out; it does not touch the store. Pushes between its pages are steps in `CursorSafety`.
- `Blobs.BlobStore.Reconcile`: liveness of cleanup (that garbage is eventually erased) is not claimed; the statement that expires login challenges touches another table and is omitted.
- `AttachmentStream.DecryptStream`: the chunk counter does not wrap at 2^32.
- The semantic note merge around `diff3_merge` (titles, tags, timestamps), enveloping and key handling.
- `EditBuffer`: lower-casing is a parameter fixed on canonical tags.
- SQLite storage, the Axum server, HTTP adapters, WebAuthn, the terminal and web interfaces, search, recovery keys, configuration.
