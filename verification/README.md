# Verified models of the Jinn runtime's stores, scheduler and identity hashing

The runtime under `runtime/` keeps stores on disk with a write-ahead log and multi-file
transactions, schedules coroutines over channels, select and cancellation scopes, and the
compiler names code by hashing canonical graphs (`src/identity.rs`). This project models
that logic in Dafny and proves what it is for. `dafny verify dfyconfig.toml` checks all of it.

## What is modelled

- **Transactions** (`Txn.dfy`, `Outcome.dfy`, `Process.dfy`, `Journal.dfy`). Files have a content and may be
  unsynced; the undo journal is a byte sequence with a durable part. Every call of
  `jinn_txn_begin`, track, commit, rollback and `journal_recover` is split at its writes, syncs,
  renames and unlinks, and a crash may strike after any step, again and again. An unsynced file
  may then hold anything, an appended journal any prefix not shorter than its durable part, and
  an unlink not yet durable either state. The main result is all-or-nothing over any number of
  files. `Process` holds the calls themselves as methods; each extends a run of the step system
  by the steps it takes, so the theorems about runs are theorems about the calls.
- **Write-ahead log** (`Wal.dfy`, `Crc.dfy`, `Recover.dfy`). Frames as bytes, the chunked checksum
  loop, torn tails, replay that stops before an open transaction, and upsert recovery of a store.
- **Work-stealing deque** (`Deque.dfy`, `DequeCalls.dfy`). One owner and any number of thieves, one
  atomic access per step, growth with retired buffers still being read; and the same calls on the
  deque's own fields when they do not overlap.
- **Channels** (`Channel.dfy`, `Capacity.dfy`). The ring buffer refines a queue attempt by attempt;
  the traffic of any number of senders and receivers is built from such attempts.
- **Parking and select** (`Park.dfy`, `Select.dfy`). Locks taken in address order and handed to the
  worker, wait-queue nodes on every case, the claim word, the run queue, and the linked wait queue.
- **Cancellation scopes** (`Scope.dfy`, `Cause.dfy`). The recursive walk under locks against
  concurrent creation, registration and joining: what must be cancelled, and that nothing else is.
- **Writer gate** (`Gate.dfy`). Compare-and-swap ownership with depths and the store lock table.
- **Tables** (`Probing.dfy`, `Kv.dfy`, `Index.dfy`, `Version.dfy`). Linear probing with tombstones
  against a map and a multimap, save and reload, and version compaction.
- **Identity hashing** (`Graphs.dfy`, `Tarjan.dfy`, `Canon.dfy`, `Isomorphism.dfy`, `Identity.dfy`,
  `Digests.dfy`). The iterative component pass, the rooted serialisation, and what equal digests mean.
- `Bytes.dfy`, `Bits.dfy` and `Options.dfy` hold machine words, masks and the option type.

## Findings

- A select over two or more channels can be enqueued while its worker still has to release some of
  its other locks, because the locks are released one by one (`runtime/sched.c:167-173`). With one
  lock this cannot happen. `Parking.EnqueueAfterSwitch` and `Parking.EnqueueBeforeRelease` together
  say exactly when; `Parking.LockListStaysAlive` says why it does no harm.
- A key with a NUL byte is stored by the key-value table but never found again, since stored keys
  are measured with `strnlen` (`runtime/kv.c:66-71`): `KeyValue.FoundIffNulFree`. Worse, the file
  saved from then on is refused as a whole when it is opened (`runtime/kv.c:186-191`), unless the
  part before the NUL is not empty, has the hash of the whole key and is not stored itself:
  `KeyValue.AddedClean`, and `KeyValue.LoneNulRefusesFile` for one such key.
- `jinn_wal_write` accepts payloads the scan rejects (`runtime/wal.c:156-159`); such a frame and all
  after it are dropped on reopening: `WalFormat.WholeIffLengthsOk`, `WalFormat.LostFromOversized`,
  and one such entry in `WalFormat.OversizedEntryIsLost`.
- A channel capacity over 2^63, such as -1 passed as a machine word (the compiler's
  `src/codegen/mir_codegen/helpers/runtime.rs:206-213` hands the number over unchecked), makes
  `next_pow2` give 0. On such a channel no send and no receive ever succeeds, and a sender and a
  receiver end up both parked: `Traffic.NeverBothStuck` says exactly when,
  `Traffic.StuckAtMinusOne` gives the run, `Traffic.NoRoomNothingPasses` the consequence.

## Model

| member | source | states |
|---|---|---|
| `Txn.AllOrNothing` | runtime/wal.c:566-621 | In every run, with a crash after any step including the steps of recovery, whenever nothing is in progress the files of the last transaction are all as at its begin or all as committed: as at begin before the journal is unlinked, as committed once commit has returned; recovery never refuses the journal |
| `Txn.UndoBeforeMutation` | runtime/wal.c:435-506 | A file that differs from its content at begin while the transaction runs has that content as its first image in the durable part of the journal |
| `Txn.ParticipantsDecided` | runtime/wal.c:435-621 | A participant listed at any time in a transaction is among the files the outcome is decided for until the machine is idle again, through commit, rollback, crashes and recovery, and their contents at begin are not forgotten |
| `Txn.ParticipantsAllOrNothing` | runtime/wal.c:566-621 | When the machine next is idle the participants are all durably as at begin or all durably as committed |
| `Outcomes.CommitOutcome` | runtime/wal.c:566-583 | A commit that finds certain contents ends, whatever crashes come between, with all participants durably as at begin or all durably as it found them, apart from TXN_COMMIT frames at the end of the logs |
| `Outcomes.RollbackOutcome` | runtime/wal.c:592-621 | A rollback ends, whatever crashes come between, with all participants durably as at begin |
| `Txn.RecoveryEnds` | runtime/txn_journal.c:83-154 | After any crash recovery can always go on, and each undisturbed step brings it nearer to its end |
| `Txn.RunInv` | runtime/wal.c:377-621 | The invariant of journal, participants and file states holds in every state of every run |
| `Txn.StepKeeps` | runtime/wal.c:377-621 | Every step, a crash included, keeps that invariant |
| `Txn.AppendRecKeeps` | runtime/txn_journal.c:203-230 | Appending a record keeps every recorded path at its content at begin as first image |
| `Txn.AppendDoneKeeps` | runtime/wal.c:488-505 | After the record is synced the participant is listed with an undo image that restores it |
| `Txn.CommitReached` | runtime/wal.c:566-578 | When all participants are synced and all logs marked, every file is durable as the commit leaves it |
| `Txn.RollPartKeeps` | runtime/wal.c:592-616 | Writing back participants newest first leaves every file done so far at its content at begin |
| `Txn.UnlinkKeeps` | runtime/txn_journal.c:232-237 | The unlink is the commit point: before it all files go back, after it is durable none does |
| `Txn.RewriteDoneKeeps` | runtime/txn_journal.c:142-145 | Restoring records last to first leaves every restored path at its first image |
| `Txn.CrashGuarded` | runtime/txn_journal.c:83-154 | Whatever prefix of the journal a crash leaves, each file not at its old content still has its undo image in it |
| `Txn.CrashKeeps` | runtime/txn_journal.c:83-154 | A crash in any state leaves a state recovery can start from |
| `Txn.FirstOccurrence` | runtime/txn_journal.c:142-145 | A record with no earlier record of its path is that path's first image |
| `TxnProcess.Process.constructor` | runtime/wal.c:357-369 | A process starts at rest on the given files, with no transaction and no journal |
| `TxnProcess.Process.Begin` | runtime/wal.c:377-391 | Nesting only counts; an outer begin starts with no participants and remembers the contents |
| `TxnProcess.Process.Snapshot` | runtime/txn_journal.c:203-230 | Creates the journal if there is none and appends one record, or stops exactly when the record is not allowed |
| `TxnProcess.Process.Track` | runtime/wal.c:435-506 | A new participant is listed with its content, its log tracked first and marked with a TXN_BEGIN frame holding the undo image; tracked files and calls outside a transaction change nothing |
| `TxnProcess.Process.TrackLog` | runtime/wal.c:499-500 | The store's log is tracked as a participant of its own unless it is already |
| `TxnProcess.Process.MarkLog` | runtime/wal.c:501-505 | The TXN_BEGIN frame is appended and durable before the store is listed |
| `TxnProcess.Process.Commit` | runtime/wal.c:566-583 | Inner commits only count; the outer one leaves every log with a TXN_COMMIT frame, nothing else changed, no journal, and all files durable |
| `TxnProcess.Process.SyncAll` | runtime/wal.c:570-573 | Syncing the participants changes no content |
| `TxnProcess.Process.MarkAll` | runtime/wal.c:574-578 | Each participant's log gets one TXN_COMMIT frame, in participant order |
| `TxnProcess.MarkedMeaning` | runtime/wal.c:574-578 | A file that is the log of one participant gains exactly one TXN_COMMIT frame, a file that is nobody's log stays as it is |
| `TxnProcess.CommitDelivers` | runtime/wal.c:566-578 | Before the commit a log delivers nothing of the transaction in it, after it all its entries follow what was delivered before |
| `TxnProcess.Process.Finish` | runtime/txn_journal.c:232-237 | The journal is gone, durably, and the participants are released |
| `TxnProcess.Process.Rollback` | runtime/wal.c:592-621 | All undo images are written back, newest first, and every file is at its content at begin |
| `TxnProcess.Process.UndoAll` | runtime/wal.c:596-616 | The loop over the participants writes exactly their images, in list order |
| `TxnProcess.Process.Recover` | runtime/txn_journal.c:83-154 | After a crash: the files recorded in what is left of the journal are restored, the journal is removed, and the outcome is all or nothing |
| `TxnProcess.Process.RewriteAll` | runtime/txn_journal.c:142-145 | The restore loop computes the restoration of all records, last to first |
| `TxnProcess.Process.Write` | runtime/txn_journal.c:41-46 | A write in place, inside a transaction only to a tracked file |
| `TxnProcess.Process.Crash` | runtime/txn_journal.c:83-99 | Between calls the machine may stop and come back with anything a crash may leave |
| `TxnProcess.Process.Restart` | runtime/txn_journal.c:83-99 | A process may start after a crash at any state of any earlier run, so also in the middle of a call, and go on to recovery |
| `Journal.RecordReadsBack` | runtime/txn_journal.c:98-141 | A complete record in the journal reads back as the path and content recorded |
| `Journal.RecordLayout` | runtime/txn_journal.c:203-230 | A record is the path length in four bytes, the content length in eight, the path, the content, and the hash of all of that in eight |
| `Journal.RecordBytesChecked` | runtime/txn_journal.c:110-141 | A record is accepted only with the hash of all its bytes after it |
| `Journal.ChangedRecordRefused` | runtime/txn_journal.c:110-141 | A record with a byte of path or content changed stops recovery unless the hash of the changed record agrees in all 64 bits |
| `Journal.TornRecord` | runtime/txn_journal.c:102-131 | A record cut anywhere ends the reading, it is never an error |
| `Journal.CutJournalReads` | runtime/txn_journal.c:83-141 | A journal cut at any byte from 8 on yields exactly its complete records |
| `Journal.CutJournalRestores` | runtime/txn_journal.c:83-154 | Recovery from such a cut restores exactly the paths with a complete record, each to its first image, and leaves other files alone |
| `Journal.FirstImageWins` | runtime/txn_journal.c:142-145 | Restoring last to first leaves a path recorded several times at its first image and a path not recorded as it was |
| `Journal.CompleteAtLeast` | runtime/txn_journal.c:98-141 | A cut that spares the first records spares them all as complete |
| `Journal.RecoverAfterCut` | runtime/txn_journal.c:83-154 | For every cut, also inside the magic, recovery finds the complete records and does not fail |
| `Journal.Directory.Snapshot` | runtime/txn_journal.c:203-230 | Exactly for the paths and sizes the checks accept, the journal holds the magic and all records written so far, the new one last; otherwise nothing is written |
| `Journal.Directory.Recover` | runtime/txn_journal.c:83-154 | The two loops restore what the journal says and remove it, or refuse it and change nothing |
| `Journal.Directory.ReadImages` | runtime/txn_journal.c:97-141 | The reading loop collects the complete records, newest first, or stops on a bad one |
| `Journal.Directory.RestoreImages` | runtime/txn_journal.c:142-145 | The loop over that list rewrites the files newest record first |
| `Journal.Directory.Finish` | runtime/txn_journal.c:232-237 | An open journal is closed and removed |
| `WalFormat.FrameReadsBack` | runtime/wal.c:160-197 | The scan accepts a written frame exactly when its length is one the scan allows, and then reads it back unchanged |
| `WalFormat.FrameLayout` | runtime/wal.c:279-308 | A frame is its payload length in four bytes, the op, eight bytes of time, the payload, and the checksum of all of that |
| `WalFormat.FrameBytesChecked` | runtime/wal.c:160-197 | A frame is accepted only with the checksum of all its bytes, from the length to the end of the payload, after it |
| `WalFormat.ChangedByteRejected` | runtime/wal.c:160-197 | Whichever byte after the length is changed, op, time, payload or checksum, the frame is not accepted any more |
| `WalFormat.TornFrame` | runtime/wal.c:160-197 | A frame cut anywhere is not a frame |
| `WalFormat.CutScan` | runtime/wal.c:160-197 | Scanning a log cut at any byte finds exactly its complete frames |
| `WalFormat.CutLogReopens` | runtime/wal.c:202-228 | A log cut at any byte from 8 on reopens to the log of its complete frames |
| `WalFormat.WholeIffLengthsOk` | runtime/wal.c:156-159 | An uncut log reopens byte for byte as it was if and only if every frame is a TXN_BEGIN or at most 64 MiB |
| `WalFormat.LostFromOversized` | runtime/wal.c:160-197 | The first oversized frame is dropped on reopening with everything after it |
| `WalFormat.OversizedEntryIsLost` | runtime/wal.c:156-159 | A written entry of 64 MiB and one byte whose log reopens to the magic alone |
| `WalFormat.ReopenThenAppend` | runtime/wal.c:279-308 | Reopening after a cut and appending gives the complete frames and the new one |
| `WalFormat.TrackMeaning` | runtime/wal.c:640-675 | The pending offset is the last TXN_BEGIN with no later marker, and there is none exactly when every TXN_BEGIN has a later TXN_COMMIT |
| `WalFormat.NonMarkersMeaning` | runtime/wal.c:729-763 | What replay hands on is in log order every frame whose op is neither 0xF0 nor 0xF1, and no other |
| `WalFormat.DeliveredGrows` | runtime/wal.c:640-770 | An entry appended outside a transaction is delivered at once, one inside waits, a TXN_COMMIT releases everything before it and a TXN_BEGIN holds none of it back |
| `WalFormat.ReplayAllOrNothing` | runtime/wal.c:717-770 | None of a transaction's entries is replayed before its TXN_COMMIT frame is in the log, all of them with it |
| `WalFile.LogFile.CheckFrame` | runtime/wal.c:166-193 | The chunked checksum loop accepts exactly the frames whose whole-buffer checksum is right |
| `WalFile.LogFile.ScanValidEnd` | runtime/wal.c:160-197 | Returns where the last valid frame ends and whether anything follows |
| `WalFile.LogFile.StopBeforeUncommitted` | runtime/wal.c:633-675 | Returns the start of the transaction left open, or the valid end |
| `WalFile.LogFile.UncommittedBegin` | runtime/wal.c:676-716 | Returns the undo image of the transaction left open and restores the file position |
| `WalFile.LogFile.ReplayNext` | runtime/wal.c:729-763 | One round hands over exactly the frame at the position, or skips a marker |
| `WalFile.LogFile.Replay` | runtime/wal.c:717-770 | Delivers in order exactly the non-marker frames before the transaction left open, counts them and reports completion |
| `WalFile.LogFile.Write` | runtime/wal.c:279-308 | Appends exactly the encoded frame |
| `WalFile.LogFile.Checkpoint` | runtime/wal.c:316-322 | Outside a transaction only the magic stays; inside nothing changes |
| `WalFile.Open` | runtime/wal.c:202-278 | A missing, empty or old-format log becomes an empty one, a log loses its torn tail, a foreign file is refused |
| `CrcRegister.TableSplit` | runtime/wal.c:138-145 | Eight bit-serial steps of a register are the table entry of its low byte xor the register shifted by eight |
| `Crc.FeedSplit` | runtime/wal.c:138-154 | The checksum of a concatenation is the checksum of the parts in turn |
| `Crc.InitTable` | runtime/wal.c:127-135 | Fills the table with the eight-step values of all bytes |
| `Crc.Update` | runtime/wal.c:138-145 | The table-driven loop computes the bit-serial CRC-32 of section 8 of RFC 1952 |
| `Crc.CheckValue` | runtime/wal.c:127-154 | The checksum of the nine characters 123456789 is 0xCBF43926, the check value of CRC-32 |
| `Crc.ChangedByteShows` | runtime/wal.c:138-145 | Changing one byte of the input always changes the checksum |
| `Bytes.WordRoundTrip` | runtime/wal.c:146-154 | A word written as little-endian bytes reads back as itself |
| `Bytes.LittleEndian` | runtime/wal.c:146-154 | Byte i of a written word is its digit of weight 256 to the power i |
| `Recovery.LastImageWins` | runtime/recover.c:26-73 | Every row identity in the log ends at its last image; rows of other identities stay as they were |
| `Recovery.ReplayTwice` | runtime/recover.c:26-73 | Replaying a log a second time changes nothing |
| `Recovery.PrefixAbsorbed` | runtime/recover.c:26-73 | A store that already holds any prefix of the log ends with the same rows in the same order |
| `Recovery.ReplayInPlace` | runtime/recover.c:47-57 | When all identities are present replay changes values in place only |
| `Recovery.FillReadsBack` | runtime/recover.c:79-95 | A rewritten store reads back as the rows and header values written |
| `Recovery.RecoveredTwice` | runtime/recover.c:96-239 | A crash between the store rewrite and the log checkpoint is harmless: recovering again gives the same store |
| `Recovery.DeliveredStamped` | runtime/wal.c:717-770 | Every replayed entry carries its timestamp |
| `Recovery.ImageMeaning` | runtime/recover.c:32-46 | Exactly the payloads of the row size are stored, byte for byte, with the entry's time in the deletion field if and only if the op is 3 and that field is zero |
| `Recovery.UpsertMeaning` | runtime/recover.c:47-73 | The image replaces the first row with its identity, or is appended if there is none, and no other row changes |
| `Recovery.LastEntryStays` | runtime/recover.c:26-73 | After replay the first row of an identity is what its last entry writes |
| `Recovery.HeaderParts` | runtime/recover.c:79-95 | A rewritten store is its magic, the row count, the row size, the schema fingerprint and version in eight bytes each, and the rows |
| `Recovery.RecoveredStoreReads` | runtime/recover.c:96-239 | Rewritten or left alone, a recovered store reads back as the rows recovery started from with all entries replayed |
| `Recovery.RecoveredEntries` | runtime/recover.c:96-239 | In the recovered store every row is what its last entry writes, a delete logged without a stamp included |
| `Recovery.UndoRestores` | runtime/recover.c:129-239 | A well-formed undo image is always written back, with the earlier entries over it, also when there are none |
| `Recovery.Buffer.Callback` | runtime/recover.c:26-73 | Writes the entry over the first row of its identity or appends it: payload bytes everywhere, except that a delete entry whose stamp is zero gets its own time there; entries of foreign size are skipped, and changes are counted |
| `Recovery.Buffer.Store` | runtime/recover.c:47-73 | The search loop and the two ways to store an image compute the upsert |
| `Recovery.Buffer.Append` | runtime/recover.c:59-71 | Appends one row, growing the buffer when full |
| `Recovery.RunCallback` | runtime/recover.c:204-204 | Running the callback over the delivered entries gives the replayed rows and the counts, and if the deletion field does not overlap the identity every row ends as the last entry written for it |
| `Recovery.Recover` | runtime/recover.c:96-239 | Decides between refusing, leaving, stopping and rewriting as the header, the undo image and the log say, and checkpoints only after success |
| `Deque.NothingLostNothingDoubled` | runtime/deque.c:31-91 | In every interleaving of one owner and any number of thieves the pushed multiset is the returned one plus the live window plus what the owner has in hand, thieves on retired buffers included; every step acts on the live window as one deque operation or not at all |
| `Deque.RunInv` | runtime/deque.c:31-91 | The invariant of buffers, window, owner and thieves holds in every state of every run |
| `Deque.StepKeeps` | runtime/deque.c:31-91 | Every atomic access keeps the invariant and acts on the queue as nothing, a push at the back, a take at the front, or, by the owner, a take at the back |
| `Deque.GrowKeeps` | runtime/deque.c:31-43 | Copying the window into the larger buffer and publishing it loses nothing |
| `Deque.StoreSlotKeeps` | runtime/deque.c:44-53 | Storing the new element overwrites no live slot, in no buffer a thief may read |
| `Deque.PopTopKeeps` | runtime/deque.c:54-75 | Pop answers empty only when nothing is live, and otherwise commits to the newest element unless it is the last |
| `Deque.PopCasKeeps` | runtime/deque.c:62-70 | The race for the last element is won by one side only |
| `Deque.TakeKeeps` | runtime/deque.c:76-91 | A thief returns the oldest live element exactly when top is still what it read, and otherwise changes nothing |
| `Deque.LookKeeps` | runtime/deque.c:76-83 | A steal changes nothing before its compare-and-swap, and gives up earlier exactly when the bottom it reads is not above the top it read |
| `Deque.PushAlone` | runtime/deque.c:44-53 | From every reachable state with the owner idle a push that runs alone ends with its element appended, growth and thieves halfway included |
| `Deque.PopAlone` | runtime/deque.c:54-75 | A pop that runs alone returns the newest element, and nothing exactly from an empty deque |
| `Deque.StealAlone` | runtime/deque.c:76-91 | A steal that runs alone takes the oldest element exactly when bottom is above top, which with an idle owner is when the deque is not empty |
| `DequeCalls.WorkDeque.constructor` | runtime/deque.c:16-21 | A new deque is empty |
| `DequeCalls.WorkDeque.Grow` | runtime/deque.c:31-43 | The copy loop keeps the window |
| `DequeCalls.WorkDeque.Push` | runtime/deque.c:44-53 | Appends at the back, growing when full |
| `DequeCalls.WorkDeque.Pop` | runtime/deque.c:54-75 | Takes the newest element, or nothing from an empty deque |
| `DequeCalls.WorkDeque.Steal` | runtime/deque.c:76-91 | Takes the oldest element, or nothing from an empty deque |
| `Bits.MaskIsMod` | runtime/deque.c:36-40 | Masking with a power of two less one is the remainder |
| `Bits.SlotDistinct` | runtime/deque.c:36-40 | Positions less than a full turn apart use different slots |
| `Channels.Channel.constructor` | runtime/channel.c:70-88 | For every 64-bit request a new channel is empty and open with the granted capacity: at least the request if it is at most 2^63, otherwise 0 |
| `Channels.GrantedMeaning` | runtime/channel.c:73-74 | Requests up to 2^63 get the least power of two not below them, 64 for a request of 0, larger ones get capacity 0 |
| `Channels.Channel.Send` | runtime/channel.c:198-249 | An open channel with room takes the item and wakes the oldest receiver; a closed one refuses it whatever room there is; a full one parks or spins |
| `Channels.Channel.Recv` | runtime/channel.c:258-350 | With an item buffered the oldest one is returned, closed or not, and the oldest sender is woken; only an empty closed channel answers the end, an empty open one parks or fails |
| `Channels.Channel.Close` | runtime/channel.c:140-163 | Marks the channel closed, keeps the buffered items, and wakes every parked coroutine once, receivers before senders |
| `Capacities.RoundsUp` | runtime/channel.c:26-36 | For every 64-bit request up to 2^63 the least power of two not below it, beyond that zero |
| `Traffic.FirstInFirstOut` | runtime/channel.c:193-350 | In every interleaving items are delivered in the order accepted, none lost or doubled, within capacity |
| `Traffic.ReceiveTakesNext` | runtime/channel.c:258-350 | In every run a receive is given the item sent next after those delivered whenever there is one, closed or not; a blocking one goes out without an item only when the channel is closed and everything sent is delivered |
| `Traffic.SendAcceptedIffRoom` | runtime/channel.c:198-249 | In every run a send is accepted exactly when the channel is open and holds fewer items than its capacity |
| `Traffic.ClosedAcceptsNothing` | runtime/channel.c:140-163 | From the close on nothing more is accepted |
| `Traffic.NoLostWakeup` | runtime/channel.c:193-321 | On an open channel, while a sender is parked the free slots do not exceed the woken senders not yet rerun; dually for receivers |
| `Traffic.NeverBothStuck` | runtime/channel.c:193-321 | A parked sender and a parked receiver on an open channel with nobody on the way occur in no run of a channel created with the request if and only if the request is at most 2^63 |
| `Traffic.StuckAtMinusOne` | runtime/channel.c:26-36 | For the request 2^64 - 1 there is a run in which a sender and a receiver are both parked for good |
| `Traffic.RoomPreventsStuck` | runtime/channel.c:193-321 | With any capacity above 0 they are never both stuck |
| `Traffic.NoRoomNothingPasses` | runtime/channel.c:193-321 | On a channel of capacity 0 nothing is ever accepted or delivered |
| `Traffic.ClosedLeavesNobody` | runtime/channel.c:140-163 | Once close has drained the queues nobody is or gets parked |
| `Traffic.SendKeeps` | runtime/channel.c:193-251 | A send round keeps the order, the queues and the wake-up counts |
| `Traffic.RecvKeeps` | runtime/channel.c:258-350 | A receive round keeps them |
| `Traffic.DrainKeeps` | runtime/channel.c:140-163 | Draining wakes exactly the parked coroutines |
| `Parking.OneEnqueuePerPark` | runtime/sched.c:142-193 | Each park causes at most one enqueue, a coroutine is resumed only from a yield or a park it has switched away from, and a finished one is owed no wake-up |
| `Parking.EnqueueAfterSwitch` | runtime/sched.c:159-173 | An enqueue finds the coroutine off its stack and the lock it was woken under, and all later ones, released; with a single lock that is all of them |
| `Parking.EnqueueBeforeRelease` | runtime/sched.c:167-173 | For every select over two or more channels there is a run in which it is enqueued while the worker still holds its first lock |
| `Parking.NobodyForgotten` | runtime/select.c:196-227 | While no wake-up has won a parked coroutine has a node on the queue of every channel it waits on; once one has, exactly one wake-up is on its way |
| `Parking.CanBeWoken` | runtime/channel.c:47-69 | Whoever holds the lock of a queue with an unclaimed node can pop, enqueue and so resume its coroutine, a select at its first lock |
| `Parking.NoStaleNodes` | runtime/select.c:238-251 | No wait queue keeps a node of a select that has finished its cleanup |
| `Parking.LockListStaysAlive` | runtime/select.c:228-237 | While the worker walks the lock list on the coroutine's stack the coroutine has not got past its first lock |
| `Parking.LocksClimb` | runtime/select.c:42-53 | Coroutines waiting for locks held by one another want ever higher addresses, so no circle forms |
| `Parking.PopFacts` | runtime/select.c:114-133 | Whoever wins a wake-up finds the coroutine asleep off its stack and not woken before |
| `Parking.PopKeeps` | runtime/channel.c:47-69 | Popping, claiming or dropping a node keeps the one-winner discipline |
| `Parking.SwitchKeeps` | runtime/sched.c:157-173 | Switching away hands all held locks to the worker |
| `Parking.ReleaseKeeps` | runtime/sched.c:167-173 | Releasing one more lock, last first, keeps the account of who holds what |
| `Parking.RetakeKeeps` | runtime/select.c:238-238 | A resumed select takes its locks again in order |
| `Parking.CleanKeeps` | runtime/select.c:239-249 | The cleanup unlinks every node of the select |
| `Parking.RunInv` | runtime/sched.c:142-193 | The account of locks, nodes, claims and run-queue entries holds in every state of every run |
| `Selecting.SortByAddr` | runtime/select.c:30-41 | Sorts the case numbers by channel address and keeps exactly the same cases |
| `Selecting.Insert` | runtime/select.c:31-40 | One insertion round extends the sorted part |
| `Selecting.LockList` | runtime/select.c:184-195 | The lock list is increasing and holds exactly the channels of the cases |
| `Selecting.WaitQueue.Push` | runtime/select.c:90-99 | Appends a node to the linked queue |
| `Selecting.WaitQueue.PopWakeable` | runtime/select.c:114-133 | Drops nodes won elsewhere and wins the first other one, or empties the queue |
| `Selecting.WaitQueue.RemoveNode` | runtime/select.c:100-113 | Unlinks the node wherever it is and nothing else |
| `Cancellation.CancelReachesAll` | runtime/scope.c:169-189 | Whenever no cancel, create or register is in progress, everything registered below a cancelled scope, to any depth, is cancelled |
| `Causes.CancelReachesRegistered` | runtime/scope.c:165-189 | Told on the calls: below a scope named in a finished cancel call every scope created and not joined is cancelled, and every coroutine registered and not unregistered |
| `Causes.CancelledForAReason` | runtime/scope.c:98-110 | A cancelled coroutine's own scope is cancelled, and a cancelled scope has an unbroken line of cancelled ancestors up to one that a cancel call named |
| `Causes.NobodyAsked` | runtime/scope.c:60-110 | Where nobody has called cancel no scope and no coroutine is cancelled |
| `Causes.AskedIsCancelled` | runtime/scope.c:165-173 | A cancel call that is over has cancelled its scope |
| `Cancellation.ListedIsAlive` | runtime/scope.c:270-308 | No scope is freed while its parent lists it |
| `Cancellation.WalksAlone` | runtime/scope.c:174-188 | Only one thread at a time works on a scope's lists |
| `Cancellation.RunInv` | runtime/scope.c:53-308 | The coverage invariant holds in every state of every run |
| `Cancellation.SwapKeeps` | runtime/scope.c:171-173 | The exchange on the flag leaves one walker, however many cancel |
| `Cancellation.CancelKidKeeps` | runtime/scope.c:175-181 | Cancelling the listed coroutines one by one keeps the coverage |
| `Cancellation.AscendKeeps` | runtime/scope.c:185-188 | A walk ends with everything listed covered |
| `Cancellation.CheckParentKeeps` | runtime/scope.c:80-84 | A new scope sees its parent's flag or is seen by the walk |
| `Cancellation.StoreOwnKeeps` | runtime/scope.c:84-84 | A newborn that saw the flag cancels itself |
| `Cancellation.CheckScopeKeeps` | runtime/scope.c:105-107 | A new child sees the scope's flag or is seen by the walk |
| `Cancellation.UnlistKeeps` | runtime/scope.c:270-281 | Taking a joined scope off its parent's list keeps the coverage |
| `Cancellation.RemovedAt` | runtime/scope.c:124-129 | Removal puts the last entry in the removed one's place |
| `Cancellation.Registry.Add` | runtime/scope.c:98-104 | Appends to the growing array |
| `Cancellation.Registry.Remove` | runtime/scope.c:124-129 | Removes the first occurrence by moving the last entry into its place |
| `WriterGate.DepthAdded` | runtime/durable.c:406-463 | Between its owner's calls the gate's depth is the direct enters plus the depths of all slots, and others hold nothing |
| `WriterGate.DepthsAreLocks` | runtime/durable.c:357-463 | A path never has two slots, and a slot's depth is how often the gate's owner has locked the path and not yet unlocked it; nobody else has any path locked |
| `WriterGate.UnlockTakesOne` | runtime/durable.c:452-463 | An unlock takes back one lock of its path, and none of anybody if the caller has it not locked |
| `WriterGate.LockAlone` | runtime/durable.c:406-451 | Left alone at a gate that is free or its own a thread gets every lock whose path has a slot or can be given one |
| `WriterGate.SlotForMeaning` | runtime/durable.c:357-383 | A path is given a slot exactly when it has one or one is unused |
| `WriterGate.SlotsBelongToGateOwner` | runtime/durable.c:432-451 | Every owned store slot belongs to the gate owner |
| `WriterGate.SlotNeverWaits` | runtime/durable.c:441-450 | The compare-and-swap loop on a slot never waits |
| `WriterGate.LeaveNeverFails` | runtime/durable.c:424-430 | In matched use a leave finds its caller owning the gate at a positive depth, so its fail-stop never fires |
| `WriterGate.FinishedFreesGate` | runtime/durable.c:424-430 | A thread that has undone all its enters and locks does not own the gate |
| `WriterGate.OneWriter` | runtime/durable.c:406-422 | At most one thread is past the competition for the gate |
| `WriterGate.RunInv` | runtime/durable.c:406-463 | The account of owners and depths holds in every state of every run |
| `WriterGate.FindKeeps` | runtime/durable.c:432-440 | Finding or claiming a table slot keeps it |
| `WriterGate.UnlockKeeps` | runtime/durable.c:452-463 | Unlocking keeps it, and by a stranger changes nothing |
| `WriterGate.LockTable.Find` | runtime/durable.c:357-383 | The two loops find the path's slot or claim the first unused one |
| `KeyValue.Kv.FindSlot` | runtime/kv.c:59-78 | The probe loop finds the matching slot or a free slot on the way, and the capacity failure cannot happen |
| `KeyValue.Kv.Grow` | runtime/kv.c:79-98 | Doubling keeps the map and the count |
| `KeyValue.Kv.Set` | runtime/kv.c:213-241 | For a key without NUL of at most 255 bytes updates the map at the key itself, for a longer one at its first 255 bytes; in every case the key is found afterwards if and only if that part has no NUL, and the table can be saved and loaded if and only if it is storable |
| `KeyValue.Kv.Incr` | runtime/kv.c:281-308 | Adds to the value stored for the key, or for its first 255 bytes if it is longer, or stores the delta, with the same conditions on keys with NUL as a set |
| `KeyValue.Kv.Get` | runtime/kv.c:242-252 | The value stored for the key, or for its first 255 bytes if it is longer, or 0 |
| `KeyValue.Kv.Has` | runtime/kv.c:253-262 | Whether the map has the key, or its first 255 bytes if it is longer |
| `KeyValue.Kv.Del` | runtime/kv.c:264-279 | Removes the key, or its first 255 bytes if it is longer, from the map and nothing else |
| `KeyValue.Kv.Size` | runtime/kv.c:309-312 | The count is the size of the map |
| `KeyValue.Kv.Add` | runtime/kv.c:225-239 | Writes a new entry, doubling the slots first exactly when one more would pass seven tenths; the table stays loadable exactly when the key is storable |
| `KeyValue.FoundIffNulFree` | runtime/kv.c:66-71 | A key just written is found if and only if it has no NUL byte |
| `KeyValue.NulKeyIsLost` | runtime/kv.c:66-71 | The key "a", NUL, "b" is stored and never found again |
| `KeyValue.AddedClean` | runtime/kv.c:188-194 | A new entry leaves every saved entry valid and distinct if and only if the key has no NUL, or the part before its first NUL is not empty, has the same hash and is not stored yet |
| `KeyValue.LoneNulRefusesFile` | runtime/kv.c:186-191 | After a key that is one NUL byte the saved file is refused, whatever the hash |
| `KeyValue.MapWrite` | runtime/kv.c:213-241 | Writing an entry whose key no other slot holds updates the map at that key |
| `KeyValue.MapErase` | runtime/kv.c:264-279 | A tombstone removes exactly its key from the map |
| `KeyValue.MapSize` | runtime/kv.c:309-312 | With distinct keys the map has as many keys as there are occupied slots |
| `KeyValue.Found` | runtime/kv.c:59-78 | In a clean table a search succeeds exactly on the keys of the map |
| `KeyValue.SavedLoads` | runtime/kv.c:162-203 | What is saved of a table passes every check of the loader if and only if its keys are proper, hash as stored and are distinct |
| `KeyValue.SavedMap` | runtime/kv.c:99-117 | The saved entries denote the same map |
| `KeyValue.Kv.Fill` | runtime/kv.c:99-117 | Writes the occupied slots in order, a loadable file for the same map |
| `KeyValue.Open` | runtime/kv.c:162-203 | Loads exactly the files with a right count, valid entries and no duplicate, and then denotes their map |
| `KeyValue.SaveAndReload` | runtime/kv.c:99-203 | Saving and opening again succeeds and gives a table for the same map |
| `Probing.PutKeeps` | runtime/kv.c:59-78 | Filling a cell that is not past an empty one keeps every entry reachable from its home |
| `Probing.BuryKeeps` | runtime/kv.c:264-279 | A tombstone keeps every other entry reachable |
| `Probing.NotMet` | runtime/kv.c:63-74 | An entry not met before an empty cell, or in a full turn, does not exist |
| `HashIndex.Index.Insert` | runtime/index.c:190-210 | Adds one pair of hash and offset to the multimap, doubling the cells exactly at seven tenths; the insertion-capacity failure cannot happen |
| `HashIndex.Index.Lookup` | runtime/index.c:212-223 | Returns a stored offset for the hash, or -1 exactly when none is stored |
| `HashIndex.Index.Delete` | runtime/index.c:227-244 | Removes exactly the entry lookup would return |
| `HashIndex.Index.Grow` | runtime/index.c:128-178 | Doubling keeps the multiset of entries |
| `HashIndex.Index.Place` | runtime/index.c:196-208 | Writes into the first free cell on the probes |
| `HashIndex.Index.FirstFree` | runtime/index.c:196-208 | The probe loop always finds a free cell |
| `HashIndex.Index.Search` | runtime/index.c:212-222 | The probe loop stops at the first entry with the hash before an empty cell |
| `HashIndex.MatchIffStored` | runtime/index.c:212-223 | Lookup finds an entry exactly when one with the hash is stored, and then a stored one |
| `Versions.KeepsNewest` | runtime/version.c:137-148 | Every row keeps exactly its newest versions, at most keep_n of them |
| `Versions.KeptMeaning` | runtime/version.c:137-153 | What is kept are, in their order, exactly the entries with fewer than keep_n later entries of the same row, counted |
| `Versions.CompactedTwice` | runtime/version.c:124-153 | Compacting again changes nothing |
| `Versions.KeptIsCapped` | runtime/version.c:140-147 | Counting only kept later entries decides the same as counting all later entries |
| `Versions.Mark` | runtime/version.c:137-148 | An entry is marked exactly when fewer than keep_n later ones share its row |
| `Versions.CountKept` | runtime/version.c:141-146 | The inner loop counts the kept later entries of the row |
| `Versions.Compact` | runtime/version.c:113-153 | The rewritten file holds the kept entries in their order |
| `Tarjan.Pass.Run` | src/identity.rs:179-236 | The iterative pass terminates; its components are the maximal mutually reachable sets, each listed once, and no edge leads to a later one |
| `Tarjan.Pass.Open` | src/identity.rs:203-208 | Discovering a node numbers it, pushes it and opens its frame |
| `Tarjan.Pass.Close` | src/identity.rs:220-231 | Pops the component of a root off the stack |
| `Tarjan.DiscoverKeeps` | src/identity.rs:192-208 | Discovering a node keeps the invariant of the search |
| `Tarjan.AdvanceKeeps` | src/identity.rs:198-213 | Passing an edge keeps it |
| `Tarjan.LowerKeeps` | src/identity.rs:209-211 | Lowering a frame keeps it |
| `Tarjan.RetreatKeeps` | src/identity.rs:215-218 | Leaving a node that is no root keeps it and hands its low number to the parent |
| `Tarjan.RootComponent` | src/identity.rs:219-231 | The stack above a root is exactly the set mutually reachable with it |
| `Tarjan.EmitKeeps` | src/identity.rs:219-232 | Emitting that component keeps the invariant |
| `Tarjan.Finished` | src/identity.rs:179-236 | When every node is seen and no frame is left the components are complete |
| `Canon.OrderComplete` | src/identity.rs:130-147 | The breadth-first order lists exactly the component, each node once |
| `Canon.BreadthFirst` | src/identity.rs:130-147 | Every node but the root is listed after a node with an edge to it, and of two listed nodes the earlier one is the one an earlier edge leads to, edges taken by listed node and then in edge order |
| `Canon.LayoutExample` | src/identity.rs:148-176 | The hashed bytes of a component of two nodes, byte for byte: counts, names, and edges tagged 0 with a local number or 1 with a digest |
| `Canon.MaterialInjective` | src/identity.rs:148-176 | Context key and hashed bytes determine the rung and the records |
| `Isomorphism.IsoToRecords` | src/identity.rs:121-177 | Isomorphic rooted components are serialised to equal records |
| `Isomorphism.RecordsToIso` | src/identity.rs:121-177 | Equal records give an isomorphism of the rooted components under which edges out of the component carry the same digest, their own or the one known for their target |
| `Isomorphism.DigestsDecideIsomorphism` | src/identity.rs:121-177 | With no collision on the two inputs, equal digests mean equal rungs and isomorphic rooted components, and conversely |
| `Identity.IdentityGraph.HashAll` | src/identity.rs:85-119 | Rejects an empty target and the first dangling edge; otherwise every node gets its rooted digest and no expect can fail |
| `Identity.IdentityGraph.RootedHash` | src/identity.rs:121-177 | The serialisation loop hashes the canonical records of the root's component |
| `Identity.IdentityGraph.Visit` | src/identity.rs:130-147 | The visiting loop computes the breadth-first order and its inverse |
| `Identity.IdentityGraph.PutEdges` | src/identity.rs:156-174 | Each edge is written as its local number or as a digest already known |
| `Identity.IdentityGraph.FindDangling` | src/identity.rs:89-97 | Finds the first dangling edge in node and edge order |
| `Identity.IdentityGraph.HashComponent` | src/identity.rs:106-114 | All members of a component are hashed before any is recorded |
| `Identity.IdentityGraph.Node` | src/identity.rs:67-71 | Adds a node and returns its number |
| `Identity.IdentityGraph.Edge` | src/identity.rs:73-75 | Adds an edge at the end of the node's list |
| `Digests.EqualDigestsIffIsomorphic` | src/identity.rs:85-177 | Two hashed nodes have equal digests exactly when they were hashed at the same rung and their rooted components are isomorphic |
| `Digests.EqualDigestsAgree` | src/identity.rs:156-176 | Nodes with equal digests have the same label and as many edges, and where the k-th edge of one leaves its component so does that of the other and both carry the same digest |
| `Digests.ReferencesMatter` | src/identity.rs:163-168 | If the k-th edges of two nodes leave their components to nodes of different digests the two nodes have different digests |
| `Digests.NumberingDoesNotMatter` | src/identity.rs:85-177 | Renumbering the nodes of a graph renumbers the digests and changes none |
| `Digests.RenamedScc` | src/identity.rs:179-236 | Components follow a renumbering |

## Left out

- Weak memory orderings: atomics are sequentially consistent, one access per step.
- File descriptors, stdio buffering, `flock`, `realpath`, file identity checks and leftover temporary files: a file is a path with a content.
- A participant is addressed by its path: two separately opened handles on one file, one of them made stale by a rename, are not modelled.
- Torn appends leave a prefix of what was appended; a journal tail with other bytes in it stops recovery with the evidence kept, which is not a run of the model.
- Failing system calls, failed allocations (also of a channel's buffer, which is not checked) and `jinn_persistence_fail`: the run ends there, and a crash may strike at any step anyway.
- The order in which a crash may reorder unsynced data of different files needs no model, since an unsynced file may hold anything.
- In-memory participants (`jinn_txn_track_mem`) and rollback callbacks: they restore memory, not files.
- The snapshot size limit and the 4 GiB limit on undo images in `jinn_txn_track_impl`: fail-stops on configuration.
- Txn.AppendRecKeeps: paths the checks refuse end the run instead of being recorded.
- Journal.RecordReadsBack: FNV-1a is an arbitrary function, so a corrupted record that happens to keep its checksum is not excluded.
- Crc.Update: that one changed byte is always detected is proved; how many more errors are is not.
- Recovery.RecoveredTwice: the row count is taken to fit the header's signed 64-bit word.
- Recovery.Recover: starts on an opened log; the missing-log case and the dropping of index files are not modelled.
- Signed 64-bit wrap-around of channel positions, deque positions, key-value values and counters: they are unbounded here.
- Channel element destructors, reference counts and `wait_chan` bookkeeping.
- Traffic.NoLostWakeup: without select and cancellation, under which a woken waiter may leave its slot unused.
- Parking.PopKeeps: wait queues are sets of nodes there; their order is the subject of Channels and Selecting.
- The worker's search for work, idle sleeping, the inject queue and generators.
- Shuffling of select cases: any order of polling is allowed by the model.
- Actors registered in a scope and the wake-up of a joining parent.
- Cancellation.ListedIsAlive: that callers stop using a scope they have joined is their duty and not modelled.
- WriterGate.Leave calls that match no enter stop the process in the code and are not steps of the model.
- WriterGate.FindKeeps: a path over 255 bytes and a full lock table stop the process in the code and are not steps of the model.
- KeyValue.Open: records are slots, not raw bytes, and the size check is the number of records; the file's magic is not modelled.
- KeyValue.Kv.Grow and HashIndex.Index.Grow: the overflow checks on huge capacities are fail-stops.
- KeyValue.Kv.Set: after a key that is not storable only finding it again and saving are described, not further operations.
- HashIndex.Index.Lookup: a stored offset of -1 cannot be told from an absent one; record offsets are not negative.
- Opening an index file written by someone else, whose count may be wrong.
- blake3 is an arbitrary function; equality of digests assumes no collision on the two inputs compared.
- Bloom filters, column files, vectors, full-text search, migration, capabilities, manifests and the parsers: sound but easier.
