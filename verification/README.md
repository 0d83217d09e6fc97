# Verified model of a Solana transaction sender

The service accepts signed transactions over JSON-RPC, sends each one to the next
slot leaders, keeps it in a shared map from signature to record, and resends
everything in that map every few seconds until a confirmation arrives, a retry limit
is reached or load is shed. This project models that behaviour in Dafny and proves
what it keeps.

`dafny verify dfyconfig.toml` checks everything.

## How the model is organised

| file | what it holds |
|---|---|
| `Transactions.dfy` | records, the retry clamp, the transaction store |
| `RetryQueue.dfy` | load shedding and push-and-count passes on values |
| `Sends.dfy` | one wire, or several, to all scanned leaders that have an address |
| `TxnSender.dfy` | the sender: tracking, sending, one turn of the retry loop, bundles |
| `Retransmission.dfy` | the whole service as one interleaved state machine |
| `RetransmissionProofs.dfy`, `RetransmissionTheorems.dfy` | its invariant and what follows over every run |
| `RetransmissionProgress.dfy` | the loop's own next step and the rank it lowers |
| `RetransmissionTurns.dfy` | undisturbed turns of the loop refine the value-level passes, and can always be completed |
| `RetransmissionWires.dfy`, `RetransmissionSends.dfy` | which wires were pushed, what was sent to whom, and how often each send was tried |
| `RetransmissionStays.dfy`, `RetransmissionDrops.dfy` | exactly when a stored stay can be lost to another call, and to the loop on account of an earlier stay |
| `ConfirmDeadlines.dfy` | the confirm tasks joined to the waiting loop on a clock |
| `RetransmissionScenarios.dfy` | runs in which expectations fail, and exactly when a snapshot can kill the loop |
| `LeaderScan.dfy`, `LeaderTracker.dfy`, `LeaderRuns.dfy` | leader scan, tracker class, tracker under interleaving |
| `Geyser.dfy` | blockhash window, signature cache with a clock, message handlers |
| `SlotFeed.dfy` | the slot stream from geyser updates to the tracker's counter |
| `RpcSubmission.dfy`, `Bundles.dfy`, `Requests.dfy` | submission through the RPC node, bundle admission, duplicate gate, request handlers |
| `MetricBins.dfy` | the metric tag of a counter |
| `MachineWords.dfy`, `Sums.dfy`, `Traces.dfy`, `Wrappers.dfy` | 64-bit arithmetic, sums and counting, runs, options |

In the state machine a request handler takes six separate steps (arrival, duplicate
gate, membership test, insert, spawn of the confirm task, direct send), the retry loop
takes each removal, visit and send as its own step, and confirm tasks end at any moment. Removal is by signature, so it may hit a later stay of that signature
than the one meant; a call inserts at most once, so its number names the stay it
creates. The map is traversed in any order, each key at most once, and a traversal
ends only after every entry stored since its start was visited.

Machine arithmetic is that of a release build: 64-bit additions, subtractions and
multiplications wrap.

## Where the code does something else than one would expect

- The shed tail starts at index `max_size + 1`, so an oversized queue keeps one entry
  more than its configured limit, and the dropped-records gauge reports one drop more
  than happens (`ShedMissesLimitByOne`, `VictimsShed`).
- The queue length and the snapshot are read separately. If entries leave in between,
  the slice can be out of range, and the retry loop is gone for good
  (`ConfirmBeforeSnapshotKills`). A snapshot can do that exactly as long as it has not
  got past the limit (`SnapshotCanKill`); undisturbed it never does
  (`UndisturbedLoopLives`).
- A confirm task may evict a later stay of its signature, which then is never resent
  (`StaleConfirmEvictsLaterStay`). A stored stay can be evicted so exactly while another
  call of its signature is past the duplicate gate and not about to insert, or has its
  confirm task running (`LostIffRivalled`).
- The store tests and inserts in two steps, so racing requests with one signature can
  overwrite each other (`RacingAddsOverwrite`). A stored stay can be overwritten exactly
  while another call of its signature is about to insert (`LostIffRivalled`).
- The loop, too, removes by signature. A transaction listed as exhausted or as shed, or
  merely observed for shedding, then confirmed and resubmitted, can be dropped although
  the loop never looked at the new stay, which then was never pushed
  (`StaleListingDropsLaterStay`, `StaleRowShedsLaterStay`, `NewStayDroppedUnpushed`).
  That can happen to a stay exactly while its signature is listed, or while a snapshot is
  under way that has read a row of the signature which was retried already or which more
  than `max_size` rows never retried precede (`DroppedIffDoomed`).
- With a negative leader offset a slot sampled too early underflows (exactly when:
  `StartSlotIsWrappedSum`, and over runs `CounterIsMaxOfSums`), and since the slot counter
  only grows it then sticks. As long as no leader reply reaches the underflowed start
  slot, no leader is found and nothing is sent any more (`EarlySlotUnderflows`,
  `UnderflowSticks`, `UnderflowSilences`).
- A transaction with `max_retries = m` is pushed by the loop up to `m + 1` times.
- On success the RPC helper returns the encoded bytes of the transaction, so these fill
  the `signatures` list of a bundle response (`SignaturesAreEncodings`); no entry is ever
  the signature of its transaction (`SignaturesAreNeverListed`).

## Model

| member | source | states |
|---|---|---|
| `RetransmissionTheorems.RetransmissionLedger` | src/infrastructure/txn_sender.rs:149-206 | in every reachable state, mid-pass and with stale removals and racing adds, pushes made + pushes owed to stored entries + pushes forfeited = the sum of (max_retries + 1) over all insertions, and wires sent + wires pending = pushes made |
| `RetransmissionTheorems.PushesWithinBudget` | src/infrastructure/txn_sender.rs:150-158 | no residency is ever pushed more than max_retries + 1 times, and calls that inserted nothing are never pushed |
| `RetransmissionTheorems.CountsArePushes` | src/infrastructure/txn_sender.rs:150-158 | a stored retry count never passes its maximum or the server's cap and equals the pushes of that very residency, less the last one once it is listed as exhausted |
| `RetransmissionTheorems.LedgerIsTight` | src/infrastructure/txn_sender.rs:149-206 | the whole budget is made or still owed exactly in the runs where no entry was shed, confirmed, overwritten or removed by a stale confirm before being exhausted |
| `RetransmissionTheorems.WholeRunSendBound` | src/infrastructure/txn_sender.rs:159-200 | over any run with A calls let through to the sender, at most 10 * num_leaders * A * (cap + 2) connection sends are attempted |
| `RetransmissionTheorems.SendsAreExact` | src/infrastructure/txn_sender.rs:342-382 | if every scan finds its full number of leaders, all with an address, each direct send and each pushed wire spawns exactly one send per leader |
| `RetransmissionSends.TasksAreSends` | src/infrastructure/txn_sender.rs:159-201 | in every reachable state, whatever the scans found, the send tasks are, one block per direct send or pushed wire, that very wire to every scanned leader with an address, in order |
| `RetransmissionSends.AttemptsAsReplied` | src/infrastructure/txn_sender.rs:172-197 | in every run, counting attempt events only: a task has made as many attempts as it had replies, none follows a delivery, and it is done iff one was delivered or ten were made |
| `RetransmissionSends.RefusedToTheEnd` | src/infrastructure/txn_sender.rs:352-379 | an unfinished task can always go on to a tenth refused attempt, and is done then |
| `RetransmissionSends.SendLoopEndsTask` | src/infrastructure/txn_sender.rs:172-197 | what the sending loop promises is a finished task of this kind |
| `RetransmissionTheorems.NoLeakedEntries` | src/infrastructure/txn_sender.rs:212-238 | in every reachable state each entry sits under its own signature and the call that inserted it has its confirm task running or is about to spawn it |
| `RetransmissionTheorems.QuiescentIsEmpty` | src/infrastructure/txn_sender.rs:235-238 | once all calls and all confirm tasks are done the store is empty |
| `RetransmissionTheorems.BoundedStay` | src/infrastructure/txn_sender.rs:120-208 | even if no confirmation ever arrives, whenever the loop is idle the passes begun since an entry was stored are at most its count, so at most its max_retries, and the count is at most one ahead |
| `RetransmissionTheorems.NeverUnwrapsNone` | src/infrastructure/txn_sender.rs:152-154 | the unwrap of an exhausted entry's signature never fails in any run |
| `RetransmissionTheorems.OnlyShortSnapshotsKill` | src/infrastructure/txn_sender.rs:139 | the loop dies only on slicing a snapshot no longer than the limit, and then stays dead |
| `RetransmissionTheorems.DuplicateIsInert` | src/application/transaction.rs:71-74 | a request whose signature is stored changes no entry, confirm task or send and is not counted as reaching the sender |
| `RetransmissionTheorems.DuplicateNeverActs` | src/application/transaction.rs:71-74 | in no later run does an answered duplicate take a step or is anything recorded for it |
| `RetransmissionTheorems.InvariantHolds` | src/infrastructure/txn_sender.rs:112-267 | the inductive invariant of the interleaved system, over every run |
| `RetransmissionScenarios.Track` | src/infrastructure/txn_sender.rs:212-238 | from any reachable state any request with an unstored signature, whatever its wire bytes and requested retries, can be carried through to exactly one new entry and one running confirm task |
| `RetransmissionScenarios.SendFollows` | src/infrastructure/txn_sender.rs:336-383 | a tracked call can go on to send whatever its scan reads, one task per scanned leader with an address, and is finished then |
| `RetransmissionScenarios.ConfirmBeforeSnapshotKills` | src/infrastructure/txn_sender.rs:123-139 | a run in which a confirmation between the length check and the snapshot kills the retry loop |
| `RetransmissionScenarios.CutSurvives` | src/infrastructure/txn_sender.rs:134-139 | the cut succeeds whenever more than the limit of the entries counted by the length check are still stored |
| `RetransmissionScenarios.CutSurvivesIfNoneLeft` | src/infrastructure/txn_sender.rs:123-139 | if no entry present at the length check leaves before the snapshot is cut, whatever is added meanwhile, the loop survives |
| `RetransmissionScenarios.SnapshotCanKill` | src/infrastructure/txn_sender.rs:123-139 | in every reachable state with a snapshot under way, some continuation dies of this snapshot iff it has at most max_size rows so far |
| `RetransmissionScenarios.StaleConfirmEvictsLaterStay` | src/infrastructure/txn_sender.rs:235-238 | a run in which the first confirm task of a resubmitted signature removes its second stay, unpushed and still guarded |
| `RetransmissionScenarios.StaleListingDropsLaterStay` | src/infrastructure/txn_sender.rs:149-206 | a run in which an entry listed as exhausted is confirmed and resubmitted, and the loop then drops the new stay, never pushed |
| `RetransmissionScenarios.StaleRowShedsLaterStay` | src/infrastructure/txn_sender.rs:134-143 | a run in which an entry is observed for shedding, confirmed and resubmitted before the cut, and the loop then sheds the new stay, never pushed |
| `RetransmissionScenarios.RacingAddsOverwrite` | src/storage/transaction_store.rs:53-56 | a run in which two racing adds of one signature both insert and the second overwrites the first |
| `RetransmissionStays.LostIffRivalled` | src/infrastructure/txn_sender.rs:212-238 | in every reachable state, over all continuations: a stored stay can be evicted by another call's confirm task iff another call of its signature is about to test or to spawn or has its confirm task running, and overwritten iff another such call is about to insert |
| `RetransmissionDrops.DroppedIffDoomed` | src/infrastructure/txn_sender.rs:134-206 | over all continuations, the loop can remove a stay without observing or visiting it first iff its signature is listed as exhausted or shed, or a snapshot under way has read a row of it that was retried already or that more than max_size rows never retried precede |
| `RetransmissionDrops.NewStayDroppedUnpushed` | src/infrastructure/txn_sender.rs:134-206 | a new stay that the loop removes without ever having observed or visited it, on whichever of these accounts, was never pushed |
| `RetransmissionDrops.MistakenStaysAreUnpushed` | src/infrastructure/txn_sender.rs:149-206 | in every reachable state a stay listed as exhausted without having been visited as such has never been pushed |
| `RetransmissionDrops.HowStaysEnd` | src/storage/transaction_store.rs:50-77 | every step that ends a stay is its own confirm task's, a rival call's, or a removal the loop was bound to |
| `RetransmissionWires.SentWiresArePushes` | src/infrastructure/txn_sender.rs:149-201 | in every reachable state the wires sent by the loop and those waiting to be are, as a multiset, each call's own wire as often as its residency was pushed |
| `ConfirmDeadlines.EntryLeavesInTime` | src/infrastructure/txn_sender.rs:235-238 | on any clock, while an entry is stored its own confirm task is about to be spawned or was spawned at most 60 s and one wake-up ago, if that task ends when its wait does |
| `ConfirmDeadlines.WaitForSignature` | src/infrastructure/grpc_geyser.rs:323-339 | the waiting loop returns at its first look that finds the signature or is past the deadline, at most one wake-up after 60 s |
| `RetransmissionTurns.UndisturbedTurn` | src/infrastructure/txn_sender.rs:120-207 | from any reachable idle state, however the loop's own steps are ordered, one turn without other actors sheds and then leaves exactly one push-and-count pass, and hands over the kept entries' wires, each once, in some order of the keys |
| `RetransmissionTurns.UndisturbedLoopLives` | src/infrastructure/txn_sender.rs:123-139 | without other actors the loop never dies, over any number of turns |
| `RetransmissionTurns.UndisturbedTurns` | src/infrastructure/txn_sender.rs:120-206 | for every configuration, after k more undisturbed passes of the running system the queue is the k-fold pass of what the first shedding left, nothing is shed later, and the wires sent in between plus the pushes still owed are the pushes owed to what was kept |
| `RetransmissionTurns.UndisturbedQueueDrains` | src/infrastructure/txn_sender.rs:120-206 | such a system's store is empty after k passes iff no entry that the first shedding kept was owed more than k pushes |
| `RetransmissionTurns.TurnsComplete` | src/infrastructure/txn_sender.rs:120-208 | from every reachable idle state the loop alone can complete any number of turns |
| `RetryQueue.SortRowsCorrect` | src/infrastructure/txn_sender.rs:138 | the sort yields an ordered permutation that keeps rows of equal retry count in their order |
| `RetryQueue.VictimsShed` | src/infrastructure/txn_sender.rs:134-145 | for every iteration order, removing the victims leaves exactly max_size + 1 entries, none retried more often than a dropped one, and drops one fewer than the gauge says |
| `RetryQueue.ShedKeepsLeastRetried` | src/infrastructure/txn_sender.rs:126-147 | the kept entries carry the least total retry count of any subset of the queue of that size |
| `RetryQueue.ShedMissesLimitByOne` | src/infrastructure/txn_sender.rs:128-139 | after shedding the queue meets its limit iff it met it before, and exceeds it by at most one |
| `RetryQueue.PassesClosedForm` | src/infrastructure/txn_sender.rs:150-206 | after k undisturbed passes an entry (r, m) is left iff r + k <= m (or k = 0), with count r + k, having been pushed min(k, owed) times, where owed is m - r + 1 for r <= m |
| `RetryQueue.QueueDrains` | src/infrastructure/txn_sender.rs:150-206 | the queue is empty after k passes iff no entry is owed more than k pushes |
| `RetryQueue.PassSpendsOnePushEach` | src/infrastructure/txn_sender.rs:150-158 | a pass lowers the total of owed pushes by exactly the queue length |
| `TxnSenders.TxnSender.RetryPass` | src/infrastructure/txn_sender.rs:120-206 | one whole turn on the shared map: the queue after shedding meets the shed contract, then becomes its push-and-count pass, and block k of the new sends is the k-th kept wire to every scanned leader with an address |
| `Sends.SendsOfReachAll` | src/infrastructure/txn_sender.rs:343-351 | the sends of a wire are in bijection, in order, with the scanned leaders that have an address, each with this wire |
| `Sends.SendsOfAllReachAll` | src/infrastructure/txn_sender.rs:159-201 | the same for a turn, block by block, wire k to the leaders of scan k |
| `TxnSenders.TxnSender.Shed` | src/infrastructure/txn_sender.rs:126-147 | in-place shedding through snapshot, sort and double removal meets the shed contract |
| `TxnSenders.TxnSender.CountUp` | src/infrastructure/txn_sender.rs:149-158 | the iteration pushes each entry's wire once, lists exactly the exhausted ones and counts the others up |
| `TxnSenders.TxnSender.TrackTransaction` | src/infrastructure/txn_sender.rs:212-238 | stores the record under its first signature unless stored already and starts one confirm task in either case; an unsigned one is ignored |
| `TxnSenders.TxnSender.SendTransaction` | src/infrastructure/txn_sender.rs:336-383 | tracks, then sends the wire once to every scanned leader with a QUIC address and to no other, in order |
| `TxnSenders.TxnSender.EndConfirmation` | src/infrastructure/txn_sender.rs:235-247 | removes by signature and tags the removed record's counters, both "none" iff nothing was stored |
| `TxnSenders.SendWithRetries` | src/infrastructure/txn_sender.rs:172-197 | one send makes at most ten attempts and stops right after the first delivery, timeouts being retried too |
| `TxnSenders.SendsAreBounded` | src/infrastructure/txn_sender.rs:159-200 | with the leaders scanned anew for every wire, a turn spawns at most num_leaders sends per pushed wire |
| `TxnSenders.TxnSender.SendTransactionBundle` | src/infrastructure/txn_sender.rs:385-438 | the two lists are, each in order, the RPC answers of the transactions that landed and the complaints about the others, naming an expired blockhash or else the signature; their lengths add up to the bundle, and exactly the admitted transactions are submitted in order |
| `Bundles.SplitIsListed` | src/infrastructure/txn_sender.rs:391-437 | the same of the split on values, whatever the caches and the RPC node did |
| `Bundles.SplitWeavesBack` | src/infrastructure/txn_sender.rs:391-437 | the two lists are an order-preserving split: dealing them back out by outcome kind restores the outcomes |
| `Bundles.SubmittedInOrder` | src/infrastructure/txn_sender.rs:395-413 | the i-th transaction is submitted iff its blockhash is cached at its check, right after the admitted ones before it |
| `Bundles.AdmissionByHistory` | src/infrastructure/txn_sender.rs:396-413 | over any block histories a bundle transaction is submitted iff its blockhash was last inserted at some slot for which every block since was fresh |
| `Bundles.SignaturesAreEncodings` | src/infrastructure/txn_sender.rs:418-428 | the i-th entry of the signatures list is the encoding of the serialised bytes of the i-th transaction that was admitted and confirmed |
| `Bundles.SignaturesAreNeverListed` | src/infrastructure/txn_sender.rs:418-428 | with base58 or base64 encoding no entry is the signature of the transaction it stands for, so the list holds the signatures of the landed transactions iff nothing landed |
| `RpcSubmission.SendAndEncode` | src/vendor/solana_rpc.rs:45-144 | succeeds iff the transaction serialises and the first accepted of at most four sends has its confirmation as its first news in time, and then returns the encoded bytes; at most four sends are made, each after a refused one |
| `TransactionStores.TransactionStore.AddTransaction` | src/storage/transaction_store.rs:50-61 | adds under the record's own signature unless stored already, ignores an unsigned record, and keeps every key equal to its record's signature |
| `TransactionStores.TransactionStore.RemoveTransaction` | src/storage/transaction_store.rs:72-77 | removes one key and returns what was there |
| `TransactionStores.TransactionStore.GetSignatures` | src/storage/transaction_store.rs:62-71 | the unwrap never fails and the result lists the key set, each key once |
| `TransactionStores.InsertionsBalanceRemovals` | src/storage/transaction_store.rs:47-77 | over any history of atomic operations, insertions minus effective removals of a signature is 1 while it is stored and 0 otherwise, and keys agree with records |
| `LeaderScan.ScanRefines` | src/infrastructure/leader_tracker.rs:152-167 | the scan's keys are the first n distinct leaders of the whole window in order of first occurrence, early exit changing nothing, and each value is the last contact read before the scan stopped |
| `LeaderScan.DistinctOrder` | src/infrastructure/leader_tracker.rs:152-161 | the reference list is ordered by first occurrence |
| `LeaderScan.WindowCoversGroups` | src/infrastructure/leader_tracker.rs:150-161 | for any start slot, aligned or not, a fully read window whose next n groups of four slots have different leaders yields exactly those n leaders in group order |
| `LeaderTrackers.FullCacheGivesGroups` | src/infrastructure/leader_tracker.rs:149-168 | the same for the cache and the window get_leaders really scans, as long as the window does not wrap |
| `LeaderTrackers.LeaderTracker.GetLeaders` | src/infrastructure/leader_tracker.rs:149-168 | the loop with early exit refines the pure scan of the window and returns at most num_leaders contacts |
| `LeaderTrackers.WindowSizeExact` | src/infrastructure/leader_tracker.rs:150-153 | the scanned window never exceeds 4 * num_leaders slots and has that size iff its end is a 64-bit slot |
| `LeaderTrackers.StartSlotIsWrappedSum` | src/infrastructure/leader_tracker.rs:138-146 | for every slot and offset the start slot is slot + 4 * offset modulo 2^64, and the sum itself iff that is a 64-bit slot |
| `LeaderTrackers.EarlySlotUnderflows` | src/infrastructure/leader_tracker.rs:141-145 | with offset -1 slot 1 starts at 2^64 - 3, and the start slot stays at or behind the sampled slot iff that is at least 4 |
| `LeaderTrackers.LeaderTracker.PollSlot` | src/infrastructure/leader_tracker.rs:64-71 | raises the slot counter to the start slot of a sample if that is larger, and never lowers it |
| `LeaderTrackers.LeaderTracker.PollSlotLeadersOnce` | src/infrastructure/leader_tracker.rs:93-122 | a failed RPC call changes nothing; otherwise a replied slot whose leader is listed among the cluster nodes holds the last such node, other slots keep what they held, and passed slots are dropped |
| `LeaderTrackers.NodeMapMeaning` | src/infrastructure/leader_tracker.rs:107-110 | a public key is in the node map iff some listed node has it, and stands for the last such node |
| `LeaderTrackers.PollOutcome` | src/infrastructure/leader_tracker.rs:107-135 | after a poll a slot below the clean-up slot is absent, a replied slot holds its leader's contact where known, and any other keeps what it held |
| `LeaderTrackers.LeaderTracker.CleanUpSlotLeaders` | src/infrastructure/leader_tracker.rs:124-135 | removes exactly the slots below the current one |
| `LeaderRuns.SlotIsRunningMaximum` | src/infrastructure/leader_tracker.rs:63-72 | whatever order slots arrive in, the counter is the maximum of 0 and all sampled start slots |
| `LeaderRuns.SlotNeverDecreases` | src/infrastructure/leader_tracker.rs:67-70 | the counter never decreases along a run |
| `LeaderRuns.UnderflowSticks` | src/infrastructure/leader_tracker.rs:67-70 | once a slot below the reach of a negative offset was sampled, no later slot that does not underflow moves the counter again |
| `LeaderRuns.CounterIsMaxOfSums` | src/infrastructure/leader_tracker.rs:63-72 | over every run and for every offset, the counter is the maximum of 0 and all sampled slots plus 4 * offset iff no such sum wrapped to anything but 0 |
| `LeaderRuns.UnderflowSilences` | src/infrastructure/leader_tracker.rs:149-167 | from then on, in every later run and whenever the window is read, get_leaders finds nobody and a send spawns no task, as long as no reply reaches the underflowed start slot |
| `LeaderRuns.CacheStaysInWindow` | src/infrastructure/leader_tracker.rs:93-135 | in every interleaving, between polls all cached slots lie in [slot read at clean-up, slot asked from + 1000), so at most 1000 are cached, and at most 2000 during a poll |
| `LeaderRuns.PollLeavesReplies` | src/infrastructure/leader_tracker.rs:93-135 | however slot updates fall into it, an answered poll leaves at every slot what the two replies say, and a failed one leaves the cache alone |
| `LeaderRuns.PollCanComplete` | src/infrastructure/leader_tracker.rs:93-135 | from every reachable state between polls a poll can be begun, answered with any leaders of existing slots and any nodes, and completed |
| `LeaderRuns.CacheAgreesWithSchedule` | src/infrastructure/leader_tracker.rs:107-118 | if all replies agree with one schedule, every cached slot names its scheduled leader in every reachable state |
| `LeaderRuns.LeadersFollowSchedule` | src/infrastructure/leader_tracker.rs:149-168 | readings taken at any moments of such runs yield scheduled leaders of the window in the order they first appear |
| `BlockhashWindow.WindowExact` | src/infrastructure/grpc_geyser.rs:166-172 | over every history, out-of-order slots included, a hash is cached at a slot iff its last insertion carried that slot and every block handled since was fresh for it |
| `BlockhashWindow.FreshMeans` | src/infrastructure/grpc_geyser.rs:171 | under wrapping subtraction fresh means slot <= current <= slot + 150, or the same across the wrap-around |
| `BlockhashWindow.WindowInOrder` | src/infrastructure/grpc_geyser.rs:166-172 | for non-decreasing slots the cache after a block is the set of hashes last inserted within 150 slots of it |
| `BlockhashWindow.AtMost151` | src/infrastructure/grpc_geyser.rs:169-171 | right after any block at most 151 hashes are cached if no two share a slot |
| `SignatureCache.CachedExactly` | src/infrastructure/grpc_geyser.rs:87-96 | a sighting is cached iff it is the signature's last delivery and every later cleaner run came less than 90 s after it |
| `SignatureCache.ConfirmTransaction` | src/infrastructure/grpc_geyser.rs:323-339 | the polling loop gives up only at its deadline after missing at every look, in which case no block with the signature was delivered from under 90 s before its first look up to its last; otherwise it returns the cached block time of its last look |
| `SignatureCache.GivingUpIsJustified` | src/infrastructure/grpc_geyser.rs:327-338 | completeness of giving up, for any cleaner interleaving |
| `SignatureCache.ConfirmationIsGenuine` | src/infrastructure/grpc_geyser.rs:328-334 | a returned block time was delivered with that signature less than 90 s plus the largest cleaner gap ago |
| `SignatureCache.LooksAreBounded` | src/infrastructure/grpc_geyser.rs:327-336 | polls at least 10 ms apart make at most 6000 looks |
| `GeyserClient.GrpcGeyser.HandleBlock` | src/infrastructure/grpc_geyser.rs:154-185 | a block with a bad hash changes nothing; otherwise its hash is cached at its slot, another hash stays iff it was there and is at most 150 slots behind modulo 2^64, each signature parsed from it is cached with the block's time, 0 if missing, and the clock reading of its last occurrence, and every other signature keeps what it had |
| `GeyserClient.GrpcGeyser.CleanSignatureCache` | src/infrastructure/grpc_geyser.rs:91-92 | one cleaner run drops exactly the sightings of 90 whole seconds or more |
| `GeyserClient.GrpcGeyser.InitializeBlockhashCache` | src/infrastructure/grpc_geyser.rs:301-318 | seeds the hash cache iff both RPC replies succeed and otherwise leaves it alone |
| `SlotFeed.CounterIsMaximumSeen` | src/infrastructure/grpc_geyser.rs:270-272 | for any interleaving of slot updates and polls the tracker's counter is the maximum of 0 and the start slots of exactly the updates some poll saw before the next one |
| `SlotFeed.Feed` | src/infrastructure/leader_tracker.rs:64-71 | the geyser client and the tracker, driven by any interleaving of updates and polls, hold the last stored slot and that counter |
| `SlotFeed.OverwrittenLeavesNoTrace` | src/infrastructure/grpc_geyser.rs:270-272 | an update overwritten before any poll changes neither the stored slot nor the counter, then or later |
| `SlotFeed.BackwardUpdate` | src/infrastructure/grpc_geyser.rs:270-272 | a backward update is what is reported next, but leaves the tracker's counter alone once a later slot was seen, if neither start slot wraps |
| `GeyserClient.GrpcGeyser.GetNextSlot` | src/infrastructure/grpc_geyser.rs:340-346 | reports nothing iff the stored slot is 0 |
| `Requests.AtlasTransactionApp.SendTransaction` | src/application/transaction.rs:59-78 | a stored signature is answered without touching store, confirm tasks or sends; any other is stored, confirmed, and sent once to every scanned leader with an address |
| `Requests.AtlasTransactionApp.SendTransactionBundle` | src/application/transaction.rs:80-114 | hands the bundle on and returns its two lists unchanged |
| `Requests.CreatedAsPromised` | src/server/rpc_server.rs:58-88 | a record is made iff its text decodes, with retry count 0 and max_retries the smaller of the cap and the requested value, or the cap |
| `Requests.AtlasTxnSender.SendTransaction` | src/server/rpc_server.rs:97-119 | succeeds iff the request is accepted and the text decodes, and then answers the decoded transaction's first signature; if that was stored nothing changes, otherwise exactly the clamped record is stored, its confirm task started and its decoded wire sent once to every scanned leader with an address; on failure nothing changes and the error says why |
| `Requests.EncodingAccepted` | src/server/rpc_server.rs:103-109 | a request is accepted iff preflight is skipped and the encoding is missing, base58 or binary, meaning base58, or base64; otherwise the error is the preflight error first, then the unsupported encoding |
| `Requests.AtlasTxnSender.DecodeBundle` | src/server/rpc_server.rs:137-148 | succeeds iff every string decodes, with one record per string in order; otherwise reports the first that does not |
| `Requests.AtlasTxnSender.SendTransactionBundle` | src/server/rpc_server.rs:121-156 | decode all or send nothing: on any error no transaction is submitted, otherwise exactly the admitted ones of the decoded records; the error is the refusal or names the first text that does not decode |
| `Transactions.NewTransaction` | src/server/rpc_server.rs:75-85 | the record's retry count is 0 and its maximum is within the cap, the requested value if that is smaller |
| `MetricBins.BinCounterToTag` | src/infrastructure/txn_sender.rs:441-459 | for increasing bins the tag names the neighbouring edges with lo <= counter < hi, and "none" stands for no counter |
| `MetricBins.TagTextTellsBins` | src/infrastructure/txn_sender.rs:458 | the printed tag determines both edges |
| `MetricBins.TagReadsBack` | src/infrastructure/txn_sender.rs:458 | what stands before the first bar of a tag reads back as the lower edge, what follows as the upper |
| `MetricBins.TagsPartition` | src/infrastructure/txn_sender.rs:447-458 | two counters get the same tag iff they fall between the same bins, and never the tag of a missing counter |

## Left out

- The gRPC connection, subscription, ping and reconnect code, the JSON-RPC server, QUIC connections and runtimes: messages are inputs of the model and sends are recorded.
- Metrics and logging, except the tag of a counter; `sent_at` and request metadata, which only feed metrics.
- `compute_priority_details`: feeds only metrics; it is assumed not to panic between the insert and the spawn of the confirm task.
- Decoding, serialising and the RPC node: an arbitrary partial function, an arbitrary partial function and an arbitrary answer per send and status query. The serialiser fails beyond the packet size, so the size test after it never decides. Of the two encodings the model takes their lengths and that base58 tells byte sequences apart.
- Transactions without signatures in bundles, where the code would panic; for single requests the panic is a step of the state machine.
- DashMap internals: per-key operations are atomic and a traversal visits each key at most once in any order.
- The truncation of counters to 32 bits before they are tagged.
- Leader replies longer than requested or reaching past the last 64-bit slot: an RPC reply is taken to name existing slots.
- Overflow panics of debug builds: the model wraps as a release build does.
- SignatureCache.ConfirmTransaction: works on a timeline value rather than on the cache field, because the cache changes under it while it sleeps; each wake-up test and look are one moment.
- GeyserClient.GrpcGeyser.HandleBlock: other readers of the caches between the insertions of one block are not modelled.
- TxnSenders.TxnSender.RetryPass: the tracker does not change during this method, so its scans all find the same leaders; `SendsAreBounded` and the state machine scan anew for every wire.
- LeaderTrackers.LeaderTracker.GetLeaders: reads the cache at one moment; `LeadersFollowSchedule` and `ScanRefines` cover readings taken at different moments.
