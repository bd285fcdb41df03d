# Verified model of the remote-memory block device

The repository is a Linux block device whose storage is another machine's memory, reached by RDMA. Its
driver turns a queue of block requests into work requests (WRs), optionally merged and chained, posts
them, and decides from completions when each block request may be ended. A user-space server lends the
memory. This project models the driver's request paths in all three of its modes, its completion
handlers, its record pools and the client/server connection, and proves what they have to guarantee.

`dafny verify dfyconfig.toml` checks everything.

## How it is organised

| file | content |
|---|---|
| `Transfers.dfy` | what a WR means: a block copy between two memories, equal to an ordered list of byte moves; merging; relocation |
| `BlockLayer.dfy` | requests, bios, segments; how the driver reads them and when that reading is right |
| `Batching.dfy` | coalescing and cutting a stream into batches, for each mode |
| `RingPool.dfy` | the ring pools, as a class over an array and two indices |
| `Verbs.dfy` | WR slots, the `next` list the adapter follows, the preset fields |
| `SyncDevice.dfy` | `rmem_request_sync`, `simple_make_wr`, `merge_wr`, `poll_cq`, as a class |
| `AsyncDrain.dfy` | one drain of the deferred mode: entries, batch records, `next` chains |
| `AsyncProtocol.dfy` | any number of drains, the adapter and the completion handler, interleaved |
| `AsyncProgress.dfy` | every run of that protocol can be completed without taking on new work |
| `AsyncBuild.dfy` | what one drain does while it builds, as acts that can be replayed |
| `AsyncDevice.dfy` | `rmem_request_async`, as a class; its ghost state records the acts |
| `AsyncRefinement.dfy` | the code of `rmem_request_async` is a run of the protocol |
| `OneProtocol.dfy` | the one-at-a-time mode, interleaved with the handler's non-atomic test |
| `OneProgress.dfy` | its unchecked guards hold, and every run of it can be completed |
| `OneDevice.dfy` | `rmem_request_one`, as a class that runs against any schedule of the handler and of other submitters |
| `Region.dfy` | address arithmetic up to the server's buffer; the three modes compared |
| `Disk.dfy` | the device as a disk: what a drain does to memories, told without WRs; a read returns what was written |
| `BootstrapText.dfy` | the text of the handshake |
| `Session.dfy` | handshake, queue-pair states, teardown, over any number of sessions |
| `SessionProgress.dfy` | every session can be torn down and followed by another |

`MAX_REQ`, the pool size, the completion-queue size, `MERGE_REQ` and `SIMPLE_POLL` are parameters;
conf.h selects `MODE_SYNC`, 1024 and no merging. 32-bit lengths and 64-bit addresses and counters wrap
explicitly (`% U32`, `% U64`).

## What is taken for granted

Each of these is a precondition or a step guard in the model.

- Every filesystem request has at least one segment (rmem.c:199-203 and rmem.c:456 rely on it).
- For the results that compare with segment-by-segment execution: all segments of a bio have the same
  length, a multiple of 512. `ExactReadingIff` and `RoundedReadingIff` show that this is exactly what
  the code needs.
- A sync drain fetches at most `MAX_REQ` filesystem requests (rmem.c:255 has no bound check); an async
  drain builds fewer than `MAX_REQ` WRs (rmem.c:193).
- A record is taken from the pool only when the pool can supply one (rmem.c:152-154, rmem.c:396-397).
- Where merging is on, the bytes of one drain (MODE_ONE, which always merges: of one request) fit in 32
  bits; `MergeKeepsMovesIff` shows that a merge is right exactly when its own length does. With merging
  off no result bounds the bytes.
- The block layer hands out each request once; other submitters leave a drain its requests and its records.
- The DMA address of a buffer depends only on the buffer; `Segment.addr` is that address.
- Verbs calls succeed, and completions arrive once per WR, in posting order (section 10.8.3.3 of the
  InfiniBand Architecture Specification, Volume 1).
- In the session results, unread handshake text is followed in the receive buffer by nothing or by a byte
  that is not a hex digit. `ScanWithLeftovers` and `BootstrapRoundTripIff` say what happens otherwise.
- One client at a time is connected. The server's second `accept` (server/server.c:444) would take anyone.
- `npages` is not negative, `PAGE_SIZE` is 4096.
- When the queue has been cleaned up, the client posts nothing more.

## Findings

- The driver reads `bio_cur_bytes(bio)` for every segment of a bio, so a bio whose segments differ in
  length, or whose length is not whole sectors, is transferred wrongly. `ExactReadingIff` and
  `RoundedReadingIff` give the precise condition for each mode, `UnequalSegmentsAreMisread` and
  `PartialSectorIsDropped` a bio that fails.
- The merged length is a 32-bit field. `MergeKeepsMovesIff` gives the precise condition,
  `OverflowingMergeLosesEverything` two transfers whose merge carries no byte.
- The server's size limit goes through `int` and then `unsigned long long`, so an argument of minus one
  gigabyte or less turns into a huge limit. What C promises about the rest of the server's tests then does
  not protect the buffer, and above minus one it does (`CheckProtectsBufferIff`). Where the conversion to
  unsigned wraps, the null test catches it (`WrappingConversionProtects`).
- The limit is exact if and only if the buffer is no larger than that of the argument's whole part (`CheckIsExactIff`);
  `AcceptIsConservative` is a region that fits and is refused.
- The client moves to ready-to-send and may post while the server's queue pair is still in the Init
  state (`EarlyPostIsPossible`). `PostFindsReceiverIff` says exactly when a post finds a receiver, and
  `ClientCannotTell` that the client has no means of knowing; the adapter's retries cover that window.
- The client's receive buffer is not cleared, so hex digits left behind the server's text become part of
  the last field (`ScanWithLeftovers`; `LeftoverDigitCorrupts` is an example).
- Both error branches of `return_batch_request` return with the spin lock held
  (rdma_library.c:117-126). `Ring.Give` and `ReturnAlwaysFindsRoom` show that they are not reached.

## Model

| member | source | states |
|---|---|---|
| `Transfers.CarryAllIsStepAll` | rdma_library.c:819-841 | running WRs as block copies leaves both memories as moving their bytes one by one in order does |
| `Transfers.SameMovesSameEffect` | rdma_library.c:806-817 | two WR streams that list the same byte moves change every pair of memories alike, overlaps included |
| `Transfers.MergeableIff` | rdma_library.c:808 | for transfers that do not wrap, the 64-bit test holds if and only if the operations are equal and the second goes on where the first ends in both memories |
| `Transfers.MergeKeepsMovesIff` | rdma_library.c:806-817 | two adjacent transfers that pass the merge test may be replaced by one if and only if the sum of their lengths fits the 32-bit field |
| `Transfers.OverflowingMergeLosesEverything` | rdma_library.c:806-817 | two adjacent transfers of 2 GB pass the merge test and are replaced by one that carries nothing |
| `Transfers.AllMovesAt` | rdma_library.c:857 | adding the remote base address moves the same bytes to the relocated places, as long as the region does not wrap |
| `BlockLayer.ExactReadingIff` | rmem.c:257-328 | the sync walk yields the true transfers of a bio if and only if its segments are equally long and, if there are several, whole sectors |
| `BlockLayer.RoundedReadingIff` | rmem.c:162-191 | the async and one-at-a-time walks yield the true transfers if and only if the segments are equally long and whole sectors |
| `BlockLayer.UnequalSegmentsAreMisread` | rmem.c:264-328 | a page followed by a sector: all modes transfer a whole page for the second segment |
| `BlockLayer.PartialSectorIsDropped` | rmem.c:167-191 | a lone segment of 100 bytes: right in the sync drain, dropped by the deferred ones |
| `BlockLayer.QueueReadRight` | rmem.c:246-332 | on a queue of such bios every mode starts from the reference transfers, in queue order |
| `Batching.CoalesceKeepsMoves` | rmem.c:178-190 | extending the newest transfer or appending a new one adds exactly the new segment's byte moves at the end |
| `Batching.SyncRunKeepsMoves` | rmem.c:264-301 | any sequence of merges and flushes of the sync drain lists exactly the input's byte moves; without merging, with no bound on the bytes |
| `Batching.SyncPreservesMeaning` | rmem.c:264-353 | the flushed batches run in order leave local and remote memory as the input stream run one by one does |
| `Batching.SyncBatchSizes` | rmem.c:287-301 | every flush posts between 1 and MAX_REQ WRs, every flush but the last exactly MAX_REQ and, with merging, no two neighbours that could still be merged |
| `Batching.UnmergedBatches` | rmem.c:278-301 | without merging the batches are the input cut into full pieces: nothing lost or reordered, sizes add up to the segment count |
| `Batching.UnmergedFlushCount` | rmem.c:287-349 | without merging the number of flushes is the segment count over MAX_REQ, rounded up |
| `Batching.AsyncRunKeepsMoves` | rmem.c:162-194 | the array the async drain builds lists exactly the byte moves of its segments |
| `Batching.AsyncRunShape` | rmem.c:178-190 | with merging on no two neighbours of the array could still be merged; with merging off the array is the stream itself |
| `Batching.OneRunKeepsMoves` | rmem.c:408-456 | posting per request with a single pending transfer lists exactly the byte moves of the queue |
| `RingPool.Ring.constructor` | rdma_library.c:41-67 | a fresh pool holds all its records in order, nothing is out |
| `RingPool.Ring.Take` | rdma_library.c:79-101 | hands out the oldest record unless it is the last one, clears its slot, and keeps the ledger law |
| `RingPool.Ring.Give` | rdma_library.c:103-131 | appends the record; giving back a record that is out never reaches either error branch |
| `RingPool.TakeWindow` | rmem.c:75-94 | slots are occupied exactly from head to tail, and taking removes the first element of that window |
| `RingPool.GiveWindow` | rmem.c:95-114 | the next slot is the head's exactly when the ring is full, otherwise it is empty; giving appends to the window |
| `RingPool.LedgerCounts` | rdma_library.c:79-131 | while only held records come back, the original records are exactly those in the ring plus those held, copy for copy |
| `RingPool.PoolConservation` | rdma_library.c:79-131 | with distinct records each one is in the ring or held, never both or twice, and at most size-1 are out |
| `Verbs.ChainIsPending` | rmem.c:278-298 | whatever stale links and lengths lie behind, following `next` from any pending slot of a terminated list visits exactly the later pending slots, each as `make_wr` would have built it |
| `SyncDevice.Device.constructor` | rmem.c:704-715 | the preset loop establishes every field the fast builder relies on |
| `SyncDevice.Device.SimpleMakeWr` | rdma_library.c:843-858 | writes only address, length, id, opcode and remote address of one slot; the link and the presets keep their values |
| `SyncDevice.HoldsWritten` | rdma_library.c:819-858 | after the fast builder the slot equals what `make_wr` would have written, except for a stale link |
| `SyncDevice.Device.MergeWr` | rdma_library.c:806-817 | merges exactly when the transfers are adjacent in both memories with the same opcode; changes nothing but the older length |
| `SyncDevice.HoldsMerged` | rmem.c:274-277 | merging in place turns the slots of the pending transfers into the slots of the coalesced ones |
| `SyncDevice.HoldsAppended` | rmem.c:278-286 | linking the previous slot turns the slots of the pending transfers into those of one more |
| `SyncDevice.HoldsTerminated` | rmem.c:289-298 | clearing the last link makes the posted list exactly the pending transfers, whatever the history of the array |
| `SyncDevice.Device.PlaceSegment` | rmem.c:270-286 | building in the next slot and merging or linking makes the slots those of the coalesced transfers, one to MAX_REQ of them |
| `SyncDevice.Device.PostSend` | rmem.c:298 | posts the list reached from slot 0 and nothing else |
| `SyncDevice.Device.Account` | rdma_library.c:652-673 | the bulk subtraction and the per-entry loop take the same amount off the counter, which does not wrap |
| `SyncDevice.Device.Reap` | rdma_library.c:641-673 | the inner loop ends with the completion queue empty and the counter equal to what is still posted |
| `SyncDevice.Device.PollCq` | rdma_library.c:632-682 | for every arrival pattern: returns with the counter at zero, everything posted executed and reaped in order, nothing left for the next batch |
| `SyncDevice.Device.Flush` | rmem.c:287-301 | posts exactly the pending transfers, waits for all of them and leaves the array ready for reuse |
| `SyncDevice.Device.AddSegment` | rmem.c:264-301 | one turn of the loop over slots, links and flushes is one step of the fold `SyncAdd`; the slot index is below MAX_REQ |
| `SyncDevice.Device.RequestSync` | rmem.c:218-360 | the drain posts exactly the batches of the fold over the queue; every filesystem request is ended once, in fetch order, after everything was reaped; other requests are failed in order |
| `AsyncDrain.FetchedOk` | rmem.c:151-157 | taking a record for a request keeps the whole drain invariant |
| `AsyncDrain.SegmentedOk` | rmem.c:167-194 | a segment, merged or not, keeps it: entries carry all bytes so far, counters count owned entries |
| `AsyncDrain.PreviousRecordExists` | rmem.c:199-203 | when a request owns no entry, `last_batch_req` is a valid record |
| `AsyncDrain.FinishedOk` | rmem.c:199-203 | hanging a wholly merged request on the one before keeps the chains exact and acyclic |
| `AsyncDrain.NextCompletionOwner` | rdma_library.c:578-588 | the next completion of a drain belongs to its first request not yet ended |
| `AsyncDrain.HandledOk` | rdma_library.c:586-588 | a completion keeps the drain invariant, and the counter reaches zero exactly at the owner's last WR |
| `AsyncDrain.FollowedOk` | rdma_library.c:595-608 | the chain walk stops exactly where the next request still waits for a completion |
| `AsyncProtocol.StepKeepsInv` | rdma_library.c:562-620 | every step of every drain, the adapter and the handler keeps the global invariant |
| `AsyncProtocol.FetchedByStep` | rmem.c:138-197 | in every run, a request's built transfers and those still to be looked at are together exactly the ones it was fetched with |
| `AsyncProtocol.AsyncCompletionSafety` | rdma_library.c:572-608 | in every run no request is ended twice, and an ended request was fetched, and completed WRs carry every byte it asked for, however it was merged |
| `AsyncProtocol.AsyncQuiescence` | rdma_library.c:572-620 | when nothing is left to do, every request fetched in the run has been ended and every record is back in the pool |
| `AsyncProtocol.NoLostWakeup` | rdma_library.c:572-620 | unreaped completions mean a running handler or an event on its way; an idle handler without an event has the queue armed |
| `AsyncProtocol.ReturnedLinkIsStable` | rdma_library.c:595-608 | between returning a record and reading its `next`, no step of anyone hands the record out or changes the link |
| `AsyncProtocol.NothingIsDereferencedWrongly` | rmem.c:151-203 | in every reachable state the records and pointers the next step of every drain, of the pool and of the handler follows are valid |
| `AsyncProtocol.ReturnAlwaysFindsRoom` | rdma_library.c:115-126 | whenever the handler returns a record the pool has room and does not hold that record |
| `AsyncProgress.NeverStuck` | rdma_library.c:572-620 | in every reachable state that is not at rest, some step other than taking on new work is possible and brings it closer to rest in a well-founded order |
| `AsyncProgress.CanAlwaysFinish` | rdma_library.c:572-620 | every run can be continued without new work to a state in which every request it fetched is ended, once, and every record is back in the pool |
| `AsyncDevice.Device.AddSegment` | rmem.c:167-194 | the in-place array step is the protocol's step on entries and records |
| `AsyncDevice.Device.FinishRequest` | rmem.c:199-203 | the pointer write is the protocol's step, on the right record |
| `AsyncDevice.Device.RdmaOp` | rdma_library.c:880-908 | posts the entries one by one, in order, each tagged with its record |
| `AsyncDevice.Device.RequestAsync` | rmem.c:118-214 | the drain leaves records, chains and counters satisfying the protocol's invariant, with the queue's requests in order, each with its own transfers, posts exactly the coalesced stream, and its acts can be replayed; without merging, with no bound on the bytes |
| `AsyncRefinement.ReplayIsRun` | rmem.c:138-206 | the acts of a drain, from any state of the protocol with these records and this pool, are steps of the protocol |
| `AsyncRefinement.DrainIsReached` | rmem.c:138-212 | followed by submission and posts they continue any run, to a state with exactly the records, pool, drain and queued WRs the code leaves |
| `AsyncRefinement.CodeIsRun` | rmem.c:118-214 | called in a reachable state of the protocol, the code leaves the device in a reachable state of the protocol; what it posts is the relocated coalesced stream, each WR naming the record the protocol's WR names |
| `OneProtocol.CounterRunsAhead` | rmem.c:396-456 | once a segment was looked at, `outstanding_reqs` exceeds the number of posts exactly until the last post |
| `OneProtocol.CompareIsExact` | rdma_library.c:582-584 | the handler's comparison succeeds exactly when the request has posted all its WRs and all were counted |
| `OneProtocol.StepKeepsInv` | rdma_library.c:572-608 | every interleaved step of submitters and handler keeps the global invariant |
| `OneProtocol.OneCompletionSafety` | rdma_library.c:580-608 | in every run no request is ended twice, and an ended one had all its WRs reaped, moving exactly the bytes it was fetched with, and its submitter has no step left |
| `OneProtocol.OneTestIsExact` | rdma_library.c:582-584 | in every run the two-part test succeeds on the last completion of a request and on no other |
| `OneProtocol.OneQuiescence` | rdma_library.c:572-620 | when nothing is left to do every fetched request has been ended and every record is back in the pool |
| `OneProgress.NothingIsDereferencedWrongly` | rmem.c:396-456 | in every reachable state the guards of the next step of every submitter, of the pool and of the handler hold |
| `OneProgress.NeverStuck` | rdma_library.c:572-608 | in every reachable state that is not at rest, some step other than taking on new work is possible and brings it closer to rest in a well-founded order |
| `OneProgress.CanAlwaysFinish` | rdma_library.c:572-620 | every run can be continued without new work to a state in which every request it fetched is ended, once, and every record is back |
| `OneDevice.Device.Perform` | rdma_library.c:572-608 | a step of the handler or of another submitter, made on the shared records and the ring pool, leads from one reachable state of the protocol to the next |
| `OneDevice.Device.Yield` | rdma_library.c:572-608 | whatever steps the others take in between, the submission in progress stays where it was and what was submitted stays submitted |
| `OneDevice.Device.RdmaOp` | rdma_library.c:880-908 | a post is made in a reachable state of the protocol, on a record that already counts it and, for the last one, is already marked sent |
| `OneDevice.Device.AddSegment` | rmem.c:411-450 | one turn of the loop over the pending slot is the protocol's look-and-flush, under any interference: the counter is raised before the pending transfer is posted |
| `OneDevice.Device.SubmitOne` | rmem.c:396-459 | for every schedule of the others: the effects of the code, one by one and in its order, are steps of the protocol from one reachable state to another, and its posts are the request's coalesced transfers |
| `OneDevice.Device.PostRest` | rmem.c:455-456 | the record is marked sent and only then the last transfer posted, which completes the submission |
| `OneDevice.Device.RequestOne` | rmem.c:364-463 | for every schedule of the others: the drain keeps to reachable states of the protocol, submits every filesystem request with its own transfers, posts exactly the per-request coalesced stream and fails the others in order |
| `OneDevice.SubmittedIsServed` | rdma_library.c:580-608 | what the code has submitted can be ended without new work, and once it is ended the reaped WRs moved exactly its bytes |
| `Region.CheckProtectsBufferIff` | server/server.c:265-281 | every size that passes the size tests, the null test and the registration fits the allocated block, whatever C leaves open, if and only if the size argument is above minus one |
| `Region.WrappingConversionProtects` | server/server.c:274-281 | where the conversion to unsigned wraps, a negative size argument leaves no buffer and whatever is admitted fits |
| `Region.WholeCheckIsExact` | server/server.c:265-269 | for a whole number of gigabytes a region is accepted if and only if it fits the buffer |
| `Region.CheckedLikeWholePart` | server/server.c:265-269 | for any other argument a region is accepted if and only if it fits the buffer of the argument's whole part |
| `Region.CheckIsExactIff` | server/server.c:265-269 | every region that fits the buffer is let through if and only if the buffer is no larger than that of the argument's whole part |
| `Region.AcceptedFitsBuffer` | server/server.c:413-414 | with such an argument an accepted region lies inside the fractional allocation |
| `Region.AcceptIsConservative` | server/server.c:265-269 | the witness for the other case: a region that fits a buffer of one and a half gigabytes is refused |
| `Region.CapacityIsAnnounced` | rmem.c:773 | the capacity in sectors of 512 bytes is the size the client announces, 4096 bytes a page |
| `Region.WorkRequestsStayInside` | rmem.c:773 | every WR of every mode, merged or not, stays inside the registered region, and the region inside the buffer |
| `Region.ModesAgree` | rmem.c:162-456 | the streams of the three modes change local and remote memory as running every segment alone in queue order does |
| `Disk.DrainServesBios` | rmem.c:246-353 | every drain of every mode serves its bios one after the other as a disk does: a write puts the bytes of its segments at 512 times its sector in the region and changes nothing else, a read fetches them from there and changes nothing else |
| `Disk.SplitBio` | rmem.c:257-328 | a bio cut at a sector boundary has the transfers of its two pieces, the second one starting as many sectors of 512 bytes further on |
| `Disk.CuttingDoesNotMatter` | rmem.c:257-328 | a stretch of the disk has the same transfers however it is cut into bios |
| `Disk.StretchServed` | rmem.c:246-353 | a drain of a stretch, in any mode and however cut, has the effect of one bio |
| `Disk.ReadReturnsWritten` | rmem.c:246-353 | a read returns what was written, whatever the modes, the merging and the bios the two were cut into |
| `BootstrapText.NumberRoundTrip` | rdma_library.c:421-427 | printing and scanning a number in any base from 2 to 16 gives it back and stops where it ended |
| `BootstrapText.PrintedFormats` | rdma_library.c:413-427 | the exact text of an example record and of an example size |
| `BootstrapText.AddressRoundTrip` | server/server.c:122 | a zero-padded 64-bit address takes exactly 16 digits and scans back, whatever follows |
| `BootstrapText.BootstrapRoundTrip` | server/server.c:122-139 | scanning a printed record recovers all five fields when the text is ended |
| `BootstrapText.SizeRoundTrip` | rdma_library.c:413-415 | the announced size survives printing and scanning |
| `BootstrapText.ScanWithLeftovers` | rdma_library.c:408-422 | for every content of the buffer behind the text: four fields are right, the last has absorbed the leading hex digits found there |
| `BootstrapText.BootstrapRoundTripIff` | rdma_library.c:408-422 | unless those digits overflow the last field, the record is recovered if and only if there are none or they are zeros behind a zero |
| `BootstrapText.LeftoverDigitCorrupts` | rdma_library.c:408-422 | a record whose last field is 1 is read as 16 when a 0 was left behind it |
| `Session.StepKeepsInv` | server/server.c:417-453 | every step of client and server keeps the invariant on positions, unread text, knowledge, queue pairs and live objects |
| `Session.HandshakeAgreement` | rdma_library.c:450-512 | in every run, whenever both queue pairs are ready to send, during teardown too, each is addressed at the other, expects the sequence number the other sends, and both sides agree on records and size |
| `Session.OneMessageAtATime` | server/server.c:72-140 | in every run no direction holds two unread messages, so an unframed read sees exactly one |
| `Session.PostsOnlyIntoLiveRegion` | rmem.c:805-828 | in every run, while the client can post, all the server's objects are alive and none is about to be destroyed |
| `Session.NoPostDuringShutdown` | server/server.c:85-105 | in every run, while the server shuts a session down the client can neither post nor still be running |
| `Session.ObjectLifetimes` | server/server.c:323-351 | in every run each object is created on live ones and destroyed only when nothing live depends on it; between sessions nothing is left |
| `SessionProgress.CanAlwaysTearDown` | rdma_library.c:703-717 | every run can be continued without another connection to a state with the client out, the server at its first accept, none of its objects left and nothing unread |
| `SessionProgress.AnotherSession` | server/server.c:417-453 | from there any client can connect and be served: both queue pairs get ready to send and it can post |
| `SessionProgress.AnyNumberOfSessions` | server/server.c:417-453 | for every n there is a run of n sessions, each torn down |
| `Session.PostFindsReceiverIff` | server/server.c:169-214 | in every run, a post finds a queue pair beyond Init if and only if the server has read the client's record and made its next transition |
| `Session.ClientCannotTell` | rdma_library.c:423-433 | in every run, a client that posts too early holds and can read exactly what it would if the server were ready |
| `Session.EarlyPostIsPossible` | rdma_library.c:450-512 | there is a run in which the client can post while the server's queue pair is still in the Init state |

## Left out

- `COPY_LESS 0` and `SIMPLE_MAKE_WR 0` variants of the sync drain: the plain builder appears as the reference the fast one is compared with.
- The `REQ_ARR_SIZE` ring inside `rmem_request_async`: the array it hands out is a parameter of `RequestAsync`; the ring itself is the class `Ring`.
- The zeroing of the WR and gather arrays before the preset loop: the constructor allows any contents there, so nothing rests on it.
- Sector numbers above 2^55, where the byte offset wraps before it is added to the base; they lie beyond any capacity.
- `nsec`, latency measurement, the debug request table, logging and `rmem_getgeo`: diagnostics and plumbing.
- Failed verbs calls and failed completions: the driver stops the machine or exits.
- The size of an `-EIO` answer to a request that is not a filesystem request; only that it is failed, and in which order.
- Device discovery and registration, sockets, module parameters, error paths of `rmem_init`.
- `Region.BufferBytes`: arguments are real numbers within the range of `int`; rounding of the floating product is not modelled.
- `BootstrapText.Number`: white space, signs and `0x` prefixes, which the printer never produces. A number that overflows its field is reduced to the low bits; C leaves that case open.
- Server exits (a refused size, a failed read) in `Session`: the session would end there.
- `AsyncProtocol` ends a request and returns its record in one step: in between the record is the handler's alone. Reading the link is a step of its own.
- `OneProtocol` has no `next` in its records, although the handler reads it in MODE_ONE too: the field is set to null when the record is taken and never otherwise, so the walk visits one record.
- `OneProtocol` leaves the arming of the completion queue to `AsyncProtocol`, whose outer handler loop is the same code.
