# OdinLink-Five: a verified model

OdinLink-Five turns a Thunderbolt cable between two hosts into a message transport: a kernel
driver, a verbs provider and a collectives plugin. These Dafny modules model the transport's
protocols and state machines and prove what they promise over every input and every run.

| module | models |
|---|---|
| `RingDepth` | legal ring depths, ring allocation, the probe loop that falls back to shallower rings |
| `Handshake` | one node's login, connect and restart protocol, as a state machine and as the `Device` object |
| `Negotiation` | two such nodes over control packets that may be delayed, repeated or lost |
| `HopIds` | where the HopIDs that such nodes record and open come from |
| `Wire` | stream frames, fragmentation, the two senders |
| `Assembly` | reassembly under frame loss and refused memory, many streams |
| `TxCompletion` | reference counts and completion of transmit messages, raced by callbacks |
| `FramePool`, `BatchPool` | ownership of DMA frames and of batch buffers |
| `ScatterGather` | cutting a mapped dma-buf into ring frames |
| `AdaptiveTx`, `AdaptiveRace` | the latency/throughput mode switch, and its evaluations when they overlap |
| `StreamCopy` | the non-temporal copy used for bounce buffers |
| `Circular`, `CompletionQueue`, `SendQueue`, `RecvQueue` | the verbs queues, their worker and drainer |
| `Wakeups` | the eventfd that tells a sleeping caller of completions |
| `EndToEnd` | send queue, frames, reassembly and receive queue joined |
| `RcclFraming` | length-framed transfers and the request FIFO of the collectives plugin |

Concurrency is modelled as interleaving: each critical section is one event, and so is each atomic
operation on which something in this model depends. An event that cannot happen changes nothing,
and a run is any sequence of events. Objects that the
source updates in place are classes; their methods are proved equal to the step functions that the
whole-run lemmas are about. Answers of the kernel, the hardware and the network (an allocation, a
ring that takes a frame, a lost frame, a send that would block) are parameters or events.

## What the proofs found

- A connect attempt notices a newer login by comparing 32-bit generations. It is deceived after
  exactly a multiple of 2^32 login events (`Handshake.CommitIsFresh`, `Handshake.GenerationLap`).
- The HopID release at re-entry of the connect worker never has anything to release
  (`Handshake.ReentryReleaseIsRedundant`).
- Fragment indices detect every loss except a tail without its start whose first survivor has
  exactly the expected index. Such a tail is delivered alone after a message of that many fragments,
  or spliced to a message that was cut off there (`Assembly.LossDetectionIsExact`,
  `Assembly.UndetectedLoss`, `Assembly.SplicedMessages`).
- A refused growth of the assembly buffer is silent (`Assembly.DeliveredIfGranted`,
  `Assembly.SilentTruncation`).
- When the ring refuses a later frame of a batch, message accounting stays exact, but the batch
  buffer is lost if every frame taken before has already called back (`BatchPool.LossIsExact`).
- The receive target bounds the posted frames only while reposts do not overlap. Two that do can
  post the whole pool, and the target is passed exactly when one posts on a stale view of the
  counter (`FramePool.OvershootIsExact`, `FramePool.OverlapOvershoots`).
- A callback's completion test can run on a message already freed: exactly when, since its
  decrement, the producer has finished and another test has taken the completion reference
  (`TxCompletion.FreedTouchesAreLateTests`, `TxCompletion.ProducerFreesFirst`).
- A send that fails part-way misaligns the next transfer on its stream and may misalign later ones,
  silently at times; one that fails before its header does no harm (`RcclFraming.AlignedIffNoCut`,
  `RcclFraming.CutSendSplices`).
- Mode evaluations take no lock. While none clears the counter between another's read and write,
  every switch to latency mode follows four low loads; otherwise one low load can be enough
  (`AdaptiveRace.DecisionsAreEarned`, `AdaptiveRace.UnearnedDownshift`).
- A poll reads the eventfd after it has released the lock. A wake-up is lost exactly when an armed
  post falls in between (`Wakeups.LonePollerLosesIff`, `Wakeups.WakeupLost`).
- A stream opened before the end of link verification loses its receive target when verification
  clears it (`FramePool.OpenHasTarget`).
- With half the frame pool posted for receiving, a device in throughput mode never returns to
  latency mode (`AdaptiveTx.NoDownshiftWithReceivesPosted`).
- Comments speak of a 5-byte stream header (`driver/odl_tb5_core.h:69`,
  `rccl/src/odl_tb5_plugin.c:454`); the code uses 8 bytes and 4024 bytes of payload, and the model
  follows the code.

## Model

| member | source | states |
|---|---|---|
| `RingDepth.AllocationKeepsExactlyLegalDepths` | driver/odl_tb5_ring_dma.c:531-538 | clamping and rounding up leave a requested depth alone if and only if the handshake accepts it, and always yield a depth it accepts |
| `RingDepth.ProbeDepth` | driver/odl_tb5_service.c:185-204 | the probe returns the deepest legal depth that is not out of memory: every legal depth above it ran out, another error stops it at once, and it gives up only at the floor |
| `Handshake.StepKeepsResources` | driver/odl_tb5_proto.c:429-572 | at every step of the connect and restart workers HopIDs taken minus given is 1 or 0 as the flag says, paths are open exactly while connected or about to commit, rings run only where the protocol allows |
| `Handshake.NodeStepKeepsInv` | driver/odl_tb5_proto.c:388-520 | every event of a node, packets and workers in any order, keeps resources, snapshot dates and depths in order |
| `Handshake.LoginEventsAreCounted` | driver/odl_tb5_proto.c:347-369 | no event changes the peer's HopID without counting a login event, and a worker's snapshot always dates from a real state |
| `Handshake.StateMoves` | driver/odl_tb5_proto.c:388-520 | each connection state and the verification flag are reached exactly by their own events: CONNECTED by a current commit, READY by a good verification, ERROR by a refused shrink, DISCONNECTED by a logout of its own, the handshake by a restart |
| `Handshake.ReentryReleaseIsRedundant` | driver/odl_tb5_proto.c:429-441 | at re-entry no HopID is held, no path open and no ring running, so the release does nothing |
| `Handshake.ResizeNeverBusy` | driver/odl_tb5_proto.c:396-408 | a shrink is never refused for running rings; it lands exactly on the peer's depth, or on failure the old depth is restored, and a new output HopID is advertised |
| `Handshake.CommitIsFresh` | driver/odl_tb5_proto.c:501-520 | a commit succeeds if and only if the handshake is still on and the number of login events since the snapshot is a multiple of 2^32; within one lap it has opened the HopID on record, and a failed commit leaves nothing behind |
| `Handshake.ReloginCounts` | driver/odl_tb5_proto.c:130-248 | after k logins the generation is the event count modulo 2^32 and nothing but the login record has moved |
| `Handshake.GenerationLap` | driver/odl_tb5_proto.c:501-520 | after 2^32 logins naming another HopID a stale attempt still commits with the old one |
| `Handshake.Device.constructor` | driver/odl_tb5_service.c:185-204 | a probed device starts the handshake with nothing held |
| `Handshake.Device.OnLogin` | driver/odl_tb5_proto.c:130-248 | a login of another version, malformed, of an illegal depth or in ERROR is refused with its status and no effect; any other is answered with this node's HopID and depth, and if the answer went out its HopID is recorded and counted; the work it schedules is exactly restart, connect or none by state |
| `Handshake.Device.OnLogout` | driver/odl_tb5_proto.c:250-263 | a logout forgets both directions and counts as an event |
| `Handshake.Device.OnLoginReply` | driver/odl_tb5_proto.c:347-369 | an accepting reply with a legal depth puts the HopID and depth it names on record and is counted, any other changes nothing; connecting is scheduled exactly when both directions are known |
| `Handshake.Device.ResizeRings` | driver/odl_tb5_ring_dma.c:657-687 | refuses while running, does nothing for a depth that is not smaller, otherwise shrinks or restores the old depth, each with a new HopID |
| `Handshake.Device.Negotiate` | driver/odl_tb5_proto.c:388-427 | the first critical section: nothing unless both logins are in; the larger node shrinks and logs in again, the smaller waits, equal ones take a snapshot |
| `Handshake.Device.TakeHop` | driver/odl_tb5_proto.c:433-449 | takes the peer's HopID or abandons the attempt |
| `Handshake.Device.Prime` | driver/odl_tb5_proto.c:450-471 | starts the rings and primes them, or undoes both and returns the HopID |
| `Handshake.Device.OpenPaths` | driver/odl_tb5_proto.c:473-499 | the paths open if and only if one of five attempts succeeds; otherwise everything is undone |
| `Handshake.Device.CommitConnection` | driver/odl_tb5_proto.c:501-520 | connects exactly when the snapshot is still current, else closes paths, stops rings and returns the HopID |
| `Handshake.Device.RecoverAttempt` | driver/odl_tb5_proto.c:566-578 | a failed attempt forgets both logins and frees the worker |
| `Handshake.Device.StopForRestart` | driver/odl_tb5_proto.c:799-821 | a restart stops running rings and returns their HopID and paths once |
| `Handshake.Device.ResetHandshake` | driver/odl_tb5_proto.c:823-830 | the handshake restarts with the peer's depth forgotten |
| `Negotiation.StepKeepsPairInv` | driver/odl_tb5_proto.c:388-427 | an event at either node keeps every depth held, recorded or in flight at its owner's first depth or at the minimum, and the minimum only once its owner is there |
| `Negotiation.Agreement` | driver/odl_tb5_proto.c:388-427 | in every run of two nodes over delayed, repeated, lost or foreign packets, as soon as one node is connecting, connected, ready or has rings running, both rings have the smaller initial depth |
| `Negotiation.AtMostOneResize` | driver/odl_tb5_proto.c:396-427 | every run makes at most one successful resize, at the larger node, straight to the minimum, and only legal peer depths are recorded |
| `Negotiation.Conservation` | driver/odl_tb5_proto.c:429-520 | in every run no node leaks or doubly releases a HopID, a path or a running ring |
| `Negotiation.AlwaysRecovers` | driver/odl_tb5_proto.c:388-520 | from every state two nodes can reach, whatever failed before, some further run brings both to READY at the smaller initial depth, each with exactly the other's HopID open |
| `HopIds.RecordsWhatItTakes` | driver/odl_tb5_proto.c:347-369 | a node's record of its peer's HopID changes only to the path in the login or reply it just took, and exactly logins, replies and logouts taken are counted |
| `HopIds.RecordsDepths` | driver/odl_tb5_proto.c:207-223 | the depth on record is that of the last login or reply taken, or of a login whose answer did not go out, until a restart forgets it |
| `HopIds.RecordIsLastTold` | driver/odl_tb5_proto.c:223-239 | in every run of two nodes the HopID on record is the one in the last login or reply taken |
| `HopIds.GenerationCounts` | driver/odl_tb5_proto.c:347-369 | in every run the generation is the number of logins, replies and logouts taken, modulo 2^32 |
| `HopIds.FlagsAreStanding` | driver/odl_tb5_proto.c:250-263 | in every run the peer's login stands exactly if one was taken and no logout or failed attempt has come since, and a node's own exactly if a reply was taken and neither those, nor a restart, nor a depth settled has come since |
| `HopIds.HopsAreOffered` | driver/odl_tb5_proto.c:292-300 | in every run each login and accepting reply in flight names a HopID its sender has had for sending, and every HopID a node has on record, in hand or open was offered to it by the peer |
| `HopIds.CommitsAreFresh` | driver/odl_tb5_proto.c:501-520 | in every run a commit within one lap of its snapshot follows a login and a reply that still stand and leaves open exactly the HopID in the last login or reply taken, which the peer offered and has had for sending; one that any login overtook fails and undoes itself |
| `Wire.ReadsBack` | driver/odl_tb5_ring_dma.c:287-327 | every well-formed frame stays clear of the reserved tail, is never taken for a ping or pong, and reads back as itself |
| `Wire.ReadSorts` | driver/odl_tb5_ring_dma.c:287-327 | which received bytes are a ping or pong, a stream frame, an overlong one or nothing, byte by byte, and what each header byte of a stream frame means |
| `Wire.FragmentsAreWellFormed` | driver/uapi/odl_tb5_uapi.h:78-94 | for every legal length the 16-bit index never wraps, every fragment is full but the last, and none exceeds the payload limit |
| `Wire.SendLatency` | driver/odl_tb5_ring_dma.c:1752-1828 | frame by frame, exactly the message's fragments go out; on any failure a prefix of them, and success is reported if and only if every frame found a slot in time, was copied and was taken |
| `Wire.StageBatch` | driver/odl_tb5_ring_dma.c:1870-1944 | a batch holds the next up to 64 fragments, with the indices and flags of the whole message |
| `Wire.SubmitBatch` | driver/odl_tb5_ring_dma.c:1949-1973 | submission stops at the first frame the ring refuses, having sent exactly those before it |
| `Wire.SendThroughput` | driver/odl_tb5_ring_dma.c:1870-1976 | batch by batch, the same fragments in the same order as the latency sender; success if and only if every frame was copied and taken and every batch found a buffer in time |
| `Assembly.FirstFragmentKept` | driver/odl_tb5_ring_dma.c:330-476 | whatever state came before, a message that keeps its first fragment is delivered byte for byte if and only if it loses nothing |
| `Assembly.LossDetection` | driver/odl_tb5_ring_dma.c:330-476 | for every list of messages, each of which keeps its first fragment or loses all, the deliveries are exactly the intact messages in order |
| `Assembly.PrefixIsAPattern` | driver/odl_tb5_ring_dma.c:1752-1828 | what an aborted send leaves on the wire is one of the loss patterns covered |
| `Assembly.LossDetectionIsExact` | driver/odl_tb5_ring_dma.c:330-476 | for all messages and all patterns of losses the deliveries are the intact messages, in order, if and only if no surviving tail meets the index that the masks before it left expected; otherwise there is one delivery too many for each that does |
| `Assembly.LeftIsFeed` | driver/odl_tb5_ring_dma.c:330-476 | what one message leaves behind, poisoned or not and which index expected, follows from its losses and what was left before it |
| `Assembly.FirstFragmentLost` | driver/odl_tb5_ring_dma.c:330-476 | a message without its first fragment delivers something if and only if the assembly is not poisoned, the first survivor has the expected index and nothing after it is missing, and then exactly the bytes left open followed by its tail |
| `Assembly.NoForgeryWhenReset` | driver/odl_tb5_ring_dma.c:419-476 | on a new stream, or after a drop, no tail is ever delivered as a message |
| `Assembly.RoundTrip` | driver/odl_tb5_ring_dma.c:287-476 | sending, encoding, reading and reassembling any legal message gives it back with its sender, whatever came before |
| `Assembly.WholeMessageLeaves` | driver/odl_tb5_ring_dma.c:330-476 | a delivered message leaves its fragment count as the expected index |
| `Assembly.UndetectedLoss` | driver/odl_tb5_ring_dma.c:330-476 | for any two messages, the longer one losing exactly as many leading fragments as the first had is delivered truncated under the first one's sender |
| `Assembly.PrefixLeaves` | driver/odl_tb5_ring_dma.c:330-476 | a send cut off after n fragments leaves them open and index n expected |
| `Assembly.SplicedMessages` | driver/odl_tb5_ring_dma.c:330-476 | a message cut off after n fragments and any message that loses exactly its first n are delivered as one |
| `Assembly.StreamsAreIndependent` | driver/odl_tb5_ring_dma.c:313-476 | however frames of different streams interleave, each stream ends and delivers as if alone |
| `Assembly.GrowthIsAmortised` | driver/odl_tb5_ring_dma.c:376-413 | for every frame sequence, growing has moved fewer than twice the message's bytes, and the capacity is at most twice what it holds or 8192, whichever is more |
| `Assembly.GrowthCopies` | driver/odl_tb5_ring_dma.c:376-413 | growing happens exactly when the next payload does not fit and memory is granted, copies what the buffer holds, and nothing else copies |
| `Assembly.DeliveredIfGranted` | driver/odl_tb5_ring_dma.c:376-413 | a message that arrives whole is delivered if and only if every growth it needs is granted; otherwise nothing of its length is, and nothing empty |
| `Assembly.SilentTruncation` | driver/odl_tb5_ring_dma.c:376-413 | a refused growth at the third fragment delivers a message of two |
| `Assembly.RxStream.OnFrame` | driver/odl_tb5_ring_dma.c:330-476 | one frame advances the stream's fields as specified, queues what is complete unless the queue is full or no entry can be had, and counts a gap |
| `Assembly.RxStream.Recv` | driver/odl_tb5_ring_dma.c:2180-2224 | hands over the oldest message cut to the caller's buffer and removes it whole, also when the copy fails; with nothing queued it reports teardown or nothing |
| `TxCompletion.DoKeepsInv` | driver/odl_tb5_ring_dma.c:104-157 | every producer or callback step keeps references, pending frames and phase consistent, moves the stream's counters exactly when it frees the message, and touches a freed one exactly when it is a late test |
| `TxCompletion.ReleasedExactlyOnce` | driver/odl_tb5_ring_dma.c:104-128 | in every interleaving, with decrement and test apart, a message is freed at most once, only done with nothing pending, and has been freed once producer, ring and tests have let go |
| `TxCompletion.FreedTouchesAreLateTests` | driver/odl_tb5_ring_dma.c:155-156 | in every run the tests that touch a freed message are exactly those that come after the producer has finished and the completion reference has gone |
| `TxCompletion.PromptTestIsSafe` | driver/odl_tb5_ring_dma.c:155-156 | a test that follows its decrement at once finds the message alive |
| `TxCompletion.ProducerFreesFirst` | driver/odl_tb5_ring_dma.c:1812-1814 | with one frame, the producer's last three steps between decrement and test free the message first |
| `TxCompletion.CountersAreExact` | driver/odl_tb5_ring_dma.c:104-116 | in every run in-flight counts the live messages, and completed the freed ones none of whose frames were cancelled and no failure of whose was marked |
| `TxCompletion.FailedIffSpoilt` | driver/odl_tb5_ring_dma.c:152-155 | in every run a message counts as failed exactly if one of its frames was cancelled or its sender marked a failure, and a refused frame or a stopped batch always leads there |
| `TxCompletion.EveryMessageCanBeFreed` | driver/odl_tb5_ring_dma.c:104-157 | no message is stuck: in whatever state a run leaves it, the remaining steps of its producer and callbacks free it and leave no test to come |
| `TxCompletion.TestsFollowZeroes` | driver/odl_tb5_ring_dma.c:155-156 | in every run one completion test is made for each time a message's pending frames reach zero, and no other |
| `TxCompletion.ProducerIsFree` | driver/odl_tb5_ring_dma.c:1760-1815 | callbacks never hold a sender up: what it may do next depends on its own place and the frames it has yet to submit alone |
| `TxCompletion.TxMessage.PutRef` | driver/odl_tb5_ring_dma.c:104-116 | drops a reference and settles the counters with the last one |
| `TxCompletion.TxMessage.TryComplete` | driver/odl_tb5_ring_dma.c:122-128 | drops the completion reference once, when done with nothing pending |
| `TxCompletion.TxMessage.CountDown` | driver/odl_tb5_ring_dma.c:152-155 | a callback records a cancellation and retires one frame, and the last one owes a test |
| `TxCompletion.TxMessage.TestAfter` | driver/odl_tb5_ring_dma.c:155-156 | the test completes a message that is done with nothing pending |
| `TxCompletion.TxMessage.OnCallback` | driver/odl_tb5_ring_dma.c:147-157 | an undisturbed callback is its decrement followed by its test |
| `TxCompletion.TxMessage.SubmitBatch` | driver/odl_tb5_ring_dma.c:1949-1973 | after a refusal exactly the frames the ring took stay pending |
| `TxCompletion.TxMessage.FinishSending` | driver/odl_tb5_ring_dma.c:1812-1826 | the sender's last steps: set done, try to complete, drop its own reference |
| `FramePool.PoolConservation` | driver/odl_tb5_ring_dma.c:1248-1286 | in every run, however many reposts overlap and whenever verification resets the counter, a slot's bit is set exactly while someone owns it, the free count is the number of clear bits, and rx_posted plus the frames submitted and not yet counted plus the counts erased is the number of slots on the receive ring |
| `FramePool.SlotMoves` | driver/odl_tb5_ring_dma.c:1248-1286 | each event hands on exactly one slot, the one it names, finds first or carries, from one owner to one other |
| `FramePool.RepostMoves` | driver/odl_tb5_ring_dma.c:2261-2300 | a repost ends exactly when the target is reached, the pool is empty, or the ring has refused its frame and that is back |
| `FramePool.CounterMoves` | driver/odl_tb5_ring_dma.c:2298-2300 | the posted counter moves by one for each frame counted or received and by nothing else but its zeroing |
| `FramePool.EveryFrameComesBack` | driver/odl_tb5_ring_dma.c:1248-1286 | no frame is lost: in whatever state a run leaves the pool, every frame has a way back, and taking these ways leaves the whole pool free |
| `FramePool.OvershootIsExact` | driver/odl_tb5_ring_dma.c:2259-2300 | the receive ring passes rx_target if and only if some repost has a frame accepted while the frames it does not know of, less those that have come back, use up the room it believes in, or the target is cleared over posted frames; rx_posted does if and only if one counts in that state, or the target is cleared over it |
| `FramePool.OneAtATimeIsWithin` | driver/odl_tb5_ring_dma.c:2259-2300 | in a run whose reposts do not overlap, and whose resets come when nothing is posted, neither ever passes the target |
| `FramePool.OpenHasTarget` | driver/odl_tb5_proto.c:747-763 | once a stream is open the receive target is half the pool, unless and only unless the end of verification has cleared it since the last open |
| `FramePool.OverlapOvershoots` | driver/odl_tb5_ring_dma.c:2261-2300 | at every pool size from two on, two overlapping reposts can post twice the target and leave the senders at most one slot |
| `FramePool.QuiescentPoolIsFull` | driver/odl_tb5_ring_dma.c:1272-1286 | whenever no one owns a slot, the pool is full again and rx_posted is zero but for increments still to come and counts erased |
| `FramePool.FrameSlots.Get` | driver/odl_tb5_ring_dma.c:1248-1270 | takes the first clear slot, or none when all are used |
| `FramePool.FrameSlots.PutSlot` | driver/odl_tb5_ring_dma.c:1272-1286 | gives a slot back |
| `FramePool.FrameSlots.OnReceived` | driver/odl_tb5_ring_dma.c:246 | a callback takes its slot off the posted count |
| `FramePool.FrameSlots.ReturnReceived` | driver/odl_tb5_ring_dma.c:485 | and later gives it back to the pool |
| `FramePool.FrameSlots.OpenStream` | driver/odl_tb5_ring_dma.c:1543-1545 | only a stream that finds no target sets it and starts a repost |
| `FramePool.FrameSlots.EndVerification` | driver/odl_tb5_proto.c:762-763 | undisturbed, target and counter are cleared |
| `FramePool.FrameSlots.BeginRepost` | driver/odl_tb5_ring_dma.c:2261-2262 | a repost reads counter and target once |
| `FramePool.FrameSlots.GetForPost` | driver/odl_tb5_ring_dma.c:2267-2284 | it takes the first clear slot, or ends |
| `FramePool.FrameSlots.SubmitForPost` | driver/odl_tb5_ring_dma.c:2293 | an accepted slot is the ring's from then on, before it is counted |
| `FramePool.FrameSlots.CountPosted` | driver/odl_tb5_ring_dma.c:2298-2299 | both counters go up |
| `FramePool.FrameSlots.PutRefused` | driver/odl_tb5_ring_dma.c:2294-2295 | a refused slot goes back and the repost ends |
| `FramePool.FrameSlots.RepostAll` | driver/odl_tb5_ring_dma.c:2259-2306 | undisturbed, a repost made of those steps ends with the target met, the pool empty or the first refusal, and does not pass the target itself |
| `BatchPool.RunKeepsInv` | driver/odl_tb5_ring_dma.c:1396-1437 | in every run the free list holds exactly the free buffers, each once |
| `BatchPool.BufferSteps` | driver/odl_tb5_ring_dma.c:205-215 | a buffer is put back only with nothing of its batch outstanding and never twice; it is lost exactly by a refusal after all taken frames called back |
| `BatchPool.EarlyErrorReturns` | driver/odl_tb5_ring_dma.c:1949-1973 | an error before any frame of a batch was taken puts its buffer back at the end of the free list at once |
| `BatchPool.LossIsExact` | driver/odl_tb5_ring_dma.c:1949-1973 | a run has lost a buffer if and only if it contains such a late refusal |
| `BatchPool.AllBuffersReturn` | driver/odl_tb5_ring_dma.c:1419-1437 | without one, every buffer that is neither staged nor in flight is on the free list |
| `BatchPool.LateRejectionLosesTheBuffer` | driver/odl_tb5_ring_dma.c:1949-1973 | a batch of two whose first frame completes before the second is refused leaves a buffer no event can touch |
| `BatchPool.BatchBuffers.TakeBuffer` | driver/odl_tb5_ring_dma.c:1396-1417 | takes the oldest free buffer or reports none |
| `BatchPool.BatchBuffers.OnCallback` | driver/odl_tb5_ring_dma.c:205-215 | the last callback of a batch puts its buffer back |
| `BatchPool.BatchBuffers.SubmitBatch` | driver/odl_tb5_ring_dma.c:1949-1973 | the buffer is put back at once when the first frame is refused, else it stays with the frames taken, and the free list stays exact |
| `ScatterGather.CutCovers` | driver/odl_tb5_ring_dma.c:986-1034 | for every segment list and window the frames, joined, are exactly the window's bytes, each within one segment and one frame |
| `ScatterGather.CutCount` | driver/odl_tb5_ring_dma.c:986-1034 | their number is the per-segment rounding-up of the window |
| `ScatterGather.NeededIsLeast` | driver/odl_tb5_ring_dma.c:986-1034 | no sequence of frames within segments covers the window with fewer |
| `ScatterGather.SubmitSegment` | driver/odl_tb5_ring_dma.c:1003-1032 | the inner loop sends a segment's frames in order, up to the first refusal or the ring's depth |
| `ScatterGather.Submit` | driver/odl_tb5_ring_dma.c:986-1034 | succeeds if and only if the frames needed fit the ring and are all taken, and then carries the window exactly; out-of-space if and only if more are needed than the ring has and it takes as many as it has |
| `AdaptiveTx.DownshiftNeedsFourLows` | driver/odl_tb5_ring_dma.c:1660-1705 | in every run a return to latency mode follows four low loads in a row |
| `AdaptiveTx.LowsAreCounted` | driver/odl_tb5_ring_dma.c:1660-1705 | for any watermarks the counter stays below four and at least that many of the latest loads were low |
| `AdaptiveTx.CounterIsExact` | driver/odl_tb5_ring_dma.c:1660-1705 | at every legal depth the counter in throughput mode is the number of low loads in a row just seen |
| `AdaptiveTx.DownshiftIsExact` | driver/odl_tb5_ring_dma.c:1660-1705 | at every legal depth throughput mode is left exactly at the fourth low load in a row, a low load being a send of at most 64 KiB that finds fewer frames in use than a quarter of the ring and half of the pool less its reserve |
| `AdaptiveTx.UpshiftIsExact` | driver/odl_tb5_ring_dma.c:1660-1705 | latency mode is left exactly by a send of more than 64 KiB, or by a load that with the send's own frames exceeds three quarters of the ring or the pool less its reserve |
| `AdaptiveTx.LowIsNotHeavy` | driver/odl_tb5_ring_dma.c:645-655 | for every legal depth the watermarks leave no load both low and heavy, so modes do not flap |
| `AdaptiveTx.NoDownshiftWithReceivesPosted` | driver/odl_tb5_ring_dma.c:1660-1705 | with half the pool in use throughput mode is never left |
| `AdaptiveTx.TxAdaptive.Evaluate` | driver/odl_tb5_ring_dma.c:1660-1705 | one evaluation takes the specified step and answers latency whenever batching is not ready |
| `AdaptiveRace.AloneIsNext` | driver/odl_tb5_ring_dma.c:1660-1705 | the reads and writes of an evaluation that nothing interrupts make up one step of the reference |
| `AdaptiveRace.MovesAreJustified` | driver/odl_tb5_ring_dma.c:1660-1705 | however evaluations overlap, the mode is raised only for a heavy load and lowered only for a low one |
| `AdaptiveRace.DecisionsAreEarned` | driver/odl_tb5_ring_dma.c:1688-1692 | in every interleaving in which no clear falls between an evaluation's read of the counter and its write, every decision for latency mode follows four recorded low loads |
| `AdaptiveRace.UnearnedIff` | driver/odl_tb5_ring_dma.c:1688-1692 | after a clear in between, however the run goes on, the write decides for latency mode with fewer than four if and only if it had read three or more and fewer than three lows have been recorded by then |
| `AdaptiveRace.UnearnedDownshift` | driver/odl_tb5_ring_dma.c:1670-1692 | for every large and every low load there is a run that drops to latency mode one low load after a large message |
| `StreamCopy.CopyLines` | verbs/src/odl_tb5_verbs_qp.c:62-76 | whole aligned lines are copied and nothing else is written |
| `StreamCopy.WcStreamCopy` | verbs/src/odl_tb5_verbs_qp.c:83-108 | streams if and only if an aligned line fits, and then copies every byte, prefix and tail included; otherwise writes nothing |
| `StreamCopy.BounceCopy` | verbs/src/odl_tb5_verbs_qp.c:717-732 | the bounce buffer equals the caller's bytes whichever path ran |
| `Circular.PutAppends` | verbs/src/odl_tb5_verbs_qp.c:745-746 | a put on the wrapped array appends to the queue it represents and leaves its head alone |
| `Circular.PopDropsFirst` | verbs/src/odl_tb5_verbs_qp.c:300-304 | advancing the wrapped head removes exactly the oldest entry |
| `CompletionQueue.NothingDropped` | verbs/src/odl_tb5_verbs_cq.c:192-216 | while outstanding completions stay within the depth, what was polled followed by what is queued is what was posted, in order, none lost or doubled |
| `CompletionQueue.DropsAreExact` | verbs/src/odl_tb5_verbs_cq.c:196-202 | completions are dropped if and only if more are outstanding at some time than the depth |
| `CompletionQueue.ReportedDepth` | verbs/src/odl_tb5_verbs_cq.c:36-56 | the reported depth is at least the requested one if and only if that is below the maximum, and equal to it in the unclamped range; below that range the ring has the backlog's size, above it the maximum |
| `CompletionQueue.Cq.constructor` | verbs/src/odl_tb5_verbs_cq.c:36-56 | the queue starts empty and holds exactly the depth it reports |
| `CompletionQueue.Cq.Post` | verbs/src/odl_tb5_verbs_cq.c:192-216 | appends unless the reported depth is reached, and wakes once per arming |
| `CompletionQueue.Cq.Arm` | verbs/src/odl_tb5_verbs_cq.c:173-183 | arming changes no completion |
| `CompletionQueue.Cq.TakeUpTo` | verbs/src/odl_tb5_verbs_cq.c:135-145 | under the lock, the oldest completions, as many as there are up to the limit, and whether the ring is empty |
| `CompletionQueue.Cq.ReadEvent` | verbs/src/odl_tb5_verbs_cq.c:165-168 | the read leaves no event behind |
| `CompletionQueue.Cq.Poll` | verbs/src/odl_tb5_verbs_cq.c:122-171 | undisturbed, a poll returns those completions, leaves the rest, and resets the eventfd exactly when it has emptied the ring |
| `Wakeups.ReadLosesIff` | verbs/src/odl_tb5_verbs_cq.c:165-168 | in every run a read leaves a waiting completion without its wake-up if and only if an armed post came since the ring was last emptied, which is after the reading poll released its lock |
| `Wakeups.LonePollerLosesIff` | verbs/src/odl_tb5_verbs_cq.c:143-168 | with one poller: if and only if an armed post falls between the release of its lock and its read |
| `Wakeups.OnlyReadsLose` | verbs/src/odl_tb5_verbs_cq.c:192-216 | no post, arming or take ever loses one |
| `Wakeups.MissedIsWaiting` | verbs/src/odl_tb5_verbs_cq.c:207-212 | a completion whose post rang since the ring was last emptied is still waiting |
| `Wakeups.BellIsExact` | verbs/src/odl_tb5_verbs_cq.c:192-216 | the eventfd counts the armed posts since it was last read, and no more completions wait than the queue holds |
| `Wakeups.ReadsIfEmptied` | verbs/src/odl_tb5_verbs_cq.c:143-168 | a poll goes on to read the eventfd exactly if it has taken the last completion |
| `Wakeups.PromptReadIsSafe` | verbs/src/odl_tb5_verbs_cq.c:143-168 | a read at once after the release loses nothing |
| `Wakeups.WakeupLost` | verbs/src/odl_tb5_verbs_cq.c:143-168 | at every depth five steps leave a completion waiting with nothing to wake its caller |
| `SendQueue.StepKeepsCore` | verbs/src/odl_tb5_verbs_qp.c:205-310 | every poster or worker step keeps finished plus queued equal to accepted, with the worker on the head of the ring |
| `SendQueue.AcceptedIsLogged` | verbs/src/odl_tb5_verbs_qp.c:672-750 | in every run the requests taken are, list by list and in list order, the first of each list that fit, and each carries exactly the bytes its memory held when it was posted |
| `SendQueue.SendOrder` | verbs/src/odl_tb5_verbs_qp.c:645-750 | in every run requests finish in the order in which the callers listed them, retries and inline sends included |
| `SendQueue.InlineExactlyWhenDone` | verbs/src/odl_tb5_verbs_qp.c:636-672 | a list is sent by its poster exactly if the path is on, it is one host request of at most 4096 bytes, every earlier request has finished, and the stream takes it |
| `SendQueue.OutcomesAreExact` | verbs/src/odl_tb5_verbs_qp.c:218-278 | in every run the outcomes of the requests that are over are those the stream gave, in order: busy answers decide nothing, empty requests succeed |
| `SendQueue.PayloadSnapshot` | verbs/src/odl_tb5_verbs_qp.c:672-750 | with direct sending off, the wire carries one message for each request with memory that was sent, in posting order, under its id; for host memory it is byte for byte what the memory held when the request was posted, whatever callers write later |
| `SendQueue.OneCompletionEach` | verbs/src/odl_tb5_verbs_qp.c:280-310 | in every run the completions published, owed or held are one for each finished request, with its id, its outcome, and the length sent |
| `SendQueue.CompletionOrder` | verbs/src/odl_tb5_verbs_qp.c:280-310 | with the inline path off, completions come in posting order: the i-th has the id of the i-th request taken and its outcome and length |
| `SendQueue.AllCompleted` | verbs/src/odl_tb5_verbs_qp.c:280-310 | once nothing is queued or owed, the completions published are one for each request taken, with its id, outcome and length |
| `SendQueue.EveryRequestCanFinish` | verbs/src/odl_tb5_verbs_qp.c:205-310 | from every reachable state the worker and the posters can finish and report every request taken, without further requests |
| `SendQueue.CompletionsReachTheCaller` | verbs/src/odl_tb5_verbs_qp.c:306-308 | through a completion queue that is never overrun every finished request's completion is polled, waiting or about to come, once; an overrun one loses some |
| `SendQueue.SendRing.PostQueued` | verbs/src/odl_tb5_verbs_qp.c:672-750 | queues the longest prefix that the ring and memory allow, each with a private copy that equals its memory byte for byte, without touching what was queued |
| `SendQueue.SendRing.PeekHead` | verbs/src/odl_tb5_verbs_qp.c:205-216 | the worker copies the head and leaves it in place, barring the inline path |
| `SendQueue.SendRing.PopHead` | verbs/src/odl_tb5_verbs_qp.c:300-304 | retiring removes exactly the head |
| `RecvQueue.StepKeepsInv` | verbs/src/odl_tb5_verbs_qp.c:758-860 | every post, arrival or drain step keeps buffers, messages, bytes written and completions matched |
| `RecvQueue.PostedIsListed` | verbs/src/odl_tb5_verbs_qp.c:758-795 | in every run the buffers posted are, list by list and in list order, the non-empty ones of the longest prefix that fits |
| `RecvQueue.EndedIsAnswers` | verbs/src/odl_tb5_verbs_qp.c:799-860 | in every run the receives ended are those the drain answered, in order, with the outcomes it was given |
| `RecvQueue.ReceiveMatching` | verbs/src/odl_tb5_verbs_qp.c:799-860 | in every run the n-th completion is for the n-th non-empty buffer the callers listed, with its id and outcome; the message it used up is the next one no earlier receive had, and on success that message's first bytes landed in that buffer, cut to size, with its length and sender, whatever else failed |
| `RecvQueue.NoFailuresBefore` | verbs/src/odl_tb5_verbs_qp.c:799-860 | while no earlier receive has failed, the i-th completion is for the i-th message that arrived, and on success that message is the i-th to land |
| `RecvQueue.MessagesConserved` | verbs/src/odl_tb5_verbs_qp.c:799-860 | messages taken followed by those still waiting are those that arrived, whatever fails |
| `RecvQueue.EveryMessageCanLand` | verbs/src/odl_tb5_verbs_qp.c:799-860 | from every reachable state the drainer can by itself take every message or use up every buffer, with each receive reported |
| `RecvQueue.ReportedAt` | verbs/src/odl_tb5_verbs_qp.c:799-860 | completion i of a drain names buffer i, succeeds exactly if there was a message i that could be copied, and tells its sender and how much fitted |
| `RecvQueue.BusyChangesNothing` | verbs/src/odl_tb5_verbs_qp.c:799-860 | a drain that finds no message leaves the queue pair as it was |
| `RecvQueue.RecvRing.PostAll` | verbs/src/odl_tb5_verbs_qp.c:758-795 | appends, in list order, the non-empty requests of the longest prefix that fits, and reports how many requests that was |
| `RecvQueue.RecvRing.DrainOne` | verbs/src/odl_tb5_verbs_qp.c:807-856 | one turn uses up a buffer for a message, a failed copy or teardown, and nothing when nothing is there |
| `RecvQueue.RecvRing.Drain` | verbs/src/odl_tb5_verbs_qp.c:799-860 | as many buffers as there are messages, or all on teardown, oldest first, one completion each as far as the completion queue has room |
| `RecvQueue.RoomForAll` | verbs/src/odl_tb5_verbs_cq.c:196-205 | what a full queue drops is exactly what comes after it filled up |
| `EndToEnd.LosslessLink` | driver/odl_tb5_ring_dma.c:330-476 | a link that loses no frame delivers every message on the wire, in order |
| `EndToEnd.MessageLands` | verbs/src/odl_tb5_verbs_qp.c:799-860 | the i-th receive to complete, with none failed before, has the i-th message of the wire in the i-th buffer listed, cut to size, and reports that buffer's request, the length and the sender |
| `EndToEnd.BytesArrive` | verbs/src/odl_tb5_verbs_qp.c:672-860 | for every run of a sender and every run of a receiver joined by such a link, while no receive fails, the bytes that the i-th request sent named in memory when it was posted land one for one, cut to size, in the i-th buffer listed for receiving, and its completion names that buffer's request, sender and length |
| `RcclFraming.HeaderRoundTrip` | rccl/src/odl_tb5_plugin.c:474-499 | the four header bytes give back every non-negative int size |
| `RcclFraming.ReceiveFramed` | rccl/src/odl_tb5_plugin.c:495-552 | a receive succeeds with exactly the sender's bytes if and only if they fit, otherwise fails after draining exactly that transfer and storing nothing; either way the stream is at the next header |
| `RcclFraming.ClosedMidTransferFails` | rccl/src/odl_tb5_plugin.c:517-537 | a stream that closes before the announced bytes have all arrived fails the receive, whatever the size of its buffer |
| `RcclFraming.StoredFits` | rccl/src/odl_tb5_plugin.c:502-529 | on any stream whatever, a receive never stores more than the posted size |
| `RcclFraming.SessionAlignment` | rccl/src/odl_tb5_plugin.c:504-546 | for all whole sends and posted sizes, the results are owed send by send in order, and what remains on the wire is the framing of the sends not yet claimed |
| `RcclFraming.AlignedIffNoCut` | rccl/src/odl_tb5_plugin.c:478-491 | for all sends with any number of their messages accepted and any number of receives, every receive takes the messages of one send alone if and only if, among the sends the receives are for, nothing goes on the wire after one cut part-way |
| `RcclFraming.ReachedAreServed` | rccl/src/odl_tb5_plugin.c:478-546 | then the receives get exactly the sends that reached the wire whole, in order |
| `RcclFraming.ReceiveCut` | rccl/src/odl_tb5_plugin.c:517-537 | a receive of a cut send goes on into whatever follows it |
| `RcclFraming.CutSendSplices` | rccl/src/odl_tb5_plugin.c:478-537 | a send that lacks a last chunk of four bytes is received as a success with the next header in their place |
| `RcclFraming.RightBytesMisaligned` | rccl/src/odl_tb5_plugin.c:517-537 | a misaligned receive may by accident deliver the right bytes, so alignment is a matter of messages |
| `RcclFraming.OwedInOrder` | rccl/src/odl_tb5_plugin.c:559-581 | receive i is owed exactly send i, whichever others failed |
| `RcclFraming.ClosingFinishesAll` | rccl/src/odl_tb5_plugin.c:604-618 | whatever had been taken off the stream before it was closed, no request stays pending |
| `RcclFraming.Send` | rccl/src/odl_tb5_plugin.c:471-493 | puts exactly the framing on the wire, or on a refusal the prefix before it, and reports failure exactly then |
| `RcclFraming.Comm.StartRequest` | rccl/src/odl_tb5_plugin.c:623-648 | links a fresh request at the tail, in posting order, or leaves the list alone without memory |
| `RcclFraming.Comm.Close` | rccl/src/odl_tb5_plugin.c:613-616 | messages not yet taken are gone and later receives fail |
| `RcclFraming.Comm.Take` | rccl/src/odl_tb5_plugin.c:569-572 | unlinks the oldest request and keeps the list well formed |
| `RcclFraming.Comm.Drain` | rccl/src/odl_tb5_plugin.c:517-537 | the chunk loop collects the specified bytes into the buffer, or on overflow leaves the buffer untouched |
| `RcclFraming.Comm.Transfer` | rccl/src/odl_tb5_plugin.c:495-556 | one receive reports the specified flag and size, and changes only the front of the posted buffer |
| `RcclFraming.Comm.ServeOne` | rccl/src/odl_tb5_plugin.c:569-575 | one turn of the worker serves the oldest request and leaves the others' buffers alone |
| `RcclFraming.Comm.Serve` | rccl/src/odl_tb5_plugin.c:559-581 | the worker gives every request it can serve the result its place in the session owes it, and leaves the rest queued in order |

## Left out

- Teardown of a device, re-probing and suspend are not modelled.
- The restart worker waits for the connect worker; a connect worker queued again while a restart is under way is taken to start after it. Apple protocol mode is not modelled.
- Ping/pong link verification is one event with an arbitrary answer; its retries and timers are not modelled.
- `TxCompletion.TxMessage.SubmitBatch`: one undisturbed submission; callbacks between its steps are events of the state machine.
- `TxCompletion.TxMessage.FinishSending`: one undisturbed ending; callbacks between its steps are events of the state machine.
- `BatchPool.BatchBuffers.SubmitBatch`: one undisturbed submission; callbacks between its steps are events of the state machine.
- `TxCompletion.ReleasedExactlyOnce`: the completion test, two reads and an exchange, is one step.
- `FramePool.FrameSlots.RepostAll`: one undisturbed repost; steps of others between its own are events of the state machine. `odl_tb5_frame_pool_get_batch` has no caller and is left out.
- `AdaptiveTx.TxAdaptive.Evaluate`: one undisturbed evaluation; overlapping ones are in `AdaptiveRace`, where the load is read together with the mode.
- `AdaptiveTx.DownshiftIsExact`: runs of undisturbed evaluations, as are the other whole-run lemmas of `AdaptiveTx`; overlapping ones are in `AdaptiveRace`.
- `EndToEnd.BytesArrive`: host memory only, and no stream other than the two joined.
- `Assembly.LossDetectionIsExact`: one sender per destination stream, and every complete message finds room in the receive queue; `Assembly.RxStream.OnFrame` covers a full queue.
- `Wire.ReadsBack`: a frame whose length field exceeds what was received is classified apart; the driver does not test for it, and what it then copies is not modelled.
- `SendQueue.PayloadSnapshot`: with direct sending on only the order is proved, since caller memory is read at send time; contents of dma-bufs are not host bytes.
- `SendQueue.AcceptedIsLogged`: of a request that names more memory than its buffer has, only the place in the order is stated.
- `CompletionQueue.ReportedDepth`: a requested depth of INT_MAX is excluded, because its increment overflows a C int and has no defined result.
- `CompletionQueue.Cq.constructor`: excludes INT_MAX for the same reason.
- `RcclFraming.Comm.StartRequest`: a communicator carries one direction; the object models the receiving one, and sends are covered by `RcclFraming.Send`. Negative sizes are not modelled.
- `RcclFraming.Comm.Serve`: waiting and stopping are not modelled. Here, in `RecvQueue.RecvRing.Drain` and in `FramePool.FrameSlots.RepostAll` one turn of the loop is followed by the rest, where the source loops.
- Weak memory, lock implementation and sleeping are not modelled: each critical section is one step.
- The legacy double-buffer path and the character device: copies and argument checks around the transport, with no state of their own beyond it.
- The library wrappers, the command line, the daemon, the bridge and the tray: thin callers of the transport whose results are its return codes.
- Connection set-up, statistics and memory registration of the verbs and collectives layers: tables and counters that no property above depends on.
