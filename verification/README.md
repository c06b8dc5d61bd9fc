# hioload-ws in Dafny

A model of the hard parts of hioload-ws, with proofs for every input, every interleaving and every run.
`dafny verify dfyconfig.toml` checks the whole project.

**The lock-free queue.** `Mpmc` is the sequence-number protocol of the MPMC queue as one transition per
atomic load, compare-and-swap, data access and sequence store, with any number of threads stopped
anywhere. Its inductive invariant says which phase of which lap every cell is in; from it follow refinement
of a bounded FIFO queue, mutual exclusion on cells, the meaning of "full" and "empty" and lock-freedom of the
retry loops. `MpmcCalls` follows whole calls from their first step to their answer. `MpmcWords` runs the protocol on machine words and proves exactly which steps then differ from
counters that never wrap; `MpmcSleeper` is a run in which one does. `LockFreeQueue` is the same object over an
array, for calls that are not interrupted. `Spsc` is the single-producer ring with stale counter reads, refined
to a bounded FIFO queue, `SpscCalls` its whole calls and `SpscWords` the same ring on words. `Bits` has the rounding loops and the masks they
justify.

**The frame codec and the byte stream.** `Wire` fixes what the bytes of a frame mean (section 5.2 of
RFC 6455) and proves the decoder prefix-free, stable under extension and inverse to the encoder. `Codec`
has the three decoders and three encoders of the repository as imperative code against that meaning.
`Reassembly` proves that neither batching at the sender nor cutting by the transport changes what the
receiver decodes; `Connection` runs the receive and send loops of a connection and joins two of them;
`ZeroCopy` replays the receive loop on real arrays, where appends, in-place unmasking and delivered payloads
share memory. `SendRace` is SendFrame, Close and the send loop racing on their flags, and `SendCalls` what each
of their calls comes to.

**Ownership.** `Executor`, `SlabRace`, `EventLoop`, `Inbound` and `PoolManager` are state machines over the
steps of all goroutines involved; each proves, for every state of every run, that every task, buffer or event
is in exactly one place. `SlabCalls`, `ExecutorCalls`, `InboundCalls` and `EventDelivery` follow single calls and events through
those runs: what each comes to, at which moment inside it, and why. `Runs` says what a run of such a machine is, what it can still
reach and when one machine follows another. `InboundEnds` says which inbound buffers can still be delivered or
released. The executor is `ExecutorCrew`, `ExecutorTasks` and `Executor`, its results are in `ExecutorRuns`, `ExecutorFuture` and
`SubmitPanic`. `SlabPool` and `Sessions` are the objects behind a lock or used by one
goroutine, refined to simple books and to one flat map. Goroutines synchronise through the MPMC queue in
`Executor` and `SlabRace`; there it is taken as the FIFO queue that `Mpmc.Linearizable` proves it to be, with
refusals allowed where `Mpmc.FullMeansHeld` and `Mpmc.EmptyMeansUnpublished` allow them.

Where a natural claim is false of the code, the code is kept, a concrete run or input shows the failure, and
the exact condition is proved:

| claim | shown to fail by | condition |
|---|---|---|
| every accepted task is run | `ExecutorFuture.ShrinkStrandsATask`: shrinking retires queues with tasks in them | a task in a local queue can be run iff its worker was not told to stop, or is about to look into the queue and the task is first there (`ExecutorFuture.LocalTaskRunsIff`); one in the global queue always can (`ExecutorFuture.GlobalTaskRuns`) |
| Submit cannot panic | `ExecutorFuture.ShrinkMakesSubmitPanic`: the queue slice is read twice without the mutex | it panics iff the slice was cut to its index or below since the first read and has not grown past it again (`SubmitPanic.SubmitPanicsIff`) |
| InUse counts the buffers in use | `SlabPool.ReuseIsNotCounted`: a Get that reuses a buffer is not counted | iff as many buffers were dropped as reused (`SlabRace.QuiescentStats`) |
| the node counts add up to TotalAlloc | `SlabRace.RacingFirstGetsLoseACount`: two first Gets each store a map | iff at most one Get found no map (`SlabRace.NumaStats`) |
| a pooled buffer has the length of its class | `SlabPool.SliceComesBackShort`: a slice goes back as it is | iff it was allocated for this Get or was put back whole (`SlabRace.GetGivesWhatWasPut`) |
| inbound messages are read in order | `Inbound.ThirdOvertakesSecond`: the fast path overtakes the overflow queue | two buffers are read in the wrong order iff one took the fast path while the other waited behind the worker (`Inbound.ReorderedIffPassed`) |
| every inbound buffer is delivered or released | `InboundEnds.WorkerStrandsThird`, `InboundEnds.CloseStrandsTwo`: the worker leaves with buffers in the overflow queue, or is blocked by one that came in after Close's drain | one can be iff it is neither in the overflow queue behind a worker that has left or is blocked for good, nor in incoming after the drain with as many buffers before it as there are readers, or more (`InboundEnds.SettlesIffNotLost`) |
| the decoder answers every input | `Wire.NegativeLengthPanics`: a length with its top bit set is negative, and slicing with it panics | iff there is no whole eight-byte length with its top bit set, with its mask key if it has one (`Wire.DecodeFailsIff`) |
| sending a decoded frame on gives its bytes | `Reassembly.ResendingChanges`: reserved bits, overlong lengths and other mask keys are accepted | iff the reserved bits are clear, the length is in its shortest form and a mask key is the encoder's own (`Reassembly.ResentExact`) |
| direct mode hands over every decoded payload | `Connection.DirectDropsAGoodFrame`, `Connection.DirectCutsAPayload`: a later error drops the batch, and a small buffer cuts a payload | iff no error or panic follows in the same read and every payload fits its buffer (`Connection.WSConnection.RecvDirect`) |
| at most one send loop runs | `SendRace.StartAfterSendRunsTwo`: Start starts one without looking | iff no SendFrame won the running flag before Start (`SendRace.StartIsSafeIff`) |
| the single-producer ring survives wrapped counters | `SpscWords.RingDies`: once tail has wrapped ahead of head no Dequeue ever succeeds again | a step on words is the ring's iff it is not a Dequeue that tail has wrapped ahead of (`SpscWords.FollowsIff`) |
| so does the MPMC queue | `MpmcSleeper.SleeperOverwrites`: a thread that sleeps until the counters have gone once round writes over an unread item | a step on words is the queue's iff its test comes out the same (`MpmcWords.StepMatchesIff`), and only a thread that slept through about half the words can fail it (`MpmcWords.OnlyLaggardsMisjudge`) |
| the rounding loop of the queue ends | `Bits.ShiftLoopHangs`: a capacity of 2^62 + 1 is never reached | iff the capacity is at most 2^(w-2) for ints of w bits (`Bits.ShiftLoopEndsIff`) |

## Model

| member | source | states |
|---|---|---|
| `Mpmc.StepInv` | core/concurrency/lock_free_queue.go:60-104 | every atomic step of every thread keeps: head <= tail <= head+N, each cell's sequence says its phase and lap, each held position has one holder, each returned value is the one enqueued at its position |
| `Mpmc.RunInv` | core/concurrency/lock_free_queue.go:60-104 | the invariant holds in every state of every interleaving from the constructor on |
| `Mpmc.RunExtends` | core/concurrency/lock_free_queue.go:60-104 | along a run the two logs only grow: a position is won once on each side and keeps its value |
| `Mpmc.StepRefines` | core/concurrency/lock_free_queue.go:60-104 | every atomic step of every thread is one step of a FIFO queue of capacity N or none: a put at a winning swap on tail, a get at one on head, a refusal only when full or empty or with an operation of the other kind in flight |
| `Mpmc.Linearizable` | core/concurrency/lock_free_queue.go:60-104 | every interleaving is a history of that queue, and what a get takes off it is what its caller is later given |
| `MpmcCalls.OneEventPerCall` | core/concurrency/lock_free_queue.go:60-104 | in every interleaving each finished call is exactly one operation of that queue at one of its own steps: true is the put of the value it was called with, full a refused put, an item the get of that item, empty a refused get |
| `Mpmc.Fifo` | core/concurrency/lock_free_queue.go:60-104 | in every run the value returned for position p is the value of the enqueue that won p, so dequeues in swap order are a prefix of enqueues in swap order |
| `Mpmc.Quiescent` | core/concurrency/lock_free_queue.go:60-104 | with no operation in flight the cells between head and tail hold exactly the values enqueued and not returned |
| `Mpmc.HoldersDiffer` | core/concurrency/lock_free_queue.go:67-102 | two threads never hold the same cell at once |
| `Mpmc.HeldCellIsPrivate` | core/concurrency/lock_free_queue.go:67-102 | from a winning swap to the matching sequence store no step of another thread writes the cell, and none reads its data |
| `Mpmc.StepFootprint` | core/concurrency/lock_free_queue.go:60-104 | a step moves its own thread only and writes at most the one cell that thread holds |
| `Mpmc.RetryMeansProgress` | core/concurrency/lock_free_queue.go:61-103 | going round a loop means the shared counter has moved since it was read |
| `Mpmc.RetriesBounded` | core/concurrency/lock_free_queue.go:61-103 | a call retries no more often than positions were won by others since it began |
| `Mpmc.FullMeansHeld` | core/concurrency/lock_free_queue.go:63-79 | Enqueue reports full iff its position is the tail and the cell still belongs to the lap before, unread or being read |
| `Mpmc.EmptyMeansUnpublished` | core/concurrency/lock_free_queue.go:85-102 | Dequeue reports empty iff its position is the head and is not published |
| `Mpmc.GivesUpIffBehind` | core/concurrency/lock_free_queue.go:63-103 | the step after gives up iff the sequence number loaded is behind; with any other it wins or goes round again |
| `Mpmc.LoneRefusals` | core/concurrency/lock_free_queue.go:61-103 | with nobody else inside, full means exactly N items and empty exactly none |
| `MpmcWords.StepMatchesIff` | core/concurrency/lock_free_queue.go:60-104 | with counters, sequence numbers, masks, signed differences and swaps on words, every step of every thread is its step on counters that never wrap iff its test and swap come out the same |
| `MpmcWords.OnlyLaggardsMisjudge` | core/concurrency/lock_free_queue.go:64-89 | that they do not takes a counter that moved on by about half the words while the thread held its position |
| `MpmcWords.WordsFollow` | core/concurrency/lock_free_queue.go:60-104 | every run on words, of any length, is an interleaving of `Mpmc` step by step, up to the first test misjudged by such a thread |
| `MpmcSleeper.SleeperOverwrites` | core/concurrency/lock_free_queue.go:60-80 | for every word length and every size below half the words a run on words in which a sleeping Enqueue wins a position of a full queue and writes over its oldest item |
| `Bits.WrappedDifference` | core/concurrency/lock_free_queue.go:64-89 | the signed difference of wrapped counters is the true one iff that lies within half the range |
| `Bits.RoundByShift` | core/concurrency/lock_free_queue.go:31-44 | the shift loop on a signed word gives the least power of two that is at least the capacity and 2, and does not end iff the capacity is above 2^(w-2) |
| `Bits.ShiftLoopEndsIff` | core/concurrency/lock_free_queue.go:36-39 | doubling a signed word reaches the capacity iff that is at most 2^(w-2); beyond, the loop never ends |
| `Bits.ShiftedDoubles` | core/concurrency/lock_free_queue.go:38-38 | the values the loop goes through are signed doublings of 1, the bit that leaves the word dropped |
| `Bits.RoundBySmear64` | core/concurrency/ring.go:33-46 | the 64-bit smear gives the least power of two at least the size, and says where it wraps |
| `Bits.NextPowerOfTwo32` | internal/session/store.go:117-126 | the 32-bit smear gives the least power of two for 1 .. 2^31 and 0 for every other word |
| `Bits.CeilPow2Least` | core/concurrency/ring.go:33-46 | the specification value is a power of two, holds the size, and no smaller one does |
| `Bits.AndMask` | core/concurrency/lock_free_queue.go:62-87 | index & mask is the remainder by the size, for every index |
| `LockFreeQueue.NewQueue` | core/concurrency/lock_free_queue.go:31-50 | an empty queue whose size is the capacity rounded up, or none iff the rounding does not end |
| `LockFreeQueue.Queue.Enqueue` | core/concurrency/lock_free_queue.go:60-80 | appends iff not full, else changes nothing |
| `LockFreeQueue.Queue.Dequeue` | core/concurrency/lock_free_queue.go:83-104 | takes the oldest item iff there is one, else changes nothing |
| `Spsc.StepRefines` | internal/concurrency/ring.go:43-65 | every load, write and publish step is one step of a bounded FIFO queue or none |
| `Spsc.RefusalsAreHonest` | internal/concurrency/ring.go:43-65 | a call refuses iff the queue was full, or empty, at the instant of its deciding load, however stale that load has become |
| `Spsc.Linearizable` | internal/concurrency/ring.go:43-65 | every interleaving is a history of a bounded FIFO queue; `SpscWords.WordsFollow` carries it to words |
| `SpscCalls.EnqueueIsOneEvent` | internal/concurrency/ring.go:43-52 | in every interleaving a finished Enqueue is exactly one operation of the queue inside the call: the put of its own item if it stored it, else a refused put |
| `SpscCalls.DequeueIsOneEvent` | internal/concurrency/ring.go:55-65 | a finished Dequeue is exactly one: the get of the item it returns, or a refused get |
| `SpscWords.FollowsIff` | internal/concurrency/ring.go:43-65 | with counters on words every step is the ring's iff it is not a Dequeue with an item there and tail wrapped ahead of the head it read |
| `SpscWords.WordsFollow` | internal/concurrency/ring.go:43-65 | every run on words is a run of the ring step by step up to the first such Dequeue, which refuses although there is an item |
| `SpscWords.GivesOutFewerThanWords` | internal/concurrency/ring.go:55-65 | however long it runs, the ring gives out fewer items than there are words |
| `SpscWords.RingDies` | internal/concurrency/ring.go:43-65 | for every size and word length a run after which the ring holds an item and no Dequeue ever succeeds again |
| `Wire.DecodeStable` | protocol/frame_codec.go:26-84 | a frame or an error survives every extension of the input |
| `Wire.DecodePrefixFree` | protocol/frame_codec.go:26-84 | every proper prefix of a frame's bytes is incomplete |
| `Wire.DecodeFailsIff` | protocol/frame_codec.go:36-69 | the decoder errs iff a whole length field of eight bytes has its top bit clear and is over the limit, and panics iff it has its top bit set and the mask key, if there is one, is there |
| `Wire.NegativeLengthPanics` | protocol/frame_codec.go:43-69 | ten bytes on which it panics |
| `Wire.RoundTrip` | protocol/frame_codec.go:26-153 | decoding an encoded frame, whatever follows it, gives the frame back and consumes exactly its bytes |
| `Wire.MaskTwice` | protocol/frame.go:128-132 | masking twice with one key is the identity |
| `Bits.BitOfXor` | protocol/frame.go:128-132 | bit i of the exclusive or is one iff the two bits differ |
| `Wire.MaskFlips` | protocol/frame.go:128-132 | byte by byte, a bit of the masked payload is the payload's, flipped exactly where key byte i mod 4 has a one |
| `Wire.HelloExamples` | protocol/frame_codec.go:26-153 | the examples of section 5.7 of RFC 6455: 81 05 48 65 6c 6c 6f and 81 85 37 fa 21 3d 7f 9f 4d 51 58 decode to "Hello", and encoding it with and without that key gives those bytes |
| `Wire.LongExamples` | protocol/frame_codec.go:36-49 | the headers 82 7e 01 00 and 82 7f 00 00 00 00 00 01 00 00 announce 256 and 65536 bytes, decoding and encoding |
| `Wire.ByteFields` | protocol/frame_codec.go:30-33 | the bit operations on header bytes are the arithmetic the model uses |
| `Codec.UnmaskInPlace` | protocol/frame.go:128-132 | the range becomes its masked contents and no other byte of the array changes |
| `Codec.DecodeInPlace` | protocol/frame_codec.go:26-84 | answers as `Wire.Decode`; writes only the payload of a whole frame, and nothing at all otherwise |
| `Codec.CoreDecode` | core/protocol/frame_codec.go:22-82 | accepts exactly what the in-place decoder accepts, with the same frame, and fails on size exactly when it does |
| `Codec.StreamDecode` | protocol/frame.go:31-81 | exactly what a decoder without a size limit makes of the stream, with the reader right after the frame or at the end; the in-place decoder's frame wherever that finds one, and its answer on incomplete input and negative lengths |
| `Codec.EncodeToBuffer` | protocol/frame_codec.go:94-153 | for every frame: the reference layout of the announced length and the payload, a size error iff the length is over the limit, a panic iff masking runs past the payload |
| `Codec.CoreEncode` | core/protocol/frame_codec.go:86-113 | for every frame: the same layout, always final and unmasked, in a buffer of the announced size; a panic iff that is negative |
| `Codec.StreamEncode` | protocol/frame.go:84-125 | the same layout at the front of the caller's buffer, cut where it ends; a panic iff header and key do not fit; the caller's payload is left masked |
| `Codec.EncodersAgree` | protocol/frame_codec.go:94-153 | the three encoders give identical bytes for every final unmasked frame with opcode below 16 |
| `Reassembly.DecodeIsPrefixStable` | protocol/frame_codec.go:26-84 | the decoder has what the drain loops need, among it at least two bytes consumed per frame |
| `Reassembly.ResentExact` | protocol/frame_codec.go:26-153 | encoding a decoded frame for sending gives the bytes it came from iff the reserved bits were clear, the length was in shortest form and a mask key was the encoder's constant |
| `Reassembly.ResendingChanges` | protocol/frame_codec.go:26-153 | three byte strings, one against each part of that condition, that decode and are not sent on as they came |
| `Reassembly.DrainAppend` | protocol/connection.go:283-337 | draining a stream and then the rest with more bytes is draining the whole |
| `Reassembly.FeedIsDrain` | protocol/connection.go:283-337 | however the stream is cut, the loop delivers the frames of the uncut stream, stops for the same reason and keeps the same bytes |
| `Reassembly.BatchingDoesNotMatter` | protocol/connection.go:349-388 | the bytes on the wire do not depend on how frames were batched |
| `Reassembly.EndToEnd` | protocol/connection.go:283-388 | for every list of sendable frames, every batching and every cutting, the receiver decodes exactly that list and ends with an empty buffer |
| `Connection.WSConnection.HandleControl` | protocol/connection.go:394-420 | on an open connection a Ping (opcode 9) queues exactly one frame, final, unmasked, opcode 10, with its length and payload, a Close (8) queues itself and closes; a Pong, other frames and everything on a closed connection queue nothing |
| `Connection.RepliesAnswer` | protocol/connection.go:394-420 | over any list of frames the replies are, one for one and in order, the answers to the Pings before the first Close and to that Close, each with the payload it answers |
| `Connection.DataDelivers` | protocol/connection.go:287-336 | over any list of frames the inbox gets exactly the frames that are no control frames, in order |
| `Connection.WSConnection.ReceiveOnce` | protocol/connection.go:283-337 | one round dispatches the frames of the buffered bytes in order, all of them unless a Close comes first |
| `Connection.WSConnection.RecvLoop` | protocol/connection.go:265-340 | over any sequence of reads, broken off by a read error or not, with another goroutine's Close before any frame or none: the inbox, and the handler if there is one, gain exactly the data frames dispatched, in order, and the outbox exactly one answer, with its payload, for every Ping dispatched before the first Close or the outside one, in order, and that Close; all frames of the stream unless a Close came; and the connection ends closed iff a Close, a decode error or such a break was met |
| `Connection.WSConnection.RecvDirect` | protocol/connection.go:126-176 | direct mode returns every payload cut to its own pool buffer, or the error or panic that follows; it returns every payload whole iff none follows and every payload fits |
| `Connection.DirectDropsAGoodFrame` | protocol/connection.go:140-145 | a good frame before one over the limit in the same read is decoded and not returned |
| `Connection.DirectCutsAPayload` | protocol/connection.go:161-167 | an empty pool buffer returns an empty payload in place of one byte |
| `Connection.WSConnection.SendFrame` | protocol/connection.go:181-222 | an uninterrupted call queues the frame, whatever length it announces, iff the connection is open, and starts the send loop iff it was not running, so at most one is ever started |
| `Connection.WSConnection.SendBatch` | protocol/connection.go:349-388 | a batch goes to the wire whole and in order; else nothing of it does if a frame cannot be encoded, and any front of the bytes if the send failed; the connection is then closed, or the process crashes iff the first such frame is masked and announces more bytes than it has |
| `Connection.AllEncoded` | protocol/connection.go:364-375 | if each of the frames can be encoded, the batch is the encodings of all of them, one after the other |
| `Connection.FirstFailure` | protocol/connection.go:364-375 | else what comes of it is what comes of the first frame that cannot be |
| `Connection.WSConnection.SendLoop` | protocol/connection.go:344-390 | whatever the batch sizes and failures, the wire gets a front of the encodings of the outbox in order, none beyond the first frame that cannot be encoded, and all of them unless there is one or a send fails; a crash means that this frame panics |
| `Connection.Relay` | protocol/connection.go:265-390 | two connections joined by a transport that cuts as it likes: everything queued at one arrives at the other once and in order |
| `ZeroCopy.ReadBuffer.Append` | protocol/connection.go:283-286 | append, in place or moving, adds the bytes and leaves every delivered payload as it was |
| `ZeroCopy.ReadBuffer.Next` | protocol/connection.go:287-306 | decoding in place delivers a view of the payload and touches no payload delivered before |
| `ZeroCopy.ReadBuffer.Round` | protocol/connection.go:283-337 | a round delivers the payloads of the stream's frames and keeps all earlier ones intact |
| `ZeroCopy.ReadBuffer.ReceiveAll` | protocol/connection.go:265-340 | after any number of rounds every payload ever delivered still reads as it did, and they are those of the frames of the uncut stream, in order |
| `SendRace.StepInv` | protocol/connection.go:181-390 | every flag access, channel operation and transport call keeps the start, close and order invariants |
| `SendRace.RunIsSafe` | protocol/connection.go:181-390 | in every run: at most one send loop, `done` and the transport closed at most once and only after the flag, and the wire is a prefix of the accepted frames with the rest accounted for in order |
| `SendCalls.SendQueuesOrIsClosed` | protocol/connection.go:181-201 | in every run a SendFrame that returns has put the frame it was called with, and nothing else, at the end of the accepted ones with its last step, or the connection was closed and the call changed nothing |
| `SendCalls.CloseCloses` | protocol/connection.go:238-244 | when a Close returns the connection is closed, and unless the winner of the flag is still at it, `done` and the transport were closed once each |
| `SendCalls.RunEndsClosed` | protocol/connection.go:344-388 | in every run the loop has stopped only on a closed connection, and a frame is lost only on one that is closed or whose loop is about to close it |
| `SendCalls.BatchIsAllThereIs` | protocol/connection.go:353-363 | a batch is sent only when it has 32 frames or the outbox is empty |
| `SendCalls.CallerWaitsIff` | protocol/connection.go:194-201 | a call waits iff it is a SendFrame at its select with no room in the outbox, no loop to hand over to and `done` not closed |
| `SendCalls.LoopWaitsIff` | protocol/connection.go:344-388 | the loop waits iff the outbox is empty and `done` not closed, or it has stopped |
| `SendCalls.LoopCanStop` | protocol/connection.go:344-388 | from every state of every run in which `done` is closed the loop's own steps can stop it |
| `SendRace.LateSendDoesNothing` | protocol/connection.go:181-184 | a SendFrame begun after the closed flag was set returns without enqueuing, starting a loop or writing |
| `SendRace.OnlyTheLoopWrites` | protocol/connection.go:203-222 | without Start the direct branch of SendFrame is never taken: only the loop writes, one batch of 1 to 32 frames at a time, or a front of one when its send fails |
| `SendRace.StartIsSafeIff` | protocol/connection.go:225-230 | calling Start in any state of any run keeps the invariants iff no SendFrame has won the running flag; otherwise there are two loops |
| `SendRace.StartAfterSendRunsTwo` | protocol/connection.go:186-230 | a run in which a SendFrame has started its loop and Start starts another |
| `Executor.StepInv` | core/concurrency/executor.go:63-177 | every step of submitters, workers and manager keeps the crew and task invariants |
| `ExecutorRuns.CrewIsSound` | core/concurrency/executor.go:88-119 | in every run no stop channel is closed twice, there is always a queue, and with the mutex free worker i has id i, owns queue i, runs and was not told to stop |
| `ExecutorRuns.EachTaskInOnePlace` | core/concurrency/executor.go:63-177 | a task is somewhere iff it was accepted, then in exactly one queue, hand or the done list, and once |
| `ExecutorRuns.StepMoves` | core/concurrency/executor.go:150-177 | the only moves of a task: into a queue, from a queue into the hand of one worker (a local queue's own), from there to done |
| `ExecutorRuns.QueuesAreFifo` | core/concurrency/executor.go:63-177 | a submission only adds at the end of a queue, and the only removal is of the first task, by a worker that then holds it |
| `ExecutorCalls.SubmitComesTo` | core/concurrency/executor.go:63-79 | in every run a Submit puts its task at the end of a local queue that was in the slice during the call, or after such a queue refused at the end of the global queue, or nowhere, because it panicked or the global queue was full; the caller's answer tells which |
| `ExecutorCalls.ResizeReaches` | core/concurrency/executor.go:88-119 | whenever the manager is through with a Resize there are exactly as many workers and queues as it asked for, or one |
| `ExecutorCalls.ToldTakesAtMostOne` | core/concurrency/executor.go:158-176 | in every run a worker that was told to stop takes at most one more task |
| `ExecutorCalls.ToldGoesRoundOnlyAfterATask` | core/concurrency/executor.go:158-176 | and it goes round its loop again only after running one |
| `ExecutorCalls.ToldCanLeave` | core/concurrency/executor.go:150-177 | from every state its own steps alone let it leave, so the manager's wait can end |
| `ExecutorRuns.RetiredQueueIsStranded` | core/concurrency/executor.go:105-116 | once a worker has exited its queue only grows, for the rest of the run |
| `ExecutorFuture.LocalTaskRunsIff` | core/concurrency/executor.go:105-177 | in every state of every run, resize or not, a task in a local queue can still be run iff the queue's worker has not been told to stop, or is about to look into its queue and the task is the first there |
| `ExecutorFuture.IdleLocalTaskRunsIff` | core/concurrency/executor.go:105-177 | with the mutex free that is iff the worker is in the slice |
| `ExecutorFuture.GlobalTaskRuns` | core/concurrency/executor.go:88-177 | a task in the global queue can be run in every state of every run, resize or not |
| `ExecutorFuture.ShrinkStrandsATask` | core/concurrency/executor.go:105-116 | a run in which a resize leaves an accepted task in a retired queue, where it can never be run |
| `SubmitPanic.SubmitPanicsIff` | core/concurrency/executor.go:67-68 | in every run the second read of the slice panics iff since the first read it was cut to the index or below and has not grown past it again; else it finds a queue |
| `SubmitPanic.NoShrinkNoPanic` | core/concurrency/executor.go:67-119 | with no shrink between the two reads Submit does not panic |
| `ExecutorFuture.ShrinkMakesSubmitPanic` | core/concurrency/executor.go:67-116 | a run in which it does |
| `ExecutorRuns.NobodyIsStuck` | core/concurrency/executor.go:63-177 | a submitter always has a next step, so the length it divides by is never zero; so has every worker that has not left |
| `ExecutorCrew.ManagerProgress` | core/concurrency/executor.go:88-119 | the manager can go on unless it waits for a worker it has told to stop |
| `Buffers.SliceIsPart` | api/buffer.go:36-46 | a slice is the same part of the same bytes, or empty when out of range, and keeps pool, class and node |
| `Buffers.SliceOfSlice` | api/buffer.go:36-46 | slicing twice is slicing once |
| `SlabRace.StepInv` | pool/slab_pool.go:57-91 | every step of racing Gets, Puts and slices keeps ownership, branding and the books |
| `SlabRace.EachBufferInOnePlace` | pool/slab_pool.go:57-91 | in every run each allocated buffer is in exactly one of queue, a Get, a user's hands, a Put or released |
| `SlabRace.NeverHandedOutTwice` | pool/slab_pool.go:57-78 | Get hands out no buffer that another user has or that was released, and only ones of this pool and class |
| `SlabRace.GetGivesWhatWasPut` | pool/slab_pool.go:57-91 | in every run a Get gives a buffer it allocated, of full length, or exactly the value its last Put brought; so full length iff allocated or put back whole |
| `SlabCalls.GetComesTo` | pool/slab_pool.go:57-78 | in every run a Get gives the buffer that was the oldest free one at a moment inside the call and was taken off then, or a new block for the node asked for, counted for that node, after the queue was empty or a Put in flight at such a moment |
| `SlabCalls.PutComesTo` | pool/slab_pool.go:80-91 | a Put adds the buffer as it is at the end of the queue at a moment inside the call and counts it, or drops it with the queue full or a Get in flight |
| `SlabCalls.NobodyWaits` | pool/slab_pool.go:57-91 | no Get and no Put is ever held up |
| `SlabRace.WholePutsGiveWholeGets` | pool/slab_pool.go:57-91 | if no shortened buffer is ever put, every Get gives full length |
| `SlabRace.QuiescentStats` | pool/slab_pool.go:93-112 | with no call in flight: queue length is frees less reuses, TotalAlloc counts the allocations, InUse is in use plus dropped less reuses, right iff dropped equals reuses |
| `SlabRace.NumaStats` | pool/slab_pool.go:35-78 | with no call in flight all node counts ever recorded add up to TotalAlloc, and the visible ones do iff at most one Get found no map and stored one |
| `SlabRace.WarmPoolCountsExactly` | pool/slab_pool.go:69-76 | once the map is stored and no Get is about to store another, the visible counts are exact for the rest of the run |
| `SlabRace.RacingFirstGetsLoseACount` | pool/slab_pool.go:69-76 | a run of two first Gets after which TotalAlloc is 2 and the visible counts add up to 1 |
| `SlabPool.SlabPool.Get` | pool/slab_pool.go:57-78 | uninterrupted: the oldest free buffer as it came back, or a new one of full length; never one in use |
| `SlabPool.SlabPool.Put` | pool/slab_pool.go:80-91 | uninterrupted: to the back of the queue and counted, or dropped iff the queue is full |
| `SlabPool.SlabPool.GetStats` | pool/slab_pool.go:93-112 | uninterrupted: the node counts add up to TotalAlloc, and InUse is right iff as many were dropped as reused |
| `SlabPool.ReuseIsNotCounted` | pool/slab_pool.go:57-112 | after Get, Put, Get one buffer is in use and InUse is 0 |
| `SlabPool.SliceComesBackShort` | pool/slab_pool.go:57-91 | a buffer cut to n bytes and released is handed out with n bytes |
| `PoolManager.SizeClassUpperBound` | pool/bufferpool.go:31-38 | the least class that holds the size, or the biggest |
| `PoolManager.OnePoolPerClass` | pool/bufferpool.go:79-94 | in every interleaving calls get the same pool iff they ask for the same class, and no pool is created in vain |
| `PoolManager.CallGetsItsClass` | pool/bufferpool.go:79-94 | a call is answered with the pool the map then has for the class it asked for, and no pool already there is replaced |
| `PoolManager.OnlyWhatWasAsked` | pool/bufferpool.go:79-94 | a pool is created only for a class that some call asked for |
| `EventLoop.StepInv` | internal/concurrency/eventloop.go:60-156 | every step of Run, Push, Register, Unregister and Stop keeps the invariants |
| `EventLoop.RunIsSafe` | internal/concurrency/eventloop.go:60-156 | in every run: accepted = delivered ++ batch ++ inbox in order; each event once to each handler of one stored slice, the same for its batch; batch and inbox in bounds; the backoff is 2^n after n timeouts since its reset, up to its maximum |
| `EventLoop.IdleMeansDelivered` | internal/concurrency/eventloop.go:114-139 | when Run waits on an empty inbox every accepted event was given to all its handlers |
| `EventDelivery.DeliveredFresh` | internal/concurrency/eventloop.go:99-139 | in every run the i-th event accepted is the i-th delivered, to the slice in place when Run loaded it, at a moment after its Push |
| `EventDelivery.CurrentIsRegistered` | internal/concurrency/eventloop.go:60-82 | in every run the slice in place holds a handler as often as it was registered since it was last unregistered |
| `EventDelivery.CalledAsRegistered` | internal/concurrency/eventloop.go:60-139 | the calls made for an event are all for it, and a handler is among them as often as it was registered at a moment between its Push and its delivery |
| `EventDelivery.SteadyHandlerIsCalled` | internal/concurrency/eventloop.go:60-139 | a handler neither registered nor unregistered between the two is called for the event exactly once per registration before it |
| `EventDelivery.RefusedOnlyAfterStop` | internal/concurrency/eventloop.go:149-156 | a Push is refused only after Stop, and then changes nothing |
| `EventDelivery.PushWaitsIff` | internal/concurrency/eventloop.go:149-156 | a Push waits iff the inbox is full and the loop not stopped |
| `EventDelivery.AllCanBeDelivered` | internal/concurrency/eventloop.go:86-140 | from every state of every run, unless Run has returned, its own steps alone can deliver every accepted event |
| `EventDelivery.ExitsOnlyAfterStop` | internal/concurrency/eventloop.go:86-140 | Run returns only after Stop |
| `EventDelivery.WaitsOnlyAfterLooking` | internal/concurrency/eventloop.go:99-127 | Run begins to wait only after a look at the inbox that found nothing, and looks again after every wait |
| `EventLoop.CopyAppend` | internal/concurrency/eventloop.go:60-68 | the new slice is the old one with the handler at the end |
| `EventLoop.Filter` | internal/concurrency/eventloop.go:71-82 | the filtering loop keeps exactly the other handlers, in order |
| `EventLoop.WithoutRemovesAll` | internal/concurrency/eventloop.go:71-82 | unregistering removes every occurrence of the handler and no other |
| `EventLoop.WithoutUndoes` | internal/concurrency/eventloop.go:60-82 | unregistering undoes registering |
| `Inbound.EachBufferInOnePlace` | highlevel/conn.go:442-551 | in every run each inbound buffer is in exactly one of incoming, overflow, the worker's hand, its producer's call, delivered, released or dropped |
| `Inbound.DeliveredIsFinal` | highlevel/conn.go:260-551 | what was delivered is never released by the queue, and what was released never delivered, now or later |
| `InboundCalls.EnqueueComesTo` | highlevel/conn.go:442-467 | in every run a call adds its buffer at the end of incoming, which had room, or, after incoming was full during the call, at the end of the overflow queue with the worker started, or releases it because there is no queue or `done` is closed |
| `InboundCalls.NothingIsReleasedWhileOpen` | highlevel/conn.go:442-551 | while a connection with a queue is open and `done` not closed no buffer that arrived was released |
| `InboundCalls.TakenFromTheFront` | highlevel/conn.go:260-281 | incoming is emptied from its front only: a reader delivers a buffer with data, Close releases it, and either drops one without |
| `InboundCalls.CloseDrains` | highlevel/conn.go:260-285 | Close leaves its drain only with incoming empty, and when it is through `done` is closed |
| `InboundCalls.WaitsIff` | highlevel/conn.go:462-466 | a call waits iff the overflow queue is full and `done` not closed |
| `InboundCalls.WorkerWaitsIff` | highlevel/conn.go:478-505 | the worker waits iff `done` is not closed and it has nothing to take, or no room for what it holds |
| `Inbound.ReorderedIffPassed` | highlevel/conn.go:442-551 | in every state of every run, of two buffers taken out of incoming the later had entered first iff the other took the fast path while it waited behind the worker |
| `Inbound.OrderIffNotOvertaken` | highlevel/conn.go:442-506 | until the worker releases something, all buffers come out in the order they entered iff none took the fast path while another waited behind the worker |
| `Inbound.ThirdOvertakesSecond` | highlevel/conn.go:453-466 | a run in which the third buffer overtakes the second |
| `InboundEnds.SettlesIffNotLost` | highlevel/conn.go:148-551 | in every state of every run an inbound buffer can still be delivered, released or dropped iff it is not lost: behind a worker that has left or is blocked for good, or in incoming after Close's drain behind too many buffers for the readers left |
| `InboundEnds.OverflowSettlesIff` | highlevel/conn.go:470-506 | in every state of every run a buffer in the overflow queue can still be delivered or released iff the worker has not left and does not hold a buffer before a full incoming with the drain over and no reader past the closed flag |
| `InboundEnds.IncomingSettlesIff` | highlevel/conn.go:148-281 | a buffer in incoming can still be delivered, released or dropped iff Close's drain is not over or it has fewer buffers before it than there are readers past the closed flag |
| `InboundEnds.IncomingDeliveredIff` | highlevel/conn.go:148-281 | it can still be delivered iff the connection is open, or a reader waits during the drain, or enough readers wait after it |
| `InboundEnds.IncomingReleasedIff` | highlevel/conn.go:260-281 | it can still be released by the queue iff Close has not finished its drain |
| `InboundEnds.WorkerStrandsThird` | highlevel/conn.go:482-490 | a run in which the worker leaves with a buffer in the overflow queue for good |
| `InboundEnds.CloseStrandsTwo` | highlevel/conn.go:260-506 | a run in which a buffer takes the fast path after Close's drain: it and one behind the worker, which is still there, can never be delivered or released |
| `Sessions.Session.Cancel` | internal/session/session.go:49-53 | however often it is called the channel is closed once |
| `Sessions.SessionManager.constructor` | internal/session/store.go:46-57 | an empty manager with the count rounded up, or without shards iff the rounded count does not fit the word |
| `Sessions.SessionManager.Create` | internal/session/store.go:66-76 | the live session of the id, or a new one; the flat map gains at most that |
| `Sessions.SessionManager.Get` | internal/session/store.go:79-85 | the flat map's answer |
| `Sessions.SessionManager.Delete` | internal/session/store.go:88-96 | the flat map loses the id, its session is cancelled, and no other session is touched |
| `Sessions.SessionManager.Range` | internal/session/store.go:99-107 | every live session exactly once and nothing else |
| `Sessions.Replay` | internal/session/store.go:66-107 | under every sequence of Create, Get, Delete and Range and every hash, each call's own answer is that of one flat map, and a session is cancelled exactly when a Delete takes it out |
| `Sessions.FlatLaws` | internal/session/store.go:66-96 | on the flat map: creating twice gives one session, Get finds what Create made, Delete cancels it |

## Left out

- Bits.RoundBySmear64: for words of w <= 64 bits, w a parameter; the source's word is w = 64. RoundByShift, NextPowerOfTwo32 and what calls them have their own w.
- Mpmc.RunInv: counters are unbounded naturals; `MpmcWords` carries its runs to words. The padding, the `Len` estimate and memory-order effects weaker than sequential consistency are not modelled.
- Spsc.Linearizable: counters are unbounded naturals; `SpscWords` carries its runs to words.
- Codec.StreamEncode: a payload that shares memory with the buffer is excluded, and what a panic leaves in the buffer is not stated.
- Connection.WSConnection.SendFrame: payloads are values, so a payload changed between queueing and encoding is not modelled.
- Connection.WSConnection.RecvLoop: channel operations are the ones that complete; a handler is set before the loop begins or not at all; the frame and byte counters are not modelled.
- SendRace.RunIsSafe: runs without Start, which is one step on its own in `SendRace.StartIsSafeIff`; a frame that a failed send wrote in part counts as not written.
- ExecutorRuns.CrewIsSound: runs before Close; a task that panics is one that finished.
- ExecutorCalls.SubmitComesTo: a local pop may come back empty-handed on a queue with a task in it at any moment, as a push in flight could make it; a push is refused only on a full queue or while its worker has a task in hand.
- SlabRace.EachBufferInOnePlace: only buffers in a user's hands are put, once each; a second Release of one buffer is not modelled.
- EventLoop.RunIsSafe: one goroutine in Run; two Stops racing on the quit channel are one Stop.
- Inbound.EachBufferInOnePlace: all calls see one underlying connection; a waiting reader may give up at any moment, by its timer or by `done`.
- Sessions.Replay: the calls of a sequence do not overlap; each holds its shard's lock. Deadlines and the context store are not modelled.
- Transports, sockets, io_uring and IOCP, affinity and NUMA probing: foreign calls.
- The HTTP handshake, SHA-1, base64 and routing by regular expressions: libraries that are not part of this model.
- core/buffer, core/concurrency/eventloop.go and internal/concurrency/executor.go: near-duplicates of modelled files.
- control, adapters, examples, timers and the TTL store: thin wrappers and clocks.
- Liveness under a fair scheduler: what is proved is that steps are possible, not that they are taken.
