# A verified model of the io_uring server core

The program is a small echo-style server written against io_uring. One thread runs an event loop;
the kernel runs beside it. Three things are shared: a pool of registered 256-byte buffers used for
log lines, a ring of provided buffers the kernel fills with received messages, and the submission and
completion queues, whose entries carry a 64-bit tag. This project models the program and the kernel
as one step system and proves what holds in every run.

## How it is built

`Model.dfy` is the step system. The application's state carries `todo`, the operations left in the
start-up sequence or in the handler of the current completion, so a kernel step may fall between any
two operations of the program, not only between handlers. An action that is not enabled changes
nothing, so every sequence of actions is a run and "for all runs" is "for all sequences of actions".
Pool size, ring size, buffer size and submission depth are parameters; the program uses 16, 16, 1024
and 16.

The invariants come one to a file (`StateShape`, `Tagging`, `Ownership`, `Integrity`, `RingQueue`,
`Messages`, `Ledger`, `Causality`, `Returns`, `Arrivals`), are put together in `Runs`, and the results
are stated in `Requests`, `Replies`, `Output`, `EventLoop`, `Guarantees`, `Deliveries`, `Misreads`,
`LostBuffers`, `SmallRings`, `Losses`, `Handlers`, `Interference`, `Submission`, `QueueBound`, `Overflow`,
`Exhaustion`, `Quiescence`, `LockStepRuns` and `Progress`.

The code that works in place is modelled in place. `BufPool` is a class over arrays whose nodes are
linked by `next`; `BufRing` is a class over the slot array with a 16-bit tail; `AppCtx` is the
application context, and its methods are the program's functions. Each method is proved to make
exactly the steps of the model on the state its heap stands for, and `Valid()` says that state is
reachable, so all results about runs hold of the heap.

## What the program asks for and what comes out

The kernel's state records every submission entry it consumed and every completion it posted. `Requests`
states the program against these two traces alone: a table (`StartupWants`, `WantsOf`) says what start-up
and each completion call for, and in every run, whatever the kernel does in between, the i-th entry ever
queued is the i-th thing called for, with none missing at a wait (`RequestsAnswerPosts`). `Replies` draws the
accounts per connection and message from it, `Output` those of the log: every line asked for is queued in
order with the bid of its own buffer, and comes out once. `EventLoop` says the same of the loop turn by turn,
and the methods of `AppCtx` promise it of the heap.

## The ring recycle

The manual page io_uring_buf_ring_add(3) defines the written slot as `(tail + buf_offset) & mask`, and
asks for offset 0 when one buffer is added. The program passes the buffer id. The model takes the
offset as a policy. With offset 0 the ring is proved to be a FIFO queue that loses no buffer. For the
offset as written, the project proves:

- what still holds in every run (`RingKeepsCount`), and the exact condition under which one recycle
  loses or duplicates a buffer (`RecycleConservesIff`, `RecycleKeepsBuffersIff`);
- for rings of four buffers or more and every schedule, that the first message leaves every buffer in
  circulation, the second does exactly when the kernel had already picked buffer 2, and from the third
  message on they never are again (`ConservesIff`, `NeverConservesAfterThird`); after one round and one
  message more some buffer is in no slot and not held, for good (`BufferGoneForGood`); rings of one
  and two buffers have their own exact conditions (`OneConserves`, `TwoConserveIff`);
- for lock-step runs, the exact number of messages after which conservation ends
  (`AsWrittenConservesIff`) and the state they end in (`AsWrittenEndsOnOneBuffer`), which some run from
  start-up reaches (`OneBufferIsReached`), and the message lost there (`AsWrittenLosesMessages`);
- exactly for which configurations some run loses a buffer for good (`LossIff`) and some run reads bytes
  other than those delivered (`MisreadIff`), and what spares a run from that under either recycle
  (`UnreadStaysIff`, `FreshRunReadsWhatArrived`).

## Running out

Both handlers dereference the submission entry without a check (`clib/appctx.c:122-123` and
`clib/appctx.c:159-160`), and a kernel slow enough lets the queue fill. `NullFaultIff` gives the exact
sizes: some run ends in the null dereference if and only if start-up can succeed and the depth is at
most twice the pool and one. The program's 16 and 16 are inside (`ShippedSizesFault`); from a depth of
twice the pool and two on, the buffers run out before the entries do and no request ever finds the
queue full (`DeepQueueNeverFull`).

The two shortages that are checked for are settled alike: for which sizes some run stops for want of a
log buffer (`PoolEmptyReachedIff`: no pool is large enough to rule it out) or of an entry
(`NoSqeReachedIff`). The runs that show these ends exist for any descriptors the accepts may return.

## What is assumed of the kernel and the environment

- User data comes back unchanged. Only published submission entries are consumed, oldest first.
- Requests complete in any order. A fixed write gives exactly one completion; a zero-copy send gives
  one or two; accept and receive may give any number.
- A receive completion with a non-negative result carries one ring buffer, picked at the head, and the
  message lies at the address and within the length of that slot. A failed receive carries none.
- A fixed write outputs a prefix of the slice, or nothing when the length exceeds the buffer.
- The pool has at most 65536 buffers; ring sizes are powers of two up to 32768.
- A failed assertion ends the run; so does dereferencing a null submission entry (`Faulted(NullSqe)`).
- Addresses, time stamps, message texts, descriptors, results, padding bytes of tags and the initial
  contents of both allocations are arbitrary.

## Model

| member | source | states |
|---|---|---|
| Bits.MaskIsModulo | clib/appctx.c:38-39 | masking an index with entries - 1 is reduction modulo entries, for every power of two |
| Bits.WrapThenModulo | rexe/src/bindings.rs:1557-1562 | a 16-bit wrap never changes which slot of a power-of-two ring is meant |
| Geometry.SliceOf | clib/appctx.c:33-36 | for all counts and sizes every byte of the allocation lies in one of the slices the init loop hands out |
| Geometry.SliceInside | clib/appctx.c:15-36 | no slice the init loop hands out reaches outside the allocation |
| Geometry.SliceIsUnique | clib/appctx.c:33-36 | no byte lies at two different multiples of the buffer size at once |
| UserData.RoundTrip | clib/userdata.c:4-12 | decode after encode gives the key modulo 65536 and the op modulo 256, whatever the padding bytes hold |
| UserData.SameTagIff | clib/userdata.c:4-12 | two tags decode alike exactly when key and op agree as 16-bit and 8-bit values; equal encodings imply it |
| UserData.KeySurvivesIff | clib/userdata.c:4 | a descriptor survives tagging exactly when it is below 65536 |
| LogLine.LineLength | clib/logging.c:86-88 | the length snprintf returns, as stamp, bid digits, level widths and text |
| LogLine.DecimalWidth | clib/logging.c:86 | the bid prints in at most k digits exactly when it is below ten to the k |
| LogLine.DecimalReadsBack | clib/logging.c:86 | the digits printed for a bid read back as that number, without a leading zero |
| LogLine.LineReadsBack | clib/logging.c:86-88 | the line is the stamp, the bid in brackets as a numeral that reads back, the level and the text, in that order |
| LogLine.LevelTags | clib/logging.c:32-60 | the name and colour each level is printed with, written out |
| LogLine.QueuedBytesAreTheLineIff | clib/logging.c:86-92 | the bytes queued are the whole line exactly when the returned length is below 256; at 256 the newline is replaced by the terminator |
| LogLine.LineFitsIff | clib/logging.c:70-88 | with a 23-character stamp the line fits exactly when text, digits and level name with colour share at most 220 characters |
| LogLine.LargestSafeText | clib/logging.c:32-88 | 208 is the largest text length that fits for every enumerated level and every bid of at most two digits |
| BufPool.ChainIsDistinct | clib/appctx.c:80-93 | a null-terminated next chain visits no node twice |
| BufPool.PutKeepsListIff | clib/appctx.c:89-93 | put, which checks nothing, leaves a null-terminated list exactly when the bid was not already on it |
| BufPool.SlicesTile | clib/appctx.c:62-64 | iovecs of equal length laid end to end cover each byte of the allocation exactly once and reach nowhere else |
| BufPool.BufPool.Registered | clib/appctx.c:62-71 | at any time the iovecs registered with the kernel are the consecutive slices of the allocation and tile it |
| BufPool.BufPool.Init | clib/appctx.c:52-78 | the loop threads all nodes, last first, node i keeping bid i and iovec i, which starts at i times the buffer size and is one buffer long; the iovecs tile the allocation |
| BufPool.BufPool.Pop | clib/appctx.c:80-87 | null exactly when nothing is free; otherwise the head leaves the list, which stays a list |
| BufPool.BufPool.Put | clib/appctx.c:89-93 | the node goes in front; a bid that was out gives a list with it first, a listed bid leaves no list at all |
| RingSpec.WrapRefinesUnbounded | clib/appctx.c:38-43 | any sequence of adds and advances touches the same slots with the 16-bit tail as with an unbounded counter |
| RingSpec.InitExposesAll | clib/appctx.c:32-43 | the fill loop and its one advance expose exactly the queue 0, 1, .., entries - 1 |
| RingSpec.PickDequeues | clib/appctx.c:134-137 | a pick takes the first visible bid and leaves the rest in order |
| RingSpec.RecycleEnqueues | clib/appctx.c:151-157 | at offset 0 a recycle appends the bid to the visible queue |
| RingSpec.WrittenIsExposedIff | clib/appctx.c:151-157 | the slot written is the slot the advance exposes exactly when the offset is 0 modulo entries |
| RingSpec.RecycleConservesIff | clib/appctx.c:151-157 | for any offset and any ring with room, the recycle adds exactly the bid to the visible ones if and only if the test RecycleSafe holds of the ring before the call |
| RingLockStep.LockStepConservesIff | clib/appctx.c:151-157 | driven in lock step with offset = bid, the ring offers every buffer once exactly when at most one turn has passed or there is one buffer |
| RingLockStep.OneBidEverywhere | clib/appctx.c:151-157 | after entries or more such turns every slot holds bid 1 |
| BufRing.BufRing.Init | clib/appctx.c:9-50 | the loop of masked adds at offset i and one advance build the initial ring; iovec i and record i start at i times the entry size and are one entry long, and the iovecs tile the allocation |
| BufRing.BufRing.Add | clib/appctx.c:38-39 | the masked store writes the slot at tail + offset modulo entries and nothing else |
| BufRing.BufRing.Advance | clib/appctx.c:43 | only the tail moves, modulo 65536 |
| Tagging.TaggedStep | clib/userdata.c:4-12 | every request and completion carries the tag of its own kind and key, after every step |
| Guarantees.DispatchedByOwnRequest | cexe/main.c:22-46 | in every run, every completion waiting carries the op of the request it completes and its key cut to 16 bits, a log bid exactly, and the step the loop takes on it is the one that request calls for |
| Tagging.HandleByOrigin | cexe/main.c:22-46 | the loop, which sees only the tag, does what the completed request calls for |
| Ownership.PartitionStep | clib/appctx.c:80-93 | every step keeps free list, calls in progress, queued and active writes and waiting completions a partition of the pool |
| Ownership.PutIsLegal | cexe/main.c:30-34 | put is only ever called with a bid of the pool that is not free |
| Ownership.EmptyIffAllOutstanding | clib/appctx.c:80-87 | the free list is empty exactly when every buffer is outstanding, and the two always add up to the pool |
| Integrity.ImagesStep | clib/logging.c:81-93 | every step keeps each queued, active or waiting write's slice equal to its image at queueing, with its line |
| Integrity.StepKeepsOutstanding | clib/logging.c:81-93 | no step whatever changes a byte of an outstanding slice |
| Guarantees.InFlightIntact | clib/logging.c:81-93 | over any run, until a buffer is put back no byte of its slice changes and it stays out |
| Guarantees.QueuedWriteKeepsImage | clib/logging.c:90-93 | in every reachable state a write not yet handled finds in its slice the image and line it was queued with |
| Guarantees.NoStrayAccess | clib/appctx.c:80-162 | no run accesses memory outside its allocations or puts a free buffer; the only fault left is the unchecked null of a full queue |
| Guarantees.ExactlyOnePlace | clib/appctx.c:80-93 | in every reachable state each bid is in exactly one of five places |
| Guarantees.RingKeepsCount | clib/appctx.c:151-157 | under either recycle visible plus held buffers number entries, every slot is a complete record of one buffer, and buffers are recycled in picking order |
| Guarantees.ManualRingIsAQueue | clib/appctx.c:151-157 | at offset 0, for all interleavings, everything ever offered is what was picked followed by what is visible, and visible and held bids are each buffer exactly once |
| Guarantees.ManualReadsWhatArrived | clib/appctx.c:141-149 | at offset 0 every message the handler reads is the message its completion delivered |
| Requests.RequestsAnswerPosts | cexe/main.c:13-99 | in every run the i-th entry ever queued, consumed or not, is the i-th request that start-up and the completions taken call for, in kind, descriptor, line and tag; at a wait none is missing |
| Requests.TakenInOrder | cexe/main.c:18-48 | in every run the completions are taken in the order posted, none left out, and none passed that is a failed accept or receive |
| Requests.FailuresEndTheRun | clib/appctx.c:119-144 | in every run, dispatching a completion aborts exactly for a negative accept or receive result or a message that fails validation; nothing more is queued and the run stays ended |
| Replies.RepliesAreCaused | clib/appctx.c:117-162 | each receive ever queued is on the descriptor of a connection posted and handled, each send goes to the 16-bit key of one; a packet's descriptor is its peer's exactly when that is below 65536 |
| Replies.SmallFdsReachTheirPeer | clib/appctx.c:159-161 | with descriptors below 65536 every send ever queued targets an accepted descriptor |
| Replies.AnsweredAtWait | clib/appctx.c:117-162 | at every wait the receives queued are on the connections posted less those waiting, in order; every message read has been answered by a queued send in order and its buffer recycled; and the messages posted, with their content, are those read followed by those waiting |
| Replies.SendsAnswerPosts | clib/appctx.c:134-162 | at every wait the i-th send ever queued goes to the descriptor of the i-th message ever posted, cut to 16 bits, and the sends and the waiting messages number the posts |
| Replies.SendsPerPeer | clib/appctx.c:134-162 | with descriptors below 65536, at every wait the sends queued to a descriptor number the messages from it that were posted, less those waiting |
| Output.LinesAreThoseAsked | clib/logging.c:62-94 | in every run the j-th line queued is stamp, bid, level and text of the j-th log call, with the bid of its own buffer; at a wait none is missing |
| Output.StartupLines | cexe/main.c:91-94 | at every wait the first four lines queued are a debug, an info, a warning and an error line with the stamps and texts of start-up |
| Output.EachLineOnce | clib/logging.c:90-93 | in every run the lines queued are, as a multiset, those that have come out, those being written and those in the queue |
| Output.OutputIsWhatWasLogged | clib/logging.c:86-92 | every write completed in any run has a line the program was asked to log, with its own bid; below 256 the output is the line as far as the result says, and the whole line when the result is its length; at 256 it is the line with the terminator for its newline, as far as the result says; above 256 the write fails with no output |
| EventLoop.TurnHandlesOne | cexe/main.c:18-51 | a turn that finds a completion takes the oldest off the queue, counts one handled and has published every entry, or the run ends; one that finds none changes nothing; a failing wait aborts |
| EventLoop.TurnsHandle | cexe/main.c:18-51 | for any schedule, a loop still running has handled one completion at each turn that found one |
| EventLoop.TurnsDrain | cexe/main.c:18-51 | with the kernel idle, a loop still running has handled, oldest first, as many of the waiting completions as it had turns, or all |
| EventLoop.IterationAnswers | cexe/main.c:22-50 | one iteration queues exactly the requests its completion calls for |
| EventLoop.StartupAnswers | cexe/main.c:86-96 | start-up queues exactly the accept and its four lines |
| Guarantees.PoolAccountAtWait | cexe/main.c:18-51 | at every wait free buffers = pool - (4 + accepts + messages) + puts, and the levels logged are debug, info, warning, error and then only debug |
| Guarantees.PoolEmptyIff | clib/logging.c:81-82 | the null check at a pop fires exactly when every buffer is outstanding |
| Guarantees.PoolEmptyMeansAllOut | clib/logging.c:81-82 | no run stops for an empty pool in any other situation |
| Guarantees.DrainOrder | clib/appctx.c:89-93 | over any stretch without a log call the puts lie on the free list in reverse order on top of what was there |
| Guarantees.DrainInCompletionOrder | cexe/main.c:30-34 | those puts are the write completions in the order the kernel posted them, and the list stays distinct |
| RingQueue.RecycleKeepsBuffersIff | clib/appctx.c:151-157 | in any state, under either policy and with any kernel steps between the add and the advance, picks included, a recycle keeps every buffer visible or held exactly when RecycleSafe holds before it |
| Messages.DeliveryKeepsIff | clib/appctx.c:137-149 | a delivery leaves an unread message readable exactly when the head slot names another buffer or the two messages agree |
| Messages.DeliveryKeepsAllIff | clib/appctx.c:137-149 | a delivery leaves all unread messages in place exactly when it agrees with every one of them in the buffer it goes to |
| Deliveries.UnreadStaysIff | clib/appctx.c:134-157 | a run from start-up, under either recycle, keeps every unread message in place throughout exactly when all its deliveries spare them |
| Deliveries.FreshRunReadsWhatArrived | clib/appctx.c:134-157 | under either recycle, if no pick of the run names a buffer still held, every message read is the one delivered |
| Deliveries.LockStepReadsWhatArrived | clib/appctx.c:134-157 | in particular every lock-step run of the program as written reads what was delivered |
| Misreads.MisreadIff | clib/appctx.c:134-157 | some run from start-up reads a message other than the one delivered exactly when the offset is the buffer id, the ring has two buffers or more of at least one byte, the pool at least four buffers, the queue five entries, and the first submit works |
| RecycleTrace.AddOutcome | clib/appctx.c:151-157 | as long as no buffer is lost the records lie as a fixed table says, whatever the order of picks and recycles; one more recycle continues the table or leaves a named buffer in no slot and not held |
| LostBuffers.ConservesIff | clib/appctx.c:151-157 | as written with four buffers or more, in every run and between recycles, every buffer is visible or held exactly once if and only if at most one message was handled, or two and the third pick was buffer 2 |
| LostBuffers.NeverConservesAfterThird | clib/appctx.c:151-157 | as written with four buffers or more, in no state of any run after the third message are the buffers visible or held each once |
| LostBuffers.BufferGoneForGood | clib/appctx.c:151-157 | as written with four buffers or more, after more messages than buffers some buffer is in no slot and not held, in that state and every continuation |
| SmallRings.OneConserves | clib/appctx.c:151-157 | under either recycle a single buffer is visible or held in every state of every run |
| SmallRings.TwoConserveIff | clib/appctx.c:151-157 | as written with two buffers, in every run and between recycles, both are visible or held once if and only if at most one message was handled, or the pick at the last even position the recycles have reached found buffer 0 |
| Losses.LossIff | clib/appctx.c:151-157 | some run from start-up has a buffer in no slot and not held exactly when the offset is the buffer id, the ring has two buffers or more and start-up can succeed |
| LockStepRuns.AsWrittenEndsOnOneBuffer | clib/appctx.c:151-157 | in every lock-step run of the program as written, after entries messages every slot offers buffer 1 |
| LockStepRuns.AsWrittenConservesIff | clib/appctx.c:151-157 | in such runs every buffer is on offer once exactly when at most one message has been handled or there is one buffer |
| LockStepRuns.AsWrittenLosesMessages | clib/appctx.c:137-157 | from there two deliveries in a row share buffer 1, and the first unread message survives exactly when the second agrees with it |
| Submission.DemandOfHandler | clib/appctx.c:117-162 | no completion makes its handler reserve more than two submission entries |
| Submission.DemandOfBoot | cexe/main.c:86-96 | start-up reserves five entries before its submit |
| Submission.RoomySubmissionIsSafe | cexe/main.c:18-51 | with depth at least five and two free entries at every wait, no run ever finds the queue full |
| QueueBound.DeepQueueNeverFull | clib/appctx.c:117-162 | with depth at least 2 * pool + 2, whatever the kernel leaves unconsumed, no request of any run ever finds the queue full |
| Overflow.NullFaultIff | clib/appctx.c:122-160 | some run from start-up ends in the unchecked null exactly when pool is at least 4, depth at least 5, the first submit works and depth is at most 2 * pool + 1; then some run does for any descriptors the accepts return |
| Overflow.ShippedSizesFault | cexe/main.c:63-68 | with the program's own sizes some run ends there, for any descriptors the accepts return |
| Exhaustion.PoolEmptyReachedIff | clib/logging.c:81-82 | some run from start-up stops for an empty pool exactly when start-up can succeed, or the pool has fewer than 4 buffers and fewer than the queue has entries; for any descriptors the accepts return |
| Exhaustion.NoSqeReachedIff | clib/logging.c:90-91 | some run from start-up stops for a missing entry at a checked request exactly when start-up can succeed and depth is at most 2 * pool, or depth is below 5 and at most the pool; for any descriptors the accepts return |
| Interference.AcceptUnstoppableIff | clib/appctx.c:117-130 | no interleaving of the kernel with the accept handler stops the run exactly when two entries and one buffer are free as it starts and its submit goes through |
| Interference.RecvUnstoppableIff | clib/appctx.c:134-162 | the same for the message handler, under the same three conditions |
| Handlers.AcceptOutcome | clib/appctx.c:117-130 | run with the kernel idle, the accept handler faults, aborts or completes exactly as free buffers and free entries decide, and completing takes two entries and a buffer |
| Handlers.RecvOutcome | clib/appctx.c:134-162 | likewise the message handler, whose write precedes its send and whose buffer is recycled between the two: not when the line fails, and already when the reply finds no entry; with exactly one free entry and a buffer it is the unchecked null that ends the run |
| Handlers.BootOutcome | cexe/main.c:86-97 | start-up succeeds exactly with four buffers, five entries and a submit that works; otherwise the failing check is determined |
| Handlers.IterationLeadsTo | cexe/main.c:18-51 | one uninterrupted iteration of the loop is a run of the step system |
| Quiescence.QuietRunIsBounded | cexe/main.c:27-45 | without new connections or messages each step lowers the measure Work, and nothing is logged |
| Quiescence.HandledBound | cexe/main.c:27-45 | from any reachable quiet state at most outstanding writes + 2 * outstanding sends + waiting completions are handled |
| Quiescence.StillMeansFullPool | cexe/main.c:30-34 | when no such step is possible the pool is full, the queues are empty and only accepts and receives are armed |
| Quiescence.StillnessIsReached | cexe/main.c:18-51 | from every such state some finite run reaches that point |
| Quiescence.WindsDownToFullPool | cexe/main.c:18-51 | from every reachable quiet state every quiet continuation is bounded, logs nothing, and where it can go no further the pool is full |
| Progress.Settles | cexe/main.c:18-51 | from every reachable quiet state with no failing submit ahead, some quiet run gets the program, still running, back to a full pool with every accept and receive still armed |
| Progress.TakesConnection | clib/appctx.c:117-130 | a calm system with four buffers and five entries can take a connection on any descriptor and be calm again with its receive armed |
| Progress.LockStepRunExists | cexe/main.c:86-99 | from start-up, for every k and any descriptor, some run accepts one connection on it, handles exactly k messages one at a time and ends calm |
| Progress.OneBufferIsReached | clib/appctx.c:151-157 | for every ring size from two up some run of the program as written ends with every slot offering buffer 1 |
| Progress.MisreadIsReached | clib/appctx.c:134-157 | with a ring of two buffers or more, of at least one byte, some run of the program as written has read something other than what was delivered |
| Runs.InvStep | cexe/main.c:18-51 | every action of program or kernel keeps all the invariants together |
| Runs.AlwaysInBounds | clib/appctx.c:89-162 | the operation about to run addresses only memory and nodes it owns |
| AppCtx.Snprintf | clib/logging.c:86-88 | the formatting loop writes the truncated line and terminator at its offset and leaves every other byte |
| AppCtx.AppCtx.constructor | clib/appctx.c:95-115 | builds the initial state of the model in memory |
| AppCtx.AppCtx.Registered | clib/appctx.c:33-71 | in a sound context the registered iovecs tile the pool, those of the ring tile its memory, and every record of the ring is one of them, completely |
| AppCtx.AppCtx.LogEvent | clib/logging.c:62-94 | pop, format, queue and tag: the state after it is exactly two steps of the model, or one if the first stops the run; otherwise one write has been queued, with the line of this level, stamp and text |
| AppCtx.AppCtx.HandleAccept | clib/appctx.c:117-130 | exactly the model's accept handler on the heap; unless it stops the run it has queued the receive on the new descriptor and the line, in that order |
| AppCtx.AppCtx.HandleRecvmsg | clib/appctx.c:134-162 | exactly the model's message handler on the heap; unless it stops the run it has queued the line and the send to the message's descriptor, in that order |
| AppCtx.AppCtx.HandleWriteFixed | cexe/main.c:30-34 | exactly the model's put on the heap |
| AppCtx.AppCtx.Iterate | cexe/main.c:18-51 | one iteration equals dispatch followed by every operation of the handler and the submit, and queues exactly what the completion calls for |
| AppCtx.AppCtx.Boot | cexe/main.c:86-97 | start-up equals the model's start-up operations carried out in order, and queues the accept and the four lines with their levels |
| AppCtx.AppCtx.TakeTurn | cexe/main.c:18-51 | one wait: exactly the kernel's steps, then the failing wait's abort or one completion handled to its end and submitted, or nothing if none waits |
| AppCtx.AppCtx.RunEventLoop | cexe/main.c:13-52 | for any schedule the heap ends in exactly the state the turns determine, one that some run reaches; still running, it has handled one completion per turn that found one, and with the kernel idle the oldest waiting ones |
| AppCtx.AppCtx.SoundMemory | clib/logging.c:81-93 | a sound context has an acyclic, duplicate-free free list, and each write in flight finds its image in its own slice of the array |

## Left out

- AppCtx.AppCtx.RunEventLoop: its kernel steps fall between iterations; steps of the kernel inside a
  handler are covered by the step system, whose results quantify over them.
- AppCtx.AppCtx.RunEventLoop: takes a finite schedule, since the program's loop never returns.
- Handlers.AcceptOutcome: with kernel steps inside the handler the outcome is no longer a function of the
  state it starts in; what every interleaving guarantees is Interference.AcceptUnstoppableIff.
- Handlers.RecvOutcome: likewise, with Interference.RecvUnstoppableIff.
- Submission.RoomySubmissionIsSafe: a sufficient condition on one run; the exact statements about runs are
  Overflow.NullFaultIff and Exhaustion.NoSqeReachedIff.
- Socket set-up, getpeername and inet_ntop, clock reading, strftime and the output of failed
  assertions: their results are parameters. `clib/logging.c:23` tests the negated return value, so that
  check never fires; the model has no exit there.
- The global peer address `fmt_addr` is part of the arbitrary message text, as is the start-up text.
- io_uring_recvmsg_validate and the payload accessors are not part of this model: validation is an
  arbitrary yes or no, and a message is the bytes delivered.
- The completion queue has no capacity, and the release of an entry after its handler is not a step:
  the handler works on the entry's values from the moment it is taken.
- Memory barriers, SQPOLL wake-up, short submits and allocation failure.
- The second buffer ring, which no handler uses; the same constructor builds it.
- The Rust demo and the generated bindings, except for the width of the ring's tail.
- Embedded NUL characters in message texts, which the program's formats do not produce.
