# Verification of the SG2002 inter-processor channel

This Dafny project models the SG2002 channel between Linux and the C906L
firmware (`components/sg2002-ipc`), from the memory accesses of its ring buffer
up to the benchmark programs that use it, together with two algorithms of the
build scripts. `dafny verify dfyconfig.toml` checks all of it.

The layers, each on top of the one before:

- **Ring** (`RingMachine`, `RingProof`, `Ring`). A transition system in which
  every counter load and store, every cache line of a slot copy, every
  invalidate and every clean is a step, and both sides may have a write-back
  cache that nothing keeps coherent and that evicts and prefetches at will.
  Ghost counts without wrap-around connect it to a FIFO. `Ring` is the same
  code on shared memory for use by the layers above.
- **Firmware** (`App`, `Ring`, `ShmTransport`). The application handler and the
  processing loop, with Linux pushing and popping between its ring operations.
  Its histories are those of a channel of two plain queues.
- **Firmware on two rings** (`Relay`, `RelayProof`, `RelayApp`). The drain loop
  between two machines of `RingMachine`, every access of every side a step: it
  refines the plain channel, and each pass ends and answers. `RelayApp` puts the
  application between the rings, through the bytes of the cache lines.
- **Library** (`Ledger`, `World`, `Library`). The Linux library as a class over
  an arbitrary world: a script says how time passes, which responses arrive and
  how each ioctl would be answered, and every contract holds for every script.
  The ledger records what became of each message taken from the kernel.
- **Threads in the library** (`LibraryThreads`, `LibraryThreadsProof`,
  `LibraryDrops`). Any number of threads with both locks; each lock operation,
  ioctl, eventfd access and poll is a step.
- **Benchmarks** (`Workload`, `Shares`, `Flights`, `ThreadPhase`, `ThreadBench`,
  `ThreadBenchProof`, `Window`). The request generator and its check, the split
  of work, the threaded benchmark as a state machine of workers, dispatcher and
  channel, and the sliding-window benchmark as a class.
- **Mailbox** (`Mailbox`). The eight command slots, one access a step.
- **Scripts** (`Search`, `Plan`). The chunked file search and the selection of
  patches from board layers.

## What the code does differently from what one may expect

- A popped message whose length is out of range is reported as corrupt, but it
  has been consumed: the consumer counter has moved on (`Rings.Ring.TryPop`).
- The error state that a corrupt ring publishes does not stop the firmware from
  processing again on the next doorbell (`Transport.ShmTransport.Process`).
- A drain that fails after some replies reports that nothing was processed.
  Undisturbed, the number reported is the number answered if and only if no
  request with an illegal length is in reach behind one that is answered
  (`Transport.ReportIsExact`); `Transport.AnsweredButNotReported` is an input.
- A synchronous call takes the first retained response with its sequence. If a
  response is kept while the 32-bit sequence wraps, the call is handed that old
  one; `LibraryThreadsProof.CallGetsItsOwn` gives the exact condition and
  `LibraryThreadsProof.CallMayTakeAStaleResponse` a run.
- With 64 responses retained, a call that meets another one drops it and
  returns ENOBUFS. `LibraryDrops.DropsExactly` says which steps drop a response,
  `LibraryDrops.EveryResponseIsAccountedFor` counts them over every run, and
  `LibraryDrops.ACallMayDropAResponse` is a run that reaches one.
- A response that does not fit the buffer of a synchronous call is gone; one
  that does not fit the buffer of a receive stays the oldest.
- An empty needle is not found in an empty file (`Search.ExactUnlessBothEmpty`).
- A board with BASE_BOARD = common has the common layer twice, and its patches
  are listed twice (`Plan.CommonAsBaseDuplicates`).

## Model

| member | source | states |
|---|---|---|
| RingProof.EveryRunIsFifo | components/sg2002-ipc/core/sg2002_rtos_ring.c:33-139 | In every interleaving of single memory accesses, cache line copies, invalidates, cleans, evictions and prefetches, with counters that wrap any number of times from any common start: what pops returned is a prefix of what pushes published, at most 64 are queued, and neither side reports corruption |
| RingProof.StepRefinesFifo | components/sg2002-ipc/core/sg2002_rtos_ring.c:82-139 | Each step is a step of a 64-place FIFO: the producer's counter store enqueues its message into a queue with room, the consumer's counter store dequeues the head that it has copied, every other step changes nothing |
| RingProof.StepKeeps | components/sg2002-ipc/core/sg2002_rtos_ring.c:33-139 | The invariant behind the refinement holds after every step of either side and of either cache |
| RingProof.InvalidateLosesNothing | components/sg2002-ipc/core/sg2002_rtos_ring.c:43-44 | No invalidate of a counter or slot line meets a line with a write that has not been cleaned |
| RingProof.NoRunLosesAWrite | components/sg2002-ipc/core/sg2002_rtos_ring.c:43-47 | The same in every run from a ring at rest, whatever the caches held |
| RingProof.PopFindsAcknowledged | components/sg2002-ipc/core/sg2002_rtos_ring.c:110-139 | A pop that begins when an acknowledged push is unpopped does not report an empty ring, whatever runs meanwhile |
| RingProof.PushFitsWhenDelivered | components/sg2002-ipc/core/sg2002_rtos_ring.c:69-108 | A push or probe that begins when memory shows a free place does not report a full ring |
| RingProof.RoomPersists | components/sg2002-ipc/core/sg2002_rtos_ring.c:69-108 | Once can_push has reported room, a push any number of steps later still finds it and does not fail |
| RingProof.EveryCallReturns | components/sg2002-ipc/core/sg2002_rtos_ring.c:33-139 | A push or pop returns after at most 38 of its own steps, however the other side and the caches behave |
| RingProof.LoadedPops | components/sg2002-ipc/core/sg2002_rtos_ring.c:46-51 | The occupancy that a push computes by wrapping subtraction is the true distance to a pop count between two known ones |
| RingProof.PopOccupancy | components/sg2002-ipc/core/sg2002_rtos_ring.c:46-51 | The same for the occupancy that a pop computes |
| Wrap.SubOfCounts | components/sg2002-ipc/core/sg2002_rtos_ring.c:48 | Wrapping subtraction of two counters recovers the distance of counts less than 2^32 apart |
| Rings.Ring.CanPush | components/sg2002-ipc/core/sg2002_rtos_ring.c:69-80 | Negative exactly for counters more than 64 apart, else one exactly when the queue has fewer than 64 messages |
| Rings.Ring.TryPush | components/sg2002-ipc/core/sg2002_rtos_ring.c:82-108 | Success appends exactly this message to the queue; an oversized length, corrupt counters or a full ring change nothing |
| Rings.Ring.TryPop | components/sg2002-ipc/core/sg2002_rtos_ring.c:110-139 | Success removes exactly the head; a popped message with an illegal length is reported as corrupt although it has been consumed |
| Rings.PushAppends | components/sg2002-ipc/core/sg2002_rtos_ring.c:100-104 | Writing the slot of the producer counter and advancing it appends to the abstract queue, also across the wrap |
| Rings.PopRemoves | components/sg2002-ipc/core/sg2002_rtos_ring.c:128-133 | Advancing the consumer counter removes the head of the abstract queue |
| App.DecodeEncode32 | components/sg2002-ipc/firmware/app/sg2002_rtos_app.c:95-107 | The 32-bit value of a message survives the byte copies |
| App.LowestByteFirst | components/sg2002-ipc/firmware/app/sg2002_rtos_app.c:95-107 | Byte i of a value in a payload is its bits 8i to 8i+7 |
| App.NotAnswered | components/sg2002-ipc/firmware/app/sg2002_rtos_app.c:63-111 | Unanswered exactly: an empty request, a command outside 60..7e, an echo longer than the capacity, any other command with a capacity below five |
| App.EchoReply | components/sg2002-ipc/firmware/app/sg2002_rtos_app.c:84-90 | An echo is answered with its own bytes |
| App.LengthReply | components/sg2002-ipc/firmware/app/sg2002_rtos_app.c:91-103 | A value command of another length is answered fe ff ff ff behind the command |
| App.ValueReplyBytes | components/sg2002-ipc/firmware/app/sg2002_rtos_app.c:22-60 | Ping answers the value under the mask 5a 5a a5 a5, 63 answers 03 00 01 a5, commands 65..7e answer ff ff ff ff, for all values and pins |
| App.PinReplyBytes | components/sg2002-ipc/firmware/app/sg2002_rtos_app.c:30-47 | A missing pin answers fe ff ff ff; setting a present one drives it to the lowest bit and answers it, reading answers its level |
| App.OnlyGpioSetMovesPins | components/sg2002-ipc/firmware/app/sg2002_rtos_app.c:30-47 | Only the command that sets a pin changes a pin, and only the pin it names, and only if that pin exists |
| App.GpioReadsBack | components/sg2002-ipc/firmware/app/sg2002_rtos_app.c:30-47 | A pin that has been set reads back the value it was set to |
| App.HandleValue | components/sg2002-ipc/firmware/app/sg2002_rtos_app.c:13-61 | The switch computes the reply function of value commands, whose bytes the lemmas above give, and reports the commands it does not own |
| App.HandleMessage | components/sg2002-ipc/firmware/app/sg2002_rtos_app.c:63-111 | The message handler fills the buffer with exactly the reply that the lemmas above give in bytes, and reports a message as unhandled in exactly the cases without one |
| Transport.ReplyAt | components/sg2002-ipc/firmware/transport/sg2002_rtos_shm_transport.c:146-175 | The i-th response is the handler's answer to the i-th request, in the state left by the requests before it, under the same sequence |
| Transport.NoOtherLayout | components/sg2002-ipc/firmware/transport/sg2002_rtos_shm_transport.c:72-105 | The one layout that is attached to, in numbers |
| Transport.ShmTransport.Attach | components/sg2002-ipc/firmware/transport/sg2002_rtos_shm_transport.c:90-119 | Attaches exactly to a complete, consistent, nonzero generation that Linux has made ready, and publishes readiness once for each generation |
| Transport.ShmTransport.BuildResponse | components/sg2002-ipc/firmware/transport/sg2002_rtos_shm_transport.c:160-168 | The response slot is the application's answer, zero-length if the request is not handled, with the sequence copied |
| Transport.ShmTransport.AwaitRoom | components/sg2002-ipc/firmware/transport/sg2002_rtos_shm_transport.c:147-151 | Room seen by can_push is still there after any Linux moves |
| Transport.ShmTransport.ServeOne | components/sg2002-ipc/firmware/transport/sg2002_rtos_shm_transport.c:146-175 | One iteration with Linux moving between its accesses takes a request only together with the publication of its reply |
| Transport.ShmTransport.Drain | components/sg2002-ipc/firmware/transport/sg2002_rtos_shm_transport.c:146-175 | The loop answers the oldest requests in order, at most 64, and without interference as many as requests and room allow |
| Transport.ShmTransport.Process | components/sg2002-ipc/firmware/transport/sg2002_rtos_shm_transport.c:132-180 | With an honest Linux side processing never ends in corruption and its histories are those of the plain channel. Whatever Linux does, the requests taken only grow by those answered, and `processed` is their number exactly when the result is OK. Undisturbed, it answers the requests in reach in order up to the first with an illegal length, and ends in corruption if and only if there is one. Corrupt counters of the response ring, or of the request ring while a response has room, end in corruption with nothing answered; corruption publishes the error state |
| Transport.IllegalInReachMeans | components/sg2002-ipc/firmware/transport/sg2002_rtos_shm_transport.c:146-175 | That condition in a caller's words: one of the requests that can be answered now has an illegal length |
| Transport.ReportIsExact | components/sg2002-ipc/firmware/transport/sg2002_rtos_shm_transport.c:141-180 | Undisturbed, the number reported is the number answered if and only if no illegal request in reach follows one that was answered |
| Transport.AnsweredButNotReported | components/sg2002-ipc/firmware/transport/sg2002_rtos_shm_transport.c:141-180 | A good request and an illegal one behind it: one response is queued, and the call reports corruption and zero processed |
| Transport.RunSession | components/sg2002-ipc/firmware/transport/sg2002_rtos_shm_transport.c:132-180 | Over any sequence of doorbells, Linux moves and restarts, each doorbell with any Linux moves during it: corruption is never reported, and the histories of all generations are exactly those that the same events give in a channel of two plain 64-place queues. In each generation the requests taken are the first ones submitted, the responses reaped are the first of the replies to them, the pins carry on from one generation to the next, and only what Linux offered was submitted |
| RelayProof.EveryRelayIsInOrder | components/sg2002-ipc/firmware/transport/sg2002_rtos_shm_transport.c:146-175 | The drain loop between two rings, in every interleaving of single memory accesses of the firmware, of Linux and of the caches, for every handler: never corruption; the requests answered are the first ones published, the responses published are exactly the replies to them in order, what Linux has popped is a prefix of these, and at most one request is in between |
| RelayProof.StepIsAMove | components/sg2002-ipc/firmware/transport/sg2002_rtos_shm_transport.c:146-175 | Each such step is one move of a channel of two plain 64-place queues, or none: Linux submits into a free place, the firmware takes the oldest request, answers it into a free place, Linux reaps the oldest reply |
| RelayProof.LinkStepKeeps | components/sg2002-ipc/firmware/transport/sg2002_rtos_shm_transport.c:146-175 | The invariant of both rings and of the place in the loop holds after every step |
| RelayProof.EveryRequestIsServed | components/sg2002-ipc/firmware/transport/sg2002_rtos_shm_transport.c:146-175 | An iteration that begins with an acknowledged request unpopped and a place for a response shown has published one response more after 117 further steps of the firmware, in every interleaving |
| Images.DecodeEncode | components/sg2002-ipc/core/sg2002_rtos_ring.c:96-135 | A slot written into its sixteen cache lines and read back is the same slot |
| Images.LengthOfImage | components/sg2002-ipc/core/sg2002_rtos_ring.c:82-139 | The length that the ring checks is the length field of the slot |
| RelayedApp.EveryAnswerIsSpecified | components/sg2002-ipc/firmware/transport/sg2002_rtos_shm_transport.c:146-175 | With the application between the rings: at the level of memory accesses, what Linux has popped is a prefix of the specified replies to the first requests that it published |
| RelayedApp.EveryPoppedResponseIsAccepted | components/sg2002-ipc/tools/rtos-thread-bench.c:148-197 | If the i-th request that Linux published is a benchmark request, the i-th response that it has popped has its sequence and is accepted for its seed |
| Workload.ReplyIsAccepted | components/sg2002-ipc/tools/rtos-thread-bench.c:148-197 | The reply to a benchmark request passes the check for its seed, for every size 0..1017, every seed and every state of the pins |
| Workload.RequestBytesAre | components/sg2002-ipc/tools/rtos-thread-bench.c:148-167 | A request is 60 and the seed, lowest byte first, or 64 and bytes that rise by 17 from the seed |
| Workload.AcceptsExactly | components/sg2002-ipc/tools/rtos-thread-bench.c:169-197 | The check accepts exactly 60 and the seed's bytes under the mask 5a 5a a5 a5, or 64 and the rising pattern, in the right length |
| Workload.AcceptanceTellsSeedsApart | components/sg2002-ipc/tools/rtos-thread-bench.c:169-197 | A response accepted for two seeds of one size means equal ping seeds, or echo seeds with equal low bytes |
| Workload.ReplyInAnyHistory | components/sg2002-ipc/tools/rtos-thread-bench.c:148-197 | At any place of any history of requests, the reply to a benchmark request has its sequence and passes the check for its seed |
| Workload.ReapedIsAccepted | components/sg2002-ipc/tools/rtos-thread-bench.c:148-197 | In every generation of every session, if the i-th request submitted is a benchmark request, the i-th response reaped has its sequence and is accepted for its seed |
| Workload.EveryReplyIsAccepted | components/sg2002-ipc/tools/rtos-thread-bench.c:148-197 | In a batch, the reply in each place passes the check for the seed in that place |
| Workload.BuildRequest | components/sg2002-ipc/tools/rtos-thread-bench.c:148-167 | Fills exactly the request's bytes and leaves the rest of the buffer |
| Workload.ValidateResponse | components/sg2002-ipc/tools/rtos-thread-bench.c:169-197 | Accepts exactly the responses that carry the seed's pattern |
| Workload.RoundTrip | components/sg2002-ipc/tools/rtos-thread-bench.c:148-197 | A request built for any seed and size, submitted behind whatever is in the channel, is refused exactly when the request ring is full; otherwise it comes back in its turn with its sequence and is accepted |
| Ledgers.ClaimRemoves | components/sg2002-ipc/linux/src/sg2002_rtos.c:331-345 | A claim takes one message away from the receivers, keeps the order of the others and of the kernel, and loses nothing |
| Ledgers.EveryMessageHasOneFate | components/sg2002-ipc/linux/src/sg2002_rtos.c:284-345 | The messages taken from the kernel are exactly the kept, the claimed and the dropped ones together |
| Worlds.EvolvedBy | components/sg2002-ipc/linux/src/sg2002_rtos.c:195-220 | What the library's contracts mean by a world that has evolved: the script has lost a prefix, the clock has advanced by exactly what it takes, and exactly its responses have arrived |
| Library.TimeLeft | components/sg2002-ipc/linux/src/sg2002_rtos.c:195-206 | The narrowing to 32 bits loses nothing, and a finite wait never becomes the infinite one |
| Library.Handle.RetainPending | components/sg2002-ipc/linux/src/sg2002_rtos.c:284-299 | Appends to the retained responses and keeps the semaphore in step, or refuses exactly when 64 are retained |
| Library.Handle.RemovePending | components/sg2002-ipc/linux/src/sg2002_rtos.c:301-315 | Removes exactly the named place by moving the rest; EPROTO is not returned while the semaphore is in step |
| Library.Handle.TakePendingOldest | components/sg2002-ipc/linux/src/sg2002_rtos.c:317-329 | Takes the head of the retained responses, if any |
| Library.Handle.TakePendingSequence | components/sg2002-ipc/linux/src/sg2002_rtos.c:331-345 | Takes the first retained response with this sequence, or none has it |
| Library.Handle.UpdateRemaining | components/sg2002-ipc/linux/src/sg2002_rtos.c:381-398 | Reports a timeout exactly when the clock has reached the deadline; else the remaining time ends at the deadline |
| Library.Handle.Wait | components/sg2002-ipc/linux/src/sg2002_rtos.c:162-220 | Reports POLLIN whenever a response is retained, and nothing only when the full timeout has passed |
| Library.Handle.WaitForEvents | components/sg2002-ipc/linux/src/sg2002_rtos.c:400-417 | Zero timeouts do not wait; a timeout is reported only at the caller's deadline |
| Library.Handle.WaitForKernelEvents | components/sg2002-ipc/linux/src/sg2002_rtos.c:419-445 | The same on the device alone, through the loop and the INT_MAX clamp |
| Library.Handle.ReceiveLocked | components/sg2002-ipc/linux/src/sg2002_rtos.c:493-518 | One attempt delivers the oldest response that no receiver has seen, or keeps it as the oldest if it does not fit; the world after it is exactly the old one, or the old one one move later without its oldest response |
| Library.Handle.MessageReceive | components/sg2002-ipc/linux/src/sg2002_rtos.c:475-526 | A retained response is always delivered or reported as too long, and so is the oldest one with the kernel at the first look, for every timeout; else a final error of that look is returned. EAGAIN only with nothing retained and nothing with the kernel, a timeout no earlier than the deadline and with nothing missed before the last move, an errno only as the driver's last answer. Nothing is lost or reordered, and the call is stuck only with nothing to receive |
| Library.Handle.ReapBatchLocked | components/sg2002-ipc/linux/src/sg2002_rtos.c:619-682 | The reaped messages are the oldest undelivered ones: every retained one that has a place, or else everything that the kernel has when it is asked, at once or at least that one by one; an unknown batch ioctl falls back, for good, and in the same call |
| Library.Handle.MessageReapBatch | components/sg2002-ipc/linux/src/sg2002_rtos.c:684-716 | What is retained, or else with the kernel at the first look, is reaped as far as there are places, for every timeout; EAGAIN, timeouts and errnos as for a receive; a full batch is a success |
| Library.Handle.SendLocked | components/sg2002-ipc/linux/src/sg2002_rtos.c:222-241 | The driver's next answer is the result: accepted once under its nonzero sequence, or refused with its error and nothing sent |
| Library.Handle.MessageSend | components/sg2002-ipc/linux/src/sg2002_rtos.c:447-473 | The result is the driver's answer to the last attempt, which is the first one unless that was asked to try again; at most one submission; EAGAIN only right after such an answer, a timeout no earlier than the deadline and with no room at any look since |
| Library.Handle.SubmitNative | components/sg2002-ipc/linux/src/sg2002_rtos.c:537-560 | The batch call takes as many requests as the driver gives sequences for, each under its own, or its error is the result and nothing is taken |
| Library.Handle.SubmitSingly | components/sg2002-ipc/linux/src/sg2002_rtos.c:562-577 | Takes exactly as many requests as the driver accepts in a row, at most the count, each under its own sequence; the first refusal is the result, or success if it only asks to try again and something was taken before |
| Library.Handle.SubmitBatchLocked | components/sg2002-ipc/linux/src/sg2002_rtos.c:528-578 | One attempt: by the batch ioctl, or one by one on a driver without it, also when that turns out only now; what is known of the ioctl afterwards |
| Library.FallbackSends | components/sg2002-ipc/linux/src/sg2002_rtos.c:551-577 | When the batch ioctl is unknown and the next answer accepts, the call goes on: it takes the whole run of accepted requests behind it, up to the count |
| Library.Handle.MessageSubmitBatch | components/sg2002-ipc/linux/src/sg2002_rtos.c:580-617 | The result is that of the last attempt, which is the first one unless that took nothing and was asked to try again; what the driver took is exactly the first `completed` requests, none is submitted twice; EAGAIN and timeouts as for a send |
| Library.Handle.Retain | components/sg2002-ipc/linux/src/sg2002_rtos.c:783-790 | An arriving response nobody waits for is retained in order, or dropped exactly when 64 are retained |
| Library.Handle.ClaimRetained | components/sg2002-ipc/linux/src/sg2002_rtos.c:800-807 | Claims the first retained response with this sequence, exactly if there is one |
| Library.Handle.CallSend | components/sg2002-ipc/linux/src/sg2002_rtos.c:767-798 | The first answer of the driver is the result unless it asks to try again; the request is accepted once or not at all; arriving responses are kept for receivers in order; a response is lost exactly with ENOBUFS |
| Library.Handle.CallMatch | components/sg2002-ipc/linux/src/sg2002_rtos.c:799-831 | Claims exactly one response with the sequence of the request: a retained one if there is one, else the kernel's next one if it is that, and without a finite timeout also one behind others that there is room to retain; every other entry of the ledger stays as it was |
| Library.Handle.MessageCall | components/sg2002-ipc/linux/src/sg2002_rtos.c:746-838 | One request accepted, as the driver's first answer says; one response with its sequence claimed, none delivered elsewhere, and success if one was retained or is the kernel's next; against the ledger at the moment the driver took the request, the response is an old one exactly if one with that sequence was kept and undelivered then; losses exactly with ENOBUFS; an errno only as the driver's last answer; a timeout no earlier than the deadline |
| LibraryThreadsProof.EveryRunIsGood | components/sg2002-ipc/linux/src/sg2002_rtos.c:284-838 | The invariant of locks, semaphore, order and matching holds in every run of any number of threads |
| LibraryThreadsProof.NothingIsLostOrReordered | components/sg2002-ipc/linux/src/sg2002_rtos.c:284-345 | In every run: kernel order is the ledger's and then the kernel's; what receivers got and then the retained responses are the kept messages in order; without a drop every message is delivered, retained, claimed or still with the kernel |
| LibraryThreadsProof.EveryResponseGoesOneWay | components/sg2002-ipc/linux/src/sg2002_rtos.c:475-838 | No response is recorded twice |
| LibraryThreadsProof.NoCallReturnsEproto | components/sg2002-ipc/linux/src/sg2002_rtos.c:301-345 | In every run no thread returns EPROTO from the retained responses |
| LibraryThreadsProof.SemaphoreIsInStep | components/sg2002-ipc/linux/src/sg2002_rtos.c:258-345 | Whenever rx_lock is free the semaphore equals the number of retained responses, at most 64, and a waiting receiver goes on if there is one |
| LibraryThreadsProof.AwaitedIsUntouched | components/sg2002-ipc/linux/src/sg2002_rtos.c:767-838 | While a call waits, it holds rx_lock and its response has been received, retained and claimed by nobody |
| LibraryThreadsProof.OnlyTheOwnerReceives | components/sg2002-ipc/linux/src/sg2002_rtos.c:767-838 | While a thread holds rx_lock no step of another thread changes the ledger, the deliveries, the retained responses or the matches |
| LibraryThreadsProof.CallGetsItsOwn | components/sg2002-ipc/linux/src/sg2002_rtos.c:799-831 | A call comes to hold its own response if and only if no response with its sequence was retained when the driver took its request |
| LibraryThreadsProof.CallMayTakeAStaleResponse | components/sg2002-ipc/linux/src/sg2002_rtos.c:799-807 | A concrete run in which a sequence is reused while an old response is retained, and the call is handed the old response |
| LibraryDrops.DropsExactly | components/sg2002-ipc/linux/src/sg2002_rtos.c:783-817 | A step of any thread drops a response if and only if the thread is a call that meets a response other than its own while 64 are retained, and then it drops one |
| LibraryDrops.EveryResponseIsAccountedFor | components/sg2002-ipc/linux/src/sg2002_rtos.c:284-838 | In every run: the responses that came up are those received, retained, claimed or still with the kernel, and one for each such step |
| LibraryDrops.ACallMayDropAResponse | components/sg2002-ipc/linux/src/sg2002_rtos.c:799-817 | A state that a run of two threads reaches, and the step from it that drops the response to the other thread's request |
| LibraryThreadsProof.LocksNestOneWay | components/sg2002-ipc/linux/src/sg2002_rtos.c:767-838 | A thread that waits for rx_lock holds nothing, one that waits for tx_lock holds at most rx_lock, and nobody polls under tx_lock |
| LibraryThreadsProof.NoDeadlock | components/sg2002-ipc/linux/src/sg2002_rtos.c:459-838 | Every thread can make a step, or is held up by one that can, or finally by one that polls; a thread that others wait for polls only as a call whose response has not arrived |
| LibraryThreadsProof.TxIsReleased | components/sg2002-ipc/linux/src/sg2002_rtos.c:459-838 | tx_lock is given back after a bounded number of the owner's own steps |
| Shares.TargetsSumToTotal | components/sg2002-ipc/tools/rtos-thread-bench.c:142-146 | The shares of all workers add up to the total |
| Shares.ShareIsRange | components/sg2002-ipc/tools/rtos-thread-bench.c:277-280 | An operation belongs to a worker's share exactly if its number is below the total |
| Shares.NumbersDiffer | components/sg2002-ipc/tools/rtos-thread-bench.c:277-280 | Different operations have different numbers |
| Shares.EveryNumberIsAssigned | components/sg2002-ipc/tools/rtos-thread-bench.c:142-146 | Every number below the total is that of an operation in some share |
| Shares.SeedsCountUp | components/sg2002-ipc/tools/rtos-thread-bench.c:279-280 | Seeds start at the base, count up by one and go round at 2^32 |
| Shares.SeedsDiffer | components/sg2002-ipc/tools/rtos-thread-bench.c:279-280 | Up to 2^32 operations have pairwise different seeds |
| ThreadPhase.SeedsOfSharesDiffer | components/sg2002-ipc/tools/rtos-thread-bench.c:277-280 | No two operations of a phase of at most 2^32 have the same seed |
| ThreadPhase.SeedOfIs | components/sg2002-ipc/tools/rtos-thread-bench.c:279-280 | The seed of an operation is the base plus operation times workers plus worker, modulo 2^32 |
| Shares.SelfTest | components/sg2002-ipc/tools/rtos-thread-bench.c:709-735 | The exhaustive check of the program's own self-test passes for all totals and all worker counts |
| ThreadPhase.LockedPhase.SelectReady | components/sg2002-ipc/tools/rtos-thread-bench.c:395-410 | Exactly the ready workers join the batch, in the order of their numbers, with their requests; they are submitting, nothing else changes but the two counters, and a sound phase stays sound |
| ThreadPhase.LockedPhase.CommitSubmitted | components/sg2002-ipc/tools/rtos-thread-bench.c:417-454 | For a batch that selection has chosen: zero exactly if the sequences of the taken prefix are nonzero, not in use and pairwise different; then the taken workers are in flight under their sequences, the others are ready again, nobody else changes and a sound phase stays sound; otherwise the phase stops with EPROTO |
| ThreadPhase.LockedPhase.CompleteResponse | components/sg2002-ipc/tools/rtos-thread-bench.c:357-378 | Completes the worker in flight under the response's sequence if the response is right; the latency has its place in a buffer of the size of the total |
| ThreadPhase.LockedPhase.CompleteReaped | components/sg2002-ipc/tools/rtos-thread-bench.c:356-380 | A whole batch, up to the first response that is unknown or wrong |
| ThreadPhase.LockedPhase.RunWorker | components/sg2002-ipc/tools/rtos-thread-bench.c:268-305 | A pass issues one operation exactly if the last one is over, the gate is open and neither target nor stop is reached, and then it is the next of the worker's share with its own seed and request; the ready counter and the notification grow together with it; the worker leaves exactly when nothing is left for it; an outstanding operation and other workers are untouched; a sound phase stays sound |
| ThreadPhase.SelectionKeeps | components/sg2002-ipc/tools/rtos-thread-bench.c:395-410 | Selection picks every ready worker and no other and keeps the counters exact |
| ThreadPhase.SelectsExactly | components/sg2002-ipc/tools/rtos-thread-bench.c:395-410 | Selection on any phase: the ready workers below the index, ascending, and no other change |
| ThreadPhase.CommitsExactly | components/sg2002-ipc/tools/rtos-thread-bench.c:417-454 | The commit of any answers for selected workers succeeds if and only if the sequences are new, and then does exactly that |
| ThreadPhase.WorkerKeeps | components/sg2002-ipc/tools/rtos-thread-bench.c:268-305 | Every section of a worker keeps the counters exact |
| ThreadPhase.CompleteKeeps | components/sg2002-ipc/tools/rtos-thread-bench.c:357-378 | A right response completes exactly the one worker it is for |
| ThreadPhase.RoomForLatency | components/sg2002-ipc/tools/rtos-thread-bench.c:370-373 | While a request is in flight, completed is below the total |
| ThreadBenchProof.EveryRunIsGood | components/sg2002-ipc/tools/rtos-thread-bench.c:261-567 | The invariant of workers, dispatcher and channel holds in every interleaving, for any number of workers and any total |
| ThreadBenchProof.CountersAreExact | components/sg2002-ipc/tools/rtos-thread-bench.c:261-463 | ready, submitting and in_flight are the numbers of workers in those states; issued = completed + ready + submitting + in_flight; sequences in flight are pairwise different |
| ThreadBenchProof.NoLostWakeup | components/sg2002-ipc/tools/rtos-thread-bench.c:465-537 | When the dispatcher polls, POLLIN is requested if a request is in flight, and for a ready worker POLLOUT is requested or its notification is pending |
| ThreadBenchProof.PollIsNeverInVain | components/sg2002-ipc/tools/rtos-thread-bench.c:508-537 | Whenever the dispatcher polls, a message is on its way back, or POLLOUT is requested, or a notification is pending, or a worker thread can run |
| ThreadBenchProof.NoProtocolError | components/sg2002-ipc/tools/rtos-thread-bench.c:362-442 | Neither EPROTO exit is taken, and every latency write is inside the buffer |
| ThreadBenchProof.EveryOperationOnce | components/sg2002-ipc/tools/rtos-thread-bench.c:539-567 | When dispatching returns zero, exactly the operations with a number below the total are completed, each once |
| Windows.CompleteMatches | components/sg2002-ipc/tools/rtos-bench.c:157-206 | Completing a message frees its ticket and no other, and the ticket has the seed of that very request |
| Windows.RecordMatches | components/sg2002-ipc/tools/rtos-bench.c:307-322 | A request just taken clashes with no active ticket and gets a free one |
| Windows.WindowedPhase.CompleteResponse | components/sg2002-ipc/tools/rtos-bench.c:181-207 | Every response is checked against the seed its request was built from; the latency index is below the count |
| Windows.WindowedPhase.Record | components/sg2002-ipc/tools/rtos-bench.c:307-322 | EPROTO and EOVERFLOW are not returned |
| Windows.WindowedPhase.ReapRound | components/sg2002-ipc/tools/rtos-bench.c:235-268 | Keeps submitted = completed + in flight = completed + active tickets, in flight within the window |
| Windows.WindowedPhase.SubmitRound | components/sg2002-ipc/tools/rtos-bench.c:270-328 | The same, never submitting more than the count or the window allows |
| Windows.WindowedPhase.Run | components/sg2002-ipc/tools/rtos-bench.c:209-375 | EPROTO, EOVERFLOW and EDEADLK are unreachable; success exactly when the count is completed, and then response k bears, byte for byte, what answers seed base + k modulo 2^32, for every k below the count |
| Mailbox.DecodeEncode | components/sg2002-ipc/firmware/transport/sg2002_rtos_mailbox.c:26-33 | The header word carries every field intact |
| Mailbox.EncodeDecode | components/sg2002-ipc/firmware/transport/sg2002_rtos_mailbox.c:26-33 | Every header word is that of the command read from it |
| Mailbox.MarksOnly | components/sg2002-ipc/firmware/transport/sg2002_rtos_mailbox.c:168-178 | A sender sets the two marks and leaves ip, command, block and parameter |
| Mailbox.StepKeeps | components/sg2002-ipc/firmware/transport/sg2002_rtos_mailbox.c:85-220 | The ownership invariant holds after every single slot access of either side |
| Mailbox.EveryRunConserves | components/sg2002-ipc/firmware/transport/sg2002_rtos_mailbox.c:85-220 | In every interleaving of the publisher, the reader of replies, the interrupt handler and the tasks, commands and replies are conserved |
| Mailbox.EachCommandOnce | components/sg2002-ipc/firmware/transport/sg2002_rtos_mailbox.c:108-123 | A published command is copied out at most once and intact, and lies in a slot exactly until it is |
| Mailbox.NothingIsOverwritten | components/sg2002-ipc/firmware/transport/sg2002_rtos_mailbox.c:187-211 | A reply is written only into a slot that is free at that moment, and never while Linux publishes; the same for Linux |
| Mailbox.CopiesAreIntact | components/sg2002-ipc/firmware/transport/sg2002_rtos_mailbox.c:116-118 | A command being copied stays what it is until it is cleared, also in the interrupt handler without the lock |
| Mailbox.SlotArea.ReceiveCommands | components/sg2002-ipc/firmware/transport/sg2002_rtos_mailbox.c:85-129 | Copies the commands of the first slots in slot order, clears exactly those, and stops only at the capacity or the last slot |
| Mailbox.SlotArea.Send | components/sg2002-ipc/firmware/transport/sg2002_rtos_mailbox.c:168-220 | The reply goes into the first free slot with the command's ip, command, block and parameter, or nowhere exactly if there is none |
| Search.OccursAcross | scripts/ci/validate.py:134-141 | Searching the kept end together with the next chunk finds exactly what the next chunk adds |
| Search.FileOccurrences | scripts/ci/validate.py:127-142 | However the reads split the file, with early exit and chunks shorter than the overlap: exactly the needles that occur in the whole file, except an empty needle in an empty file |
| Search.ExactUnlessBothEmpty | scripts/ci/validate.py:127-142 | The answer is that of a whole-file search if and only if not both the file and some needle are empty |
| Plan.BoardChain | scripts/ci/plan.py:61-75 | Returns for every configuration: the boards along BASE_BOARD and then common, exactly if inheritance ends; else the cycle or the missing board |
| Plan.LayersDifferExactly | scripts/ci/plan.py:61-75 | The layers are pairwise different if and only if no BASE_BOARD on the way is common |
| Plan.DirsDifferExactly | scripts/ci/plan.py:61-75 | No directory is a layer twice if and only if no BASE_BOARD on the way is common and no directory is spelt in two ways |
| Plan.SelectPatches | scripts/ci/plan.py:107-115 | The first layer that mentions a name decides, and its skip file wins over its patch |
| Plan.LessMeans | scripts/ci/plan.py:119-125 | One name is before another exactly if they agree up to a place where it has ended or has the smaller character |
| Plan.SortNames | scripts/ci/plan.py:119-125 | The same names, the one with the smaller character at the first difference, or the shorter one, first |
| Plan.OrderPatches | scripts/ci/plan.py:116-126 | Each chosen path as often as its directory is a layer, and no other; base layers first and names ascending if no directory is repeated |
| Plan.SmallerNameFirst | scripts/ci/plan.py:116-126 | Of two listed patches of one directory the one with the smaller name comes first |
| Plan.PatchFiles | scripts/ci/plan.py:104-126 | Fails exactly for an invalid name or an inheritance that does not end; else each chosen path as often as its directory is a layer; and if every directory has one spelling and no BASE_BOARD is common, base layers first, within a layer the name with the smaller character at the first difference first, each name once |
| Plan.ComponentNames | scripts/ci/plan.py:105-106 | Which characters make a legal component name, with their neighbours that do not |
| Plan.EachNameOnce | scripts/ci/plan.py:104-126 | With distinct directories every name is listed at most once |
| Plan.NoDuplicatesExactly | scripts/ci/plan.py:116-126 | No path is listed twice if and only if no chosen patch lies in a directory that is a layer twice |
| Plan.CommonAsBaseDuplicates | scripts/ci/plan.py:61-75 | With BASE_BOARD = common a patch of the common layer is listed twice |

## Left out

- NULL arguments, closed handles and failing system calls other than the ioctls (EINTR, clock and pthread errors): the model has none of them.
- Library.Handle.Poll: an infinite wait that nothing ends is the status Blocked, reached when the world's script ends; a finite poll may end at any time, so that no contract relies on the kernel's timer.
- Library.Handle.ReceiveFromKernel: the driver hands up only responses with a nonzero sequence and a legal length; the library's own check for others is in the code but is not reached.
- Library.Handle.SubmitNative: a driver that takes nothing and reports success, or more than the batch, is outside the model, as is the EPROTO that the library answers with.
- Worlds.Honest: the clock stays below 2^63 milliseconds; a clock that fails and reads as zero is not modelled.
- The Linux kernel driver of the shared memory and of the mailbox is not part of this model; what the library and the mailbox rely on is stated as its behaviour (fresh sequences, one response for each request, header last into a free slot under the lock).
- Relays.Work: attaching, restarts and the limit of 64 requests a doorbell are in Transport and not in the machine of two rings; after a corrupt ring that machine does nothing more. That an operation of the class Rings.Ring is atomic in Transport is justified by the refinement of each ring and of the loop to plain queues (RingProof, RelayProof), and the two models are not connected by a formal refinement.
- The class Handle is seen by one thread; that a section under a lock is not interrupted is what LibraryThreads proves about the locks, and the two are not connected by a formal refinement.
- LibraryThreads: sequences are any that the driver may choose, so that reuse takes no 2^32 requests; payloads and deadlines are not in it, a wait may expire at any time.
- Memory barriers are program order: the ring machine does not reorder the accesses of one side.
- Lines of a slot are whole: a slot is 16 cache lines, and a line is read or written at once.
- Transport.ShmTransport.Process: a restart of the generation by Linux happens between two calls, not during one; the control block is read at once.
- Transport.ShmTransport.LinuxReap: Linux reads the ring as the same algorithm without caches; its driver is not part of this model.
- GPIO pins are a set of pins and their levels; inputs that change from outside are not modelled.
- The legacy CMDQU path, sg2002_rtos_call with its typed wrappers, open, close and the native batch query: one-step codecs and resource handling.
- ThreadBench: the firmware may answer in any order, which is more than it does; statistics and durations are left out, and after a failure nothing is claimed but that the dispatcher has stopped.
- Windows.WindowedPhase.Run: ends with the status SCRIPT_ENDED when the script of the channel does; statistics are left out.
- Mailbox: the interrupt, enable and doorbell registers; the enable register is changed by a read and a write that nothing makes atomic, so no claim about pending interrupts is made.
- Mailbox.SlotArea.ReceiveCommands: the sequential form, between the steps of the other side; the interleaved form is the state machine of the same module.
- Plan.BoardChain: the text of board.mk and its assignment syntax are not parsed; a layer has its BASE_BOARD as a value.
- Plan.PatchFiles: directory listings are sets of names; file system errors are not modelled.
- Search.FileOccurrences: opening and reading the file, and the encoding of the needles.
- Percentiles, printing and argument parsing of the benchmarks, the FreeRTOS tasks, device trees, patches and the other scripts: no deep invariant.
