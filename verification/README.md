# Verification of the networking kit's core structures and protocols

This project models the hand-written data structures of the C++ networking kit
under `ndk/`, and the file-cache server built on them under `apps/fcache/`, and
proves what they promise. Every `.dfy` file belongs to one project; check it with
`dafny verify dfyconfig.toml`.

## What is modelled

**Asynchronous file I/O** (`Aio*.dfy`). `AioSpec` is the abstract request queue, a
sequence of groups, one per file handle. `AioQueue` is the linked structure
itself: nodes with `next_`, `prev_` and `header_` links, the pool indexed by
descriptor, the free list; every operation is proved to do to the abstract queue
what `AioSpec` says, and `AioOrder` says where that puts a request, and in what order
requests are handed out. `AioRunning` is the running list. `AioProtocol`, `AioSafety`
and `AioTheorems` take submitters, cancellers and workers as a state machine, one
step per critical section, and prove what holds in every run. `AioTask` puts queue
and running list together, and proves that each critical section of the object is
the protocol's step.

**File transfers** (`Transfer*.dfy`, `SerialTransfer.dfy`). Any number of double
buffered transfer agents on top of the scheduler, with the dispatcher that drives
and closes them and the workers that fill their buffers. The buffers, the bytes in
them and who owns them are part of the state, so that a use after free or a failed
assertion is a fault; the only fault there is comes of a transfer of an empty range.
The prefetch can read past the end of the requested range, and an agent that has sent
more than its range then asks for less than nothing, which as a `size_t` is more than
can be read; `ExactlySafe` says for which ranges that can happen. The read fails, and
the run goes on: everything else holds in every run, whatever the ranges.
`SerialTransfer` has the agent as an object: its critical sections, with the calls
into the scheduler object, refine the system's steps, and `transfer_data` as a whole
sends what it has read in order and loses nothing.

**Timers** (`TimeValue.dfy`, `Timer*.dfy`). The binary heap with its inverse id
table, growth, sifting, cancellation, expiry and periodic re-arming, over
`time_value` arithmetic.

**Memory pool** (`Slab*.dfy`, `MemPool.dfy`). Chunk headers in
explicit memory, splitting and merging, and the slab list that keeps itself
sorted. The in-use mark of a new header is whatever the memory held before: it is
an arbitrary parameter.

**Cache** (`Cache*.dfy`). Map, recency list with back pointers, pending list,
reference counts and water marks.

**Token** (`Token*.dfy`). The ownership-passing lock as a state machine, and as an
object with linked wait queues that refines it. `TokenHistory` relates nesting and
queues to what the threads have asked for.

**Message queue** (`Message*.dfy`), **crontab ranges** (`CronRange.dfy`) and the
**dispatcher's budget** (`Dispatch.dfy`). A job drives either kind of agent, from
memory or from the file, through one `transfer_data` and one `close`.

`Lists`, `Runs`, `Packets` and `Hints` are shared: linked lists in explicit memory, where a link field
is a sequence indexed by node and slot 0 is the null pointer, and runs of a state
machine given by its step relation; what sockets and disks answer; and a way to keep
an object's invariant out of proofs that do not need it. The scheduler, the pool, the deque, the token
queues and the message queue keep their links that way: what the source does by
writing `p->next_ = q` reads `next := next[p := q]`.

## Where the code does less than one would expect

Each of these is a theorem with the exact condition, or a concrete run.

- A transfer can send more than its range: `TransferOvershoot.ExactlySafe` proves that
  this is possible exactly when blocks hold more than one byte, the range more than
  two, and the file goes on beyond the range; and that then, and only then, a worker can
  be asked to read more than a buffer holds.
- A transfer of an empty range fails the assertion of `start_aio`, and no other transfer
  fails one (`TransferOvershoot.ExactlyFails`, `TransferTheorems.FaultExact`).
- After `close()` has returned 0 a deleted agent can still be named by a request in the
  running list (`TransferOvershoot.DeletedYetListed`): exactly while the worker that has
  made its callback has yet to take it off the list (`TransferTheorems.ListedThoughClosed`).
- `cancel_aio` takes an id out of the queue exactly when no request of that id waits on
  another handle than the one named (`AioTheorems.CancelClears`); otherwise it can answer
  that a request is cancelled that waits on (`AioTheorems.CanceledOnOtherHandle`).
- Growing the timer table keeps every timer's entry exactly when the last id of the
  table is not in use (`TimerHeap.GrowthKeepsIds`); below capacity that is always so
  (`TimerQueue.Queue.Run`), and from a queue that was full a timer gets lost
  (`TimerQueue.LosesTimerAtCapacity`).
- A wait for the token that times out leaves it in order exactly when no thread holds it
  at that moment (`TokenSafety.TimeoutExact`, `TokenSafety.TimeoutBreaksExclusion`).
- Comparing `time_value`s is numeric whenever one of the two is not negative
  (`TimeValue.CompareIsNumeric`); two negative ones may compare the wrong way
  (`TimeValue.NegativesMisorder`), exactly when `TimeValue.ComparesExactly` says so.
- A put that succeeds leaves its key with two objects exactly when the key's previous
  object has references, or is pending while there is room enough
  (`CacheManager.Manager.Put`); `CacheManager.TwoObjectsForOneKey` gets there. A single
  thread that puts only what it could not get, as in
  `apps/fcache/mem_cache_transfer.cpp`, never does; two threads that miss the same key can.
- A slab whose blocks have all come back is one chunk again when the memory behind every
  split was zero (`MemPool.AllMerged`); with any other value it may stay split
  (`MemPool.StaysSplit`).
- A clock that goes back resets a job's budget, as if more than a second had passed
  (`Dispatch.OverASecond`); and a read that fails does not stop the job, since the agent
  reports it with a positive number (`Dispatch.Job.Spend`).
- Asking a nonempty message queue for fewer than -1 blocks follows a null pointer, and
  nothing else does (`MessageQueue.Queue.DequeueN`).
- Comments in `ndk/asynch_file_io.h:230` call `queue_list_` a single link; the code keeps
  it doubly linked, and so does the model.

## Model

| member | source | states |
|---|---|---|
| `AioSpecLemmas.SubmitCorrect` | ndk/asynch_file_io.cpp:80-175 | Posting keeps one group per handle, groups non-increasing in descriptor priority and members non-increasing in I/O priority, and adds exactly the new request |
| `AioSpecLemmas.CancelCorrect` | ndk/asynch_file_io.cpp:188-253 | Cancelling keeps the order and removes exactly one request of that handle and id, or nothing if there is none |
| `AioSpecLemmas.SubmitThenCancel` | ndk/asynch_file_io.cpp:80-253 | Cancelling the request just posted restores the queue, descriptor priorities included |
| `AioSpecLemmas.PopIsShortestPrefix` | ndk/asynch_file_io.cpp:276-323 | Popping takes the shortest prefix of whole groups that holds the wanted number of requests, or everything |
| `AioSpecLemmas.PopCorrect` | ndk/asynch_file_io.cpp:276-323 | What is popped and what is left make up the queue, and what is left is in order |
| `AioOrder.SubmitPlace` | ndk/asynch_file_io.cpp:81-175 | Where posting puts a request: only a higher I/O priority makes it the top or the head of the sub-queue, and behind them it goes in front of the first member of a lower priority, or of the same one and a greater offset; a new group goes behind all groups of at least its descriptor priority. Nothing else changes |
| `AioOrder.JoinPlace` | ndk/asynch_file_io.cpp:119-174 | The place of a request in its group, by priorities and offsets alone; the other members keep their order |
| `AioOrder.OnePlaceOnly` | ndk/asynch_file_io.cpp:119-174 | Priorities and offsets leave a request one place only |
| `AioOrder.CancelKeepsOrder` | ndk/asynch_file_io.cpp:197-253 | Cancelling takes out one request, and all others stay in their order |
| `AioOrder.PostedArranged` | ndk/asynch_file_io.cpp:119-174 | Requests of one handle and one I/O priority, posted into an empty slot with any others in between: the queue holds the first two as they were posted, and the others by offset, those at one offset as they were posted |
| `AioOrder.PoppedByOffset` | ndk/asynch_file_io.cpp:80-323 | Posted by ascending offset, they are handed out in that order: a worker takes all of them, or none |
| `AioQueue.RequestQueue.constructor` | ndk/asynch_file_io.cpp:27-39 | The initial structure is valid and empty |
| `AioQueue.RequestQueue.StartAio` | ndk/asynch_file_io.cpp:40-180 | Refuses exactly when more requests than the limit are outstanding; otherwise the next id is assigned, wrapping at INT_MAX, and the linked structure spells out the queue with the request posted |
| `AioQueue.RequestQueue.OpenGroup` | ndk/asynch_file_io.cpp:81-113 | A request for an empty slot becomes a group of its own at its place among the tops |
| `AioQueue.RequestQueue.TakeOver` | ndk/asynch_file_io.cpp:119-140 | A request that outranks the top replaces it, keeps the group's place and its descriptor priority, and the old top heads the sub-queue |
| `AioQueue.RequestQueue.JoinSub` | ndk/asynch_file_io.cpp:141-174 | Any other request joins the sub-queue at its place |
| `AioQueue.RequestQueue.CancelQueued` | ndk/asynch_file_io.cpp:187-253 | The relinking of the three cancel branches removes the request from the abstract queue and frees its node |
| `AioQueue.RequestQueue.RemoveTop` | ndk/asynch_file_io.cpp:197-232 | Removing a top unlinks its group, or promotes the head of its sub-queue in its place |
| `AioQueue.RequestQueue.FindBehind` | ndk/asynch_file_io.cpp:241-251 | The search stops before the first member with the id, or at the last member if there is none |
| `AioQueue.RequestQueue.UnlinkMember` | ndk/asynch_file_io.cpp:232-253 | The search finds the first member with the id and unlinks it, and changes nothing otherwise |
| `AioQueue.RequestQueue.PopBatch` | ndk/asynch_file_io.cpp:276-323 | The batch is a nil-terminated chain of the popped groups in order, and the structure spells out the rest |
| `AioQueue.RequestQueue.FreeAioOptN` | ndk/asynch_file_io.cpp:436-448 | A finished batch returns to the free list and the count of outstanding requests falls by its length |
| `AioQueue.RequestQueue.AllocAioOpt` | ndk/asynch_file_io.h:187-204 | Gives a reset node that was free, and counts it, unless the limit is exceeded |
| `AioQueue.RequestQueue.FreeAioOpt` | ndk/asynch_file_io.h:207-222 | Puts a node that is in nobody's list back on the free list and counts it |
| `AioRunning.RunningList.EnqueueToRunningList` | ndk/asynch_file_io.cpp:368-391 | Appends the batch, in order, to the running list |
| `AioRunning.RunningList.DequeueFromRunningList` | ndk/asynch_file_io.cpp:392-424 | Removes the request's cell and keeps head, tail and free list right |
| `AioRunning.RunningList.FindInRunningList` | ndk/asynch_file_io.cpp:425-435 | Answers whether a request of that id is in the list |
| `AioTask.Scheduler.StartAio` | ndk/asynch_file_io.cpp:40-180 | Refuses exactly when more requests than the limit are outstanding; otherwise the id is that of the protocol's count of accepted requests, and queue, running list and counter are those after the protocol's step; batches in workers' hands stay linked |
| `AioTask.Scheduler.CancelAio` | ndk/asynch_file_io.cpp:181-257 | The whole of cancel_aio, where its assertions hold, is the protocol's step, and it answers cancelled exactly when no request in the running list has the id; batches in workers' hands stay linked |
| `AioTask.Scheduler.TakeBatch` | ndk/asynch_file_io.cpp:258-275 | Popping a batch and entering it in the running list is the protocol's step: the list has grown by exactly the batch, whose nodes are linked, different, and the worker's; other workers' batches stay linked, and share no node with it |
| `AioTask.Scheduler.Finish` | ndk/asynch_file_io.cpp:392-424 | Taking the request just served off the running list is the protocol's step, and takes off no other |
| `AioTask.Scheduler.FreeBatch` | ndk/asynch_file_io.cpp:436-448 | Freeing a batch whose requests are off the running list leaves queue and running list as they are; other workers' batches stay linked |
| `AioTask.Scheduler.ServeBatch` | ndk/asynch_file_io.cpp:258-367 | One round of a worker: what it pops it serves in order, takes off the running list and frees, each by the protocol's steps; afterwards the running list is what it was, and the worker idle |
| `AioSafety.StepKeeps` | ndk/asynch_file_io.cpp:40-448 | Every critical section keeps the agreement of queue, running list, workers and the accepted requests' status |
| `AioSafety.ListedAfterCallback` | ndk/asynch_file_io.cpp:324-424 | A request that waits for no callback is in the running list if and only if some worker has called its handler and has yet to take it off |
| `AioTheorems.OnePlace` | ndk/asynch_file_io.cpp:181-275 | In every state of every run each accepted request is in exactly one of queued, running, completed, cancelled, and the ids in queue and running list are those of the requests that are there |
| `AioTheorems.CancelClears` | ndk/asynch_file_io.cpp:181-257 | After cancelling, the id is out of the queue exactly when no request of that id waits on another handle |
| `AioTheorems.CanceledOnOtherHandle` | ndk/asynch_file_io.cpp:181-193 | A run in which a cancellation that names another handle is answered cancelled while the request waits on |
| `AioTheorems.CancelAnswers` | ndk/asynch_file_io.cpp:181-257 | In every reached state: a request that waits on the handle is cancelled, and so answered; one that runs goes on, and is answered as not cancelled; one that is final stays as it was |
| `AioTheorems.FinalForever` | ndk/asynch_file_io.cpp:324-435 | A completed or cancelled request stays so for the rest of any run |
| `AioTheorems.CallbackOfRunning` | ndk/asynch_file_io.cpp:324-367 | Every callback is that of one accepted request, which is running |
| `AioTheorems.CanceledNeverCalledBack` | ndk/asynch_file_io.cpp:181-257 | Once a request was answered cancelled, no callback for it starts in any continuation of the run |
| `TransferSafety.SystemKeeps` | apps/fcache/serial_file_transfer.cpp:51-258 | Every step of dispatcher, clients and workers, whatever the ranges, keeps the invariant of buffers, requests and agents; a step is a fault if and only if it opens a transfer of an empty range |
| `TransferSafety.FetchInRange` | apps/fcache/serial_file_transfer.cpp:79-93 | A read that an agent starts asks for something and, for a safe range, cannot be given bytes beyond it |
| `TransferSafety.CountOk` | apps/fcache/serial_file_transfer.cpp:83-85 | An agent that has sent less than its range asks for between one byte and a block; one that has sent more asks, as a size_t, for more than can be read |
| `TransferSafety.OtherBuffer` | apps/fcache/serial_file_transfer.cpp:79-106 | Two workers never read into the same buffer |
| `TransferSafety.ClosedIsQuiet` | apps/fcache/serial_file_transfer.cpp:240-258 | When the cancellation is answered with success, no request that can still call back names the agent |
| `TransferTheorems.BytesInOrder` | apps/fcache/serial_file_transfer.cpp:108-234 | In every interleaving, whatever the ranges, the bytes handed to the socket are exactly the file's from the start of the range on, in order; and never more than the range if it is a safe one |
| `TransferTheorems.FaultExact` | apps/fcache/serial_file_transfer.cpp:79-258 | In every interleaving, whatever the ranges, nothing freed is touched and no assertion fails, if and only if no transfer of an empty range is opened |
| `TransferTheorems.CountsAreBlocks` | apps/fcache/serial_file_transfer.cpp:79-106 | A request that can still call back asks for at most a block, or comes from an agent of an unsafe range and asks for more than can be read |
| `TransferTheorems.OneReadInFlight` | apps/fcache/serial_file_transfer.cpp:201-223 | A request that can still call back is the only one of a live agent, has the id the callback asserts, and fills the reserve buffer, not the one being sent |
| `TransferTheorems.ClosedIsForgotten` | apps/fcache/dispatch_data_task.cpp:113-167 | After close() returned 0, and after deletion, no queued request names the agent and no callback for it is outstanding |
| `TransferTheorems.ListedThoughClosed` | apps/fcache/dispatch_data_task.cpp:113-167 | After close() returned 0, and after deletion, a request that names the agent is in the running list if and only if a worker is between its callback and taking it off |
| `TransferTheorems.ClientUntouched` | apps/fcache/dispatch_data_task.cpp:153-167 | From the moment a job is close-pending until its deletion, nothing is sent to its client |
| `TransferTheorems.BudgetExceededByLessThanAPacket` | apps/fcache/serial_file_transfer.cpp:141-168 | One call of transfer_data exceeds its budget by less than 4096 bytes |
| `TransferOvershoot.Overshoots` | apps/fcache/serial_file_transfer.cpp:79-200 | For every range with blocks over one byte, content over two and a longer file, a run that sends more than the range and then asks a worker for more than a buffer holds |
| `TransferOvershoot.ExactlySafe` | apps/fcache/serial_file_transfer.cpp:79-200 | The caller-checkable condition on block size, content and file length holds if and only if a transfer of the range leaves it in no run, alone or among others, and if and only if in no run with this range alone a worker is asked for more than a buffer holds |
| `TransferOvershoot.ExactlyFails` | ndk/asynch_file_io.cpp:40-50 | An assertion of start_aio fails in some run that opens this range alone if and only if the range is empty |
| `TransferOvershoot.DeletedYetListed` | apps/fcache/serial_file_transfer.cpp:240-258 | A run in which a deleted agent is still named by a request in the running list |
| `SerialTransfer.Transfer.constructor` | apps/fcache/serial_file_transfer.cpp:13-30 | A new agent has nothing read, sent or in flight |
| `SerialTransfer.Transfer.HandleRead` | apps/fcache/serial_file_transfer.cpp:201-234 | The callback changes the fields as the system's callback step does |
| `SerialTransfer.Transfer.TakeReserve` | apps/fcache/serial_file_transfer.cpp:124-134 | The buffer read into becomes the one being sent |
| `SerialTransfer.Transfer.SendPackets` | apps/fcache/serial_file_transfer.cpp:137-175 | The send loop is one send of the sum of its packets, as many bytes as the socket's replies determine, stays in the buffer, and exceeds the budget by less than a packet; it fails exactly when the reply it ends with does |
| `SerialTransfer.Transfer.AfterLoop` | apps/fcache/serial_file_transfer.cpp:176-190 | Decides whether to stop, rest or prefetch, and frees exactly an emptied buffer |
| `SerialTransfer.Transfer.StartRead` | apps/fcache/serial_file_transfer.cpp:79-107 | Asks the scheduler for the smaller of a block and what has not been sent, as a size_t, from the end of what was read; taken or refused, agent and scheduler change as in the system's step |
| `SerialTransfer.Transfer.Ask` | apps/fcache/serial_file_transfer.cpp:79-107 | The one request that is posted is that for the next block, of the given I/O priority; it is refused exactly when too many are outstanding |
| `SerialTransfer.Transfer.Arrive` | apps/fcache/serial_file_transfer.cpp:201-234 | A read that has been served appends its bytes to what is ready to be sent, or notes the end of the file or the failure |
| `SerialTransfer.Transfer.Begin` | apps/fcache/serial_file_transfer.cpp:113-135 | There is something to send from exactly if there is a buffer, or one that was read into; otherwise a read is asked for exactly if none is in flight |
| `SerialTransfer.Transfer.Prefetch` | apps/fcache/serial_file_transfer.cpp:189-199 | Reports the read that failed, or the end of the file, once the buffer is out; otherwise a prefetch is asked for exactly if it is due |
| `SerialTransfer.Transfer.Close` | apps/fcache/serial_file_transfer.cpp:240-258 | Succeeds exactly when no read is in flight, or none of its id is in the running list; by that answer, agent and scheduler change as in the system's step |
| `SerialTransfer.Transfer.Transmit` | apps/fcache/serial_file_transfer.cpp:136-200 | Send loop, freed buffer and the report of the last read together send the next bytes that were ready, in order, and give an answer that the dispatcher can rely on |
| `SerialTransfer.Transfer.TransferData` | apps/fcache/serial_file_transfer.cpp:108-200 | A whole call, with reads arriving between its critical sections: it takes over the buffer that was read into, sends as many of the bytes at hand as the replies determine, in order, loses none, returns what socket and reads have met, and leaves no read due that the scheduler has not refused; a positive answer without a byte sent means that a buffer was given up, and a zero one after all was taken that there is nothing more at hand |
| `Packets.SendsOnce` | apps/fcache/serial_file_transfer.cpp:137-175 | The replies of a socket determine how much a send loop sends |
| `Packets.SomethingSent` | apps/fcache/serial_file_transfer.cpp:137-175 | If there are bytes at hand and wanted, and the socket takes some of the first packet, something is sent |
| `Packets.WillingIsDone` | apps/fcache/serial_file_transfer.cpp:137-175 | With a socket that takes something of every packet the loop ends because enough was sent, all that is at hand, or all that is wanted |
| `TimeValue.Value.Normalize` | ndk/time_value.cpp:9-30 | The loops compute the closed form of the normal form |
| `TimeValue.Normalized` | ndk/time_value.cpp:9-30 | The normal form stands for the same time and has both parts in range |
| `TimeValue.CanonicalUnique` | ndk/time_value.cpp:9-30 | A normal time is canonical exactly when it is not negative, and the canonical form is unique |
| `TimeValue.CompareIsNumeric` | ndk/time_value.h:155-183 | Between normal times of which one is not negative, the lexicographic comparison is the numeric one |
| `TimeValue.ComparesExactly` | ndk/time_value.h:155-183 | Comparing two normal times is comparing numbers if and only if they are not a second apart with the microseconds of the earlier one about a million ahead |
| `TimeValue.NegativesMisorder` | ndk/time_value.h:155-183 | Two negative normal times that compare against their values |
| `TimeValue.Value.Set` | ndk/time_value.h:59-64 | Sets the normal form of the given parts |
| `TimeValue.Value.Add` | ndk/time_value.h:111-117 | Adding gives the normal form of the sum |
| `TimeValue.Value.Subtract` | ndk/time_value.h:125-131 | Subtracting gives the normal form of the difference |
| `TimerHeap.FirstIsEarliest` | ndk/timer_queue.h:158-161 | The first timer of an ordered heap is due no later than any other |
| `TimerHeap.Pigeonhole` | ndk/timer_queue.cpp:796-823 | n ids in use below n are all of 0 to n-1 |
| `TimerHeap.GrowRep` | ndk/timer_queue.cpp:796-823 | Copying the first n entries keeps the table the inverse of the heap exactly when every id in use is below n |
| `TimerHeap.GrowthKeepsIds` | ndk/timer_queue.cpp:769-771 | When insert grows the arrays, no timer loses its entry exactly when the last id of the table is not in use |
| `TimerHeap.NextId` | ndk/timer_queue.cpp:244-256 | With room for one more, or the last id free, an id is always found, and at the moment of growth it is the next in line |
| `TimerQueue.Queue.constructor` | ndk/timer_queue.cpp:152-243 | A new queue is valid and empty |
| `TimerQueue.Queue.AllocId` | ndk/timer_queue.cpp:244-256 | Gives the smallest id not in use, or -1 exactly when all are |
| `TimerQueue.Queue.ReleaseId` | ndk/timer_queue.cpp:257-266 | The released id is free and the hint stays below all free ids |
| `TimerQueue.Queue.GrowHeap` | ndk/timer_queue.cpp:796-823 | The new arrays have twice the timers' number, at most the maximum, with the first entries copied and the rest empty |
| `TimerQueue.Queue.ReheapUp` | ndk/timer_queue.cpp:824-845 | The sift restores the heap order and keeps the id table exact |
| `TimerQueue.Queue.ReheapDown` | ndk/timer_queue.cpp:846-871 | The sift restores the heap order and keeps the id table exact |
| `TimerQueue.Queue.Insert` | ndk/timer_queue.cpp:765-779 | Adds exactly the timer, growing if one entry is left |
| `TimerQueue.Queue.Remove` | ndk/timer_queue.cpp:933-959 | Takes exactly the timer in the slot out of the heap, and leaves its id entry stale |
| `TimerQueue.Queue.Schedule` | ndk/timer_queue.cpp:327-356 | Refuses exactly when full; otherwise the timer gets the smallest free id, so id allocation never fails, the table stays exact, and below capacity there is room for the next |
| `TimerQueue.Queue.Cancel` | ndk/timer_queue.cpp:1004-1031 | Cancels exactly the timer of that id and returns its argument; without assertions an id that is not in use is answered -1, and with them one in range stops the program |
| `TimerQueue.Queue.CancelHandler` | ndk/timer_queue.cpp:1070-1098 | Cancels exactly the handler's timers and returns their number |
| `TimerQueue.Queue.DispatchTimer` | ndk/timer_queue.cpp:1187-1218 | Fires an earliest timer if it is due, and says so only if none is due; periodic timers are armed again |
| `TimerQueue.Queue.Expire` | ndk/timer_queue.cpp:1155-1186 | One call fires at most one timer; a periodic timer whose handler fails is cancelled |
| `TimerQueue.Queue.ExpireAll` | ndk/timer_queue.cpp:1155-1218 | Repeated calls end, and fire exactly the due timers, in numbers those whose deadline is no later than now, once each, in the order of their deadlines; the periodic ones are left armed after now, and the table keeps its room |
| `TimerQueue.Queue.Perform` | ndk/timer_queue.cpp:327-356 | Every operation does to the timers what it says, keeps heap and table in order, and leaves room for the next as long as the queue is not full |
| `TimerQueue.Queue.Run` | ndk/timer_queue.cpp:244-1223 | In any history of scheduling, cancelling and expiring that does not fill the queue, heap and table stay in order, no id is lost and none is ever missing, and each operation does what it says |
| `TimerQueue.LosesTimerAtCapacity` | ndk/timer_queue.cpp:327-356 | From a new queue for three: three timers are put in, one is cancelled, and scheduling another grows the table and loses the entry of a live timer |
| `TimerQueue.Queue.CalculateTimeout` | ndk/timer_queue.cpp:267-326 | The wait is the least of the gaps to the deadlines and the caller's limit; zero if a timer is due |
| `TimerQueue.NextDeadline` | ndk/timer_queue.cpp:1203-1209 | The do-while loop computes the re-armed deadline |
| `TimerSpec.RearmedIsLeast` | ndk/timer_queue.cpp:1199-1211 | The deadline moves by the least multiple of the interval, at least one, that takes it past now |
| `TimerSpec.DueIsNumeric` | ndk/timer_queue.cpp:1187-1193 | A timer is due exactly when its deadline, in microseconds, is no later than a time that is not negative |
| `TimerSpec.ProgressStep` | ndk/timer_queue.cpp:1155-1218 | Firing the earliest due timer keeps the order of firing and what is left |
| `TimerSpec.ProgressEnd` | ndk/timer_queue.cpp:1155-1218 | When none is due, exactly the due timers have fired and the periodic ones are re-armed |
| `SlabTiles.SplitTiled` | ndk/mem_pool.cpp:269-289 | Splitting keeps the chunks tiling the slab with consistent links |
| `SlabTiles.AbsorbTiled` | ndk/mem_pool.cpp:331-387 | Merging two neighbours keeps the chunks tiling the slab with consistent links |
| `SlabTiles.LiveApart` | ndk/mem_pool.cpp:257-300 | Live blocks are in bounds, at least as large as asked for, and do not overlap |
| `SlabTiles.AbsorbTracked` | ndk/mem_pool.cpp:390-396 | After a merge the tracked chunk is intact or the merged chunk is larger |
| `SlabTiles.TrackLarger` | ndk/mem_pool.cpp:390-396 | Tracking the merged chunk if it is larger leaves a genuinely free chunk of the recorded size tracked |
| `SlabList.SwapLinked` | ndk/mem_pool.cpp:196-222 | The six link writes swap two neighbours of the slab list |
| `SlabList.FirstIsTightest` | ndk/mem_pool.cpp:172-183 | In the sorted list the first sufficient slab is the tightest one |
| `MemPool.RoundUp` | ndk/mem_pool.h:109-109 | The least multiple of the alignment that is not smaller |
| `MemPool.Slab.constructor` | ndk/mem_pool.cpp:82-103 | A new slab is one free chunk of the whole size |
| `MemPool.Slab.Pop` | ndk/mem_pool.cpp:257-300 | Hands out a block of at least the size asked for from the tracked chunk, and goes on tracking the rest if that is more than a header; the slab stays tiled, whatever the unwritten mark holds, and no live block changes |
| `MemPool.Slab.Free` | ndk/mem_pool.cpp:319-404 | Takes back exactly that block, merges it with free neighbours, keeps the slab tiled and no live block changes; what is tracked afterwards is no smaller than the block, nor than what was tracked before |
| `SlabMarks.PrevClean` | ndk/mem_pool.cpp:330-352 | In a slab whose free chunks are marked and apart, merging backward leaves no free chunk before the result |
| `SlabMarks.NextClean` | ndk/mem_pool.cpp:353-381 | Merging forward then leaves no two free chunks as neighbours |
| `MemPool.AllMerged` | ndk/mem_pool.cpp:269-404 | A slab with zeros behind every split is one chunk again when nothing is handed out, and tracks all of it |
| `MemPool.StaysSplit` | ndk/mem_pool.cpp:269-404 | For any other value behind a split, a run after which nothing is handed out and the slab is still two chunks |
| `MemPool.Pool.constructor` | ndk/mem_pool.cpp:44-75 | The pool starts valid, with the slab size rounded up, the slabs asked for up to the limit, and nothing handed out |
| `MemPool.Pool.AllocSlabs` | ndk/mem_pool.cpp:76-131 | Appends as many fresh slabs as asked for, or as many as the limit leaves, keeps the list sorted, and returns the first new one |
| `MemPool.Pool.FindUsable` | ndk/mem_pool.cpp:172-183 | Finds the tightest slab that tracks enough, or none exactly when none does |
| `MemPool.Pool.RollAhead` | ndk/mem_pool.cpp:186-223 | Swapping toward the head restores the order after a tracked size has shrunk |
| `MemPool.Pool.RollBack` | ndk/mem_pool.cpp:224-255 | Swapping toward the tail restores the order after a tracked size has grown |
| `MemPool.Pool.Malloc` | ndk/mem_pool.cpp:140-171 | Fails exactly when the size exceeds a slab, or no slab suffices and no more may be allocated; otherwise exactly one block, of the size rounded up, is new; it comes from the tightest slab that suffices, which tracks the rest, and slabs are added, fresh ones, only if there is none |
| `MemPool.Pool.Free` | ndk/mem_pool.cpp:301-406 | Null is ignored; otherwise exactly that block is taken back, its slab tracks a chunk at least as large, and the list is sorted again |
| `MemPool.Pool.Run` | ndk/mem_pool.cpp:132-406 | Any history of a client that gives back what it has got, in any order: the pool stays in order, the live blocks are exactly those that the client holds, and right after a block was given back no request fails for as much or less |
| `MemPool.Pool.HeldApart` | ndk/mem_pool.cpp:257-406 | Any two blocks that the client holds in a slab are in bounds, at least as large as asked for, and do not overlap |
| `MemPool.Pool.BlocksApart` | ndk/mem_pool.cpp:257-406 | Any two live blocks of a slab of the pool are in bounds and do not overlap |
| `CacheDeque.Deque.Insert` | ndk/cache_deque.h:75-83 | A new item, recycled if possible, goes to the end of the list |
| `CacheDeque.Deque.RemoveFirst` | ndk/cache_deque.h:88-99 | The first item leaves the list and is recycled |
| `CacheDeque.Deque.Adjust` | ndk/cache_deque.h:120-132 | The item moves to the end of the list |
| `CacheDeque.Deque.Unlink` | ndk/cache_deque.h:172-191 | The four unlinking cases remove the item from the doubly linked list |
| `CacheDeque.Deque.Append` | ndk/cache_deque.h:161-170 | Linking at the tail appends the item |
| `CacheStore.Findable` | ndk/cache_manager.cpp:95-107 | Every object that was not dropped is found under its key, in the map or among the pending ones |
| `CacheStore.DropOk` | ndk/cache_manager.cpp:153-167 | Dropping an object takes exactly its size from the total, and it never comes back |
| `CacheLinks.FirstIsLeastRecent` | ndk/cache_manager.cpp:201-220 | The head of the list is the mapped key used least recently |
| `CacheManager.Manager.constructor` | ndk/cache_manager.cpp:15-32 | A new cache is valid and empty |
| `CacheManager.Manager.Get` | ndk/cache_manager.cpp:95-107 | Finds the mapped or else the pending object and takes a reference; only a hit in the map makes the key the most recent |
| `CacheManager.Manager.Release` | ndk/cache_manager.cpp:49-54 | Gives back one reference and changes nothing else |
| `CacheManager.Manager.FlushPending` | ndk/cache_manager.cpp:237-265 | Drops exactly the pending objects without references, and answers whether the water is down to the low mark |
| `CacheManager.Manager.EvictFirst` | ndk/cache_manager.cpp:206-219 | Evicts the least recently used object: dropped if it has no references, else set aside and still counted |
| `CacheManager.Manager.Flush` | ndk/cache_manager.cpp:201-220 | Brings the water down or shortens the list, and fails only when nothing is mapped; an object is evicted only if nothing was pending, or the water was above the low mark after the sweep |
| `CacheManager.Manager.FlushAll` | ndk/cache_manager.cpp:74-93 | Unmaps everything; objects with references stay findable, the others are dropped once, pending ones too |
| `CacheManager.Manager.MakeRoom` | ndk/cache_manager.cpp:169-199 | If the new object would exceed the high mark, the eviction loop ends even if every victim is referenced. It fails if and only if there was no object at all, or those with references exceed the low mark; the least recently used go first, and none goes while the water is at the low mark, but for the first when nothing was pending |
| `CacheLinks.EvictsInTime` | ndk/cache_manager.cpp:184-198 | Evicting the least recently used key while the water is above the low mark keeps to that order and stops in time |
| `CacheStore.AllNeeded` | ndk/cache_manager.cpp:201-265 | When nothing is mapped and all that is pending has references, the water is the size of what has references |
| `CacheManager.Manager.Put` | ndk/cache_manager.cpp:109-151 | A put of an acceptable size under a key that is not mapped fails if and only if room is needed and cannot be made. A successful one maps a new object with one reference as the most recent, within the bound of the water marks, and leaves the cache in order if and only if, before it, the key's object had no references and, if pending, there was too little room; a failed one drops at most objects without references. Objects keep their keys; every key evicted was used before every key that stays, and the last of them left while the water was above the low mark, or was the only one and nothing was pending |
| `CacheManager.TwoObjectsForOneKey` | ndk/cache_manager.cpp:109-151 | From a new cache: a referenced object is evicted by the put of another key, its key is put again, and leads to two objects |
| `CacheManager.Manager.Run` | ndk/cache_manager.cpp:34-265 | In any history of clients that ask for keys, put what they could not get, give back references and flush: the cache stays in order and within the bound of the water marks, what is held is found under the key it was asked for, and the reference counts are exactly those of what is held |
| `CacheManager.Manager.HeldFound` | ndk/cache_manager.cpp:95-107 | What a client holds is what get finds under the key it was asked for |
| `CacheManager.Manager.Found` | ndk/cache_manager.cpp:95-107 | In every valid state each object is found under its key |
| `Token.WaitQueue.Insert` | ndk/token.cpp:143-163 | The entry goes to the end of the queue, or to its front for last-in-first-out |
| `Token.WaitQueue.RemoveEntry` | ndk/token.cpp:122-142 | The search unlinks exactly the entry, if it is there, and keeps the tail right |
| `Token.SharedToken.constructor` | ndk/token.h:41-49 | The token starts free, with empty queues |
| `Token.SharedToken.BeginAcquire` | ndk/token.cpp:14-45 | Takes a free token, nests for its owner, or queues the thread |
| `Token.SharedToken.PassOn` | ndk/token.cpp:91-119 | The fields change as the protocol's hand-over does |
| `Token.SharedToken.AfterWait` | ndk/token.cpp:58-89 | The thread leaves its queue exactly when it finds itself the owner |
| `Token.SharedToken.AfterTimeout` | ndk/token.cpp:60-84 | The fields change as the protocol's timeout does |
| `Token.SharedToken.GiveBack` | ndk/token.h:97-103 | Un-nests, or hands the token over |
| `TokenSafety.StepKeeps` | ndk/token.cpp:8-163 | Every critical section of untimed acquires and releases keeps the protocol's invariant |
| `TokenSafety.MutualExclusion` | ndk/token.cpp:8-163 | In every untimed run at most one thread holds the token and at most one is runable, a free token has no waiters, and the count of waiters is the length of the two queues |
| `TokenSafety.WakesMarked` | ndk/token.cpp:71-89 | A thread that wakes as the owner is runable, as the code asserts; with first-in-first-out it is the first of its queue |
| `TokenSafety.HandOver` | ndk/token.h:97-103 | The last release hands the token to the first writer, else the first reader, for the use it waits for, else frees it |
| `TokenHistory.NestingCounts` | ndk/token.cpp:17-29 | In every untimed run: a thread that holds the token has acquired it nesting + 1 times more often than released it, an idle one as often, and a waiting one once more |
| `TokenHistory.HoldsUntilReleased` | ndk/token.h:97-103 | A thread that has the token keeps it until it has released it as often as it acquired it |
| `TokenHistory.WaitingInTurn` | ndk/token.cpp:143-163 | In every untimed run each queue is in the order in which its threads began to wait; in the opposite order with last-in-first-out |
| `TokenSafety.TimeoutExact` | ndk/token.cpp:60-84 | A timed-out wait leaves the token in order if and only if no thread holds it |
| `TokenSafety.TimeoutBreaksExclusion` | ndk/token.cpp:60-84 | A run with a timed-out wait after which two threads hold the token |
| `MessageQueue.Queue.Seal` | ndk/message_queue.cpp:48-58 | The walk along a chain sets its backward links and counts its blocks |
| `MessageQueue.Queue.PutTail` | ndk/message_queue.cpp:46-74 | Enqueuing a chain at the tail appends it |
| `MessageQueue.Queue.PutHead` | ndk/message_queue.cpp:88-112 | Enqueuing a chain at the head prepends it, in its own order |
| `MessageQueue.Queue.Enqueue` | ndk/message_queue.cpp:33-45 | Null and a full queue are refused without waiting and nothing changes; blocks outside keep their links |
| `MessageQueue.Queue.TakeHead` | ndk/message_queue.cpp:137-153 | Gives the first block with cleared links; blocks outside keep their links |
| `MessageQueue.Queue.TakeTail` | ndk/message_queue.cpp:209-228 | Gives the last block with cleared links; blocks outside keep their links |
| `MessageQueue.Queue.TakeHeadN` | ndk/message_queue.cpp:166-197 | Gives the first blocks, as many as asked for and there, as a well-linked chain, and leaves the rest well linked; a null pointer is followed exactly for a number below -1; blocks outside keep their links |
| `MessageQueue.Queue.TakeTailN` | ndk/message_queue.cpp:241-273 | Gives the last blocks, as many as asked for and there, as a well-linked chain, and leaves the rest well linked; a null pointer is followed exactly for a number below -1; blocks outside keep their links |
| `MessageQueue.Queue.DequeueN` | ndk/message_queue.cpp:154-165 | Asking for none gives none; an empty queue is reported without waiting; a null pointer is followed exactly when there are blocks and the number is below -1; blocks outside keep their links |
| `CronRange.MarkSteps` | ndk/timer_queue.cpp:667-672 | One loop marks exactly every step-th position up to the end, in bounds |
| `CronRange.WrappedRange` | ndk/timer_queue.cpp:664-670 | The two loops of a wrapped range together mark exactly the cyclic positions reached from the start in whole steps, up to the end |
| `CronRange.MarkRange` | ndk/timer_queue.cpp:655-673 | Numbers out of range are refused; otherwise exactly the values reached, going around, are marked |
| `Dispatch.CastKeeps` | apps/fcache/mem_cache_transfer.cpp:106-109 | The casts of the position keep exactly the numbers below two to the 31st |
| `Dispatch.MemTransfer.TransferData` | apps/fcache/mem_cache_transfer.cpp:96-127 | As many bytes are sent as the replies determine; they continue the range, never past its end, and exceed the budget by less than a packet; the call fails exactly when the reply it ends with does |
| `Dispatch.TransferAgent.TransferData` | apps/fcache/transfer_agent.h:34-36 | Either agent sends as much of what is at hand as the replies determine, as the continuation of its output, exceeds the budget by less than a packet, and cannot go on forever without sending |
| `Dispatch.TransferAgent.Close` | apps/fcache/transfer_agent.h:42-42 | Closing either agent sends nothing, and succeeds exactly when no read is in flight, or the one that is is not running |
| `Dispatch.Job.OutOfBandwidth` | apps/fcache/dispatch_data_task.cpp:74-85 | The budget is reset exactly when over a second has passed, counted in unsigned milliseconds |
| `Dispatch.OverASecond` | apps/fcache/dispatch_data_task.cpp:74-85 | Between clock readings, the budget is reset exactly when 1001 milliseconds have gone by; or, if the clock has gone back, when that was into an earlier second or by a millisecond |
| `Dispatch.Job.QuotaExact` | apps/fcache/dispatch_data_task.cpp:179-179 | The quotas of a second are the bandwidth, but for less than a byte for each slice |
| `Dispatch.Job.TryClose` | apps/fcache/dispatch_data_task.cpp:113-133 | The agent is asked to close; if it cannot yet, the job waits to be closed, and only then |
| `Dispatch.Job.Spend` | apps/fcache/dispatch_data_task.cpp:180-212 | The inner loop ends whatever agent, disk and socket do, keeps the accounts, and sends the continuation of the output, something if there is something to send and the socket takes it. With a socket that takes what it is given it ends only with the budget spent, the job stopped or the agent out of bytes; and a job is stopped only by the end of its content, the end of the file, or a failing socket |
| `Dispatch.Job.Slice` | apps/fcache/dispatch_data_task.cpp:153-212 | One slice keeps the job's accounts, grants its quota unless the job sits out, and spends it as the inner loop does; a finished job is stopped, and a job that waits to be closed sends nothing and is done with exactly when its agent can close |
| `Dispatch.Job.Run` | apps/fcache/dispatch_data_task.cpp:143-213 | With either agent, over any number of slices the job sends at most its quota for each and less than a packet per reset and one more; since a reset, at most ticks times quota plus 4095 |

## Left out

- Reactors, acceptor, connector, sockets and the I/O wrappers: system calls and readiness plumbing.
- Blocking waits of the message queue and the token, and signalling: condition variables appear as steps that may happen at any time.
- Writes through the I/O scheduler (`AIO_WRITE`): scheduling does not distinguish them, and transfers only read.
- The node recycling of the timer queue, crontab timers in the timer queue, entry parsing and `reset_interval`: string edits, or easy members.
- Handlers that schedule or cancel timers from within their own callback: `TimerQueue.Queue.ExpireAll` assumes that they do not.
- `MemPool` assumes that memory from the system is always granted, that sizes are positive, and that only live blocks are freed; it fixes the header size of a 64-bit platform.
- TimerQueue.Queue.Schedule: requires that growing loses no id, which holds as long as the number of timers has stayed below the maximum; what the queue does after it has lost one is not modelled.
- TimerQueue.Queue.constructor: requires at least three preallocated slots; with fewer, growth cannot keep a slot free.
- TimerQueue.Queue.DispatchTimer: requires that in a queue whose table is full the first timer is not periodic; otherwise putting it back grows the table at capacity, as above.
- TimerQueue.Queue.Expire: requires the same, and so does `ExpireAll`.
- In the scheduler's state machine a request is posted only while its next id is that of no request in queue or running list; ids wrap around at INT_MAX, and what two requests of one id do to each other is not modelled.
- File transfers assume that `pread` refuses a count above SSIZE_MAX, as on Linux, and that files and buffers are smaller than that.
- Dispatch.MemTransfer.constructor: requires that the range starts below two to the 31st and is no longer than that; beyond it the casts of the position point elsewhere (`Dispatch.CastKeeps`).
- 32-bit overflow of the bandwidth arithmetic in `apps/fcache/dispatch_data_task.cpp`, and the list of jobs: each job is modelled by itself.
- The agent that `apps/fcache` deletes without closing it when a response cannot be sent: a caller's error outside of the transfer protocol.
- The pull pipeline, HTTP, logging, configuration, `ndk/heap.h` and `ndk/cache_heap.h`: glue, or the same argument as the timer heap.
