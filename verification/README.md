# A model of the zbluenet networking library

zbluenet is a C++ network library for game servers. This project models its concurrent and
byte-level core and proves what that core is for.

* **Asynchronous log sink** (`AsyncSink*.dfy`, `LogBuffers.dfy`): producers take pooled buffers,
  fill them and push them through a bounded queue to one log thread; the destructor pushes a
  null record, joins the thread and tears everything down. Every atomic step of every thread is
  an action; the theorems are about all interleavings, with barging and spurious wakeups.
* **Its parts**: the blocking queue (`ConcurrentQueue.dfy`), the two-counter semaphore
  (`Semaphore.dfy`), thread start, close and exit (`ThreadJoin.dfy`), the object pool
  (`ObjectPool.dfy`). A condition variable is a set of sleeping threads and a set of notified
  threads that have not yet tested their condition again (`Conditions.dfy`).
* **DynamicBuffer** (`BufferSpec.dfy`, `ByteOrder.dfy`, `DynamicBuffer.dfy`): the growable read/write-cursor byte
  buffer, with its reallocation arithmetic modulo 2^64.
* **Exchange codec** (`Codec.dfy`, `CodecProofs.dfy`, `WireFormat.dfy`, `CodecCursors.dfy`): the
  READ_ and WRITE_ macros as a schema-driven format, the same in literal bytes, and as cursors
  that move through memory.
* **Event loop** (`MessageQueue.dfy`, `Epoller.dfy`): the self-pipe wakeup handshake, and event
  dispatch while callbacks attach and detach devices.
* **Small arithmetic** (`Timestamp.dfy`, `SocketIds.dfy`).

Each object the library changes in place is a class. Its methods are proved equal to functions on
values (or to steps of a state machine), and the theorems are about those functions and about
whole runs. For the concurrent objects one method is one pass through a critical section, run with
the mutex held; the machine's action says which threads may run it and whom its notification wakes.
Signed integers are bit patterns of their C type.

Four claims one might expect are false of the code, and are settled exactly:
`READ_ENUM_LIST` does not give its list back unless it is empty (`CodecProofs.EnumListRoundTrip`);
a restarted thread can be closed before its callbacks are done, exactly if a permit was left over
or an earlier thread had not come to its very end (`ThreadJoin.JoinsIffNothingLeft`,
`ThreadJoin.RestartJoinsIff`, and as a run: `ThreadJoin.RestartBreaksJoin`);
a reader with a message budget strands messages exactly when more were queued, nothing was in the
pipe or on its way, and nobody pushed meanwhile (`MessageQueues.BudgetReaderIff`); a negative addition to a timestamp leaves the normal range
exactly when its remainder reaches below zero (`Timestamps.AddInstant`).

Outside the model and given as parameters: which sleeping thread a notification wakes, spurious
wakeups, what the kernel reports and grants, the clock, what uninitialised memory holds.

## Model

| member | source | states |
|---|---|---|
| `AsyncSinkProofs.Delivery` | zbluenet/zbluenet/src/zbluenet/logger_async_sink.cc:31-78 | In every interleaving the adapted sink has received, byte for byte, a prefix of the records in push order, and it is alive whenever it is called; once the destructor's `close` has returned, and so before the sink is deleted, it has received all that were pushed, exactly once |
| `AsyncSinkLog.EveryRecordArrives` | zbluenet/zbluenet/src/zbluenet/logger_async_sink.cc:31-78 | Over every run: the records a producer gave to `log`, in call order, are exactly those its pushes added, in order, followed by the one of a call under way; once `close` has returned the adapted sink has received an interleaving of all records ever logged, each producer's in its call order, and nothing else |
| `AsyncSinkProofs.BufferPlaces` | zbluenet/zbluenet/src/zbluenet/logger_async_sink.cc:41-78 | Until teardown every buffer ever made is in exactly one of pool, queue, one producer, log thread; pooled buffers are empty; with a bounded queue at most queue bound + producers + 1 buffers are ever made |
| `AsyncSinkProofs.FreedOnce` | zbluenet/zbluenet/src/zbluenet/logger_async_sink.cc:31-39 | When the destructor is done, every buffer ever made has been deleted exactly once and nothing else has, and the adapted sink is deleted |
| `AsyncSinkProofs.AfterClose` | zbluenet/zbluenet/src/zbluenet/logger_async_sink.cc:31-39 | When `close` has returned the log thread has ended, the queue is empty and no producer holds anything |
| `AsyncSinkProofs.StepKeeps` | zbluenet/zbluenet/src/zbluenet/logger_async_sink.cc:31-78 | Ownership, contents, waiters, join, shutdown phase and allocation accounts are kept together by every step of every thread |
| `AsyncSinkProofs.NewBufferBound` | zbluenet/zbluenet/src/zbluenet/object_pool.h:22-30 | A producer that finds the pool empty can allocate without passing queue bound + producers + 1 |
| `AsyncSinkProofs.InitialInv` | zbluenet/zbluenet/src/zbluenet/logger_async_sink.cc:25-29 | The constructed sink satisfies the invariant for every queue size and every set of producers |
| `AsyncSinkInvariants.OwnershipKept` | zbluenet/zbluenet/src/zbluenet/logger_async_sink.cc:41-78 | Every step moves a buffer from its one holder to its next one, on no assumption but ownership itself |
| `AsyncSinkInvariants.ContentsKept` | zbluenet/zbluenet/src/zbluenet/logger_async_sink.cc:41-78 | Every step keeps: pushed records = received ++ in flight ++ queued bytes, a filled buffer reads as its record, a pooled one is empty |
| `AsyncSinkShutdown.NeverStuck` | zbluenet/zbluenet/src/zbluenet/logger_async_sink.cc:31-78 | In every reachable state, for every `log` call and for the destructor under way, the very thread that call needs has a step to take: itself while awake; asleep in `push`, the log thread if the queue is full and a notified pusher if not; in `close`, itself or the log thread |
| `AsyncSinkShutdown.ShutdownIsBounded` | zbluenet/zbluenet/src/zbluenet/logger_async_sink.cc:31-39 | From the destructor's first step, with q items queued, every run takes at most 10 q + 36 steps plus twice the spurious wakeups; with NeverStuck, the destructor ends |
| `AsyncSinkShutdown.StepAdvances` | zbluenet/zbluenet/src/zbluenet/logger_async_sink.cc:31-78 | After destruction has begun each step of any thread lowers one common measure, a spurious wakeup raising it by at most one |
| `AsyncSinkShutdown.PushNeverStuck` | zbluenet/zbluenet/src/zbluenet/logger_async_sink.cc:31-55 | For a producer or the destructor in `push`: awake, its own step is enabled; asleep on a full queue, one of the log thread; asleep beside a free slot, the push of a notified pusher |
| `AsyncSinkShutdown.JoinNeverStuck` | zbluenet/zbluenet/src/zbluenet/logger_async_sink.cc:31-39 | In `close` the destructor itself or the log thread always has a step to take |
| `LogBuffers.FillBuffer` | zbluenet/zbluenet/src/zbluenet/logger_async_sink.cc:49-51 | Reserve, copy and advance on the real buffer class turn an empty buffer into one that reads as the record |
| `LogBuffers.LogAndDrain` | zbluenet/zbluenet/src/zbluenet/logger_async_sink.cc:69-70 | The adapted sink gets exactly the readable bytes, and the buffer is empty afterwards |
| `ConcurrentQueues.StepKeeps` | zbluenet/zbluenet/src/zbluenet/concurrent_queue.h:54-98 | No step of any thread, spurious wakeups and barging included, loses a wakeup: while a consumer sleeps, length <= notified consumers; while a producer sleeps, free slots <= notified producers; length <= bound |
| `ConcurrentQueues.RunIsFifo` | zbluenet/zbluenet/src/zbluenet/concurrent_queue.h:54-98 | Over every run of any threads: popped ++ queued = pushed in order, the bound holds, no wakeup is owed |
| `ConcurrentQueues.NeverAllAsleep` | zbluenet/zbluenet/src/zbluenet/concurrent_queue.h:54-85 | Producers and consumers are never both asleep with nobody on either side notified |
| `ConcurrentQueues.SleepersAreCovered` | zbluenet/zbluenet/src/zbluenet/concurrent_queue.h:54-85 | A sleeping consumer beside a non-empty queue implies a notified one whose next step takes an item; a sleeping producer beside a free slot, one whose next step fills it |
| `ConcurrentQueues.StepIsFifo` | zbluenet/zbluenet/src/zbluenet/concurrent_queue.h:54-98 | A step adds at the back and removes at the front, at most one item, and nothing else |
| `ConcurrentQueues.TakesFront` | zbluenet/zbluenet/src/zbluenet/concurrent_queue.h:75-98 | A consumer that finds something takes the front item and waits no longer; on an empty queue `pop` goes to sleep and `popIfNotEmpty` changes nothing |
| `ConcurrentQueues.AddsBack` | zbluenet/zbluenet/src/zbluenet/concurrent_queue.h:54-73 | A producer that finds room, always so with bound 0, adds its item at the back and waits no longer; on a full queue `push` goes to sleep and `pushIfNotFull` changes nothing |
| `ConcurrentQueues.ConcurrentQueue.Push` | zbluenet/zbluenet/src/zbluenet/concurrent_queue.h:54-62 | One pass through `push` is one enabled step of the protocol and keeps its invariant: the item is at the back exactly if the bound is 0 or not reached, and otherwise the thread sleeps |
| `ConcurrentQueues.ConcurrentQueue.PushIfNotFull` | zbluenet/zbluenet/src/zbluenet/concurrent_queue.h:64-73 | Adds the item at the back exactly if the bound is 0 or not reached, never waits, and is a step of the protocol |
| `ConcurrentQueues.ConcurrentQueue.Pop` | zbluenet/zbluenet/src/zbluenet/concurrent_queue.h:75-85 | One pass through `pop` takes the front item if there is one and sleeps otherwise, as the protocol's step does |
| `ConcurrentQueues.ConcurrentQueue.PopIfNotEmpty` | zbluenet/zbluenet/src/zbluenet/concurrent_queue.h:87-98 | Takes the front item exactly if there is one, never waits, and is a step of the protocol |
| `ConcurrentQueues.ConcurrentQueue.constructor` | zbluenet/zbluenet/src/zbluenet/concurrent_queue.h:16-19 | A new queue is empty, with nobody waiting; bound 0 means unbounded |
| `Conditions.NotifyCovers` | zbluenet/zbluenet/src/zbluenet/concurrent_queue.h:60-61 | A notification pays for one more available unit |
| `Conditions.LeaveCovers` | zbluenet/zbluenet/src/zbluenet/concurrent_queue.h:57-60 | A thread that takes a unit, notified or barging, leaves no wakeup owed |
| `Semaphores.StepKeeps` | zbluenet/zbluenet/src/zbluenet/semaphore.cc:14-32 | blocked = wakeup_count + max(0, -wait_count), and wakeup_count <= notified waiters, in every interleaving |
| `Semaphores.RefinesCounting` | zbluenet/zbluenet/src/zbluenet/semaphore.cc:14-32 | Each step is a step of a counting semaphore: a wakeup adds a permit, a returning wait takes one that is there, nothing else changes the permits |
| `Semaphores.ReturnsIffPermit` | zbluenet/zbluenet/src/zbluenet/semaphore.cc:14-23 | A first pass or a re-check returns exactly if the counting semaphore has a permit, one granted to another waiter included, and otherwise the thread sleeps |
| `Semaphores.NoGrantStranded` | zbluenet/zbluenet/src/zbluenet/semaphore.cc:14-32 | A permit beside a blocked waiter means some notified waiter returns with its next step |
| `Semaphores.StepWaiters` | zbluenet/zbluenet/src/zbluenet/semaphore.cc:14-32 | Nobody starts to wait but a first pass that finds no permit, and a thread whose `wait` returns waits no longer |
| `Semaphores.RunCounts` | zbluenet/zbluenet/src/zbluenet/semaphore.cc:14-32 | Over every run: wait_count = wakeups - waits, completed = min(waits, wakeups) - wakeup_count, blocked = waits - completed |
| `Semaphores.Semaphore.Wait` | zbluenet/zbluenet/src/zbluenet/semaphore.cc:14-23 | The first pass through `wait` is the protocol's step; it returns exactly if a wakeup is unspent, granted or not, and otherwise the thread sleeps |
| `Semaphores.Semaphore.Recheck` | zbluenet/zbluenet/src/zbluenet/semaphore.cc:18-21 | The predicate test after a wakeup is the protocol's step, and takes the grant if there still is one |
| `Semaphores.Semaphore.Wakeup` | zbluenet/zbluenet/src/zbluenet/semaphore.cc:25-32 | `wakeup` grants and notifies exactly when somebody waits, and keeps the invariant |
| `ThreadJoin.JoinsIffNothingLeft` | zbluenet/zbluenet/src/zbluenet/thread.cc:26-81 | From a start onwards `close` returns only after all callbacks finished, in every run, for any concurrent closers and wherever `close` falls between the wakeup and the clearing of the flag, if and only if the start found no permit left in the semaphore and no earlier thread alive, whatever those earlier threads were doing |
| `ThreadJoin.RestartJoinsIff` | zbluenet/zbluenet/src/zbluenet/thread.cc:26-81 | After any run from creation on, with any starts, closes and exits: a further start is one that later closers join if and only if every earlier thread has ended and as many closers found the flag set as threads signalled |
| `ThreadJoin.PermitsLeft` | zbluenet/zbluenet/src/zbluenet/thread.cc:26-81 | Over every run from creation on, with nobody inside `close`: the semaphore holds exactly (threads that signalled) - (closers that found the flag set) permits and nobody waits on it |
| `ThreadJoin.RestartBreaksJoin` | zbluenet/zbluenet/src/zbluenet/thread.cc:79-80 | One run start, close, start, close from creation, no permit left over: the first thread's late `is_run_ = false` lets the second `close` return with all callbacks to run |
| `ThreadJoin.LateClearBreaksJoin` | zbluenet/zbluenet/src/zbluenet/thread.cc:79-80 | Any earlier thread between its wakeup and its last statement breaks the join of a restart |
| `ThreadJoin.OlderThreadBreaksJoin` | zbluenet/zbluenet/src/zbluenet/thread.cc:67-81 | Any earlier thread still in its callbacks breaks the join of a restart |
| `ThreadJoin.FirstStartJoins` | zbluenet/zbluenet/src/zbluenet/thread.cc:26-52 | The first start of a thread object finds none, so there `close` joins |
| `ThreadJoin.StalePermitLeft` | zbluenet/zbluenet/src/zbluenet/thread.cc:67-81 | For a thread started with nothing left over: once it has ended with nobody inside `close`, a permit is left exactly if no `close` caught it running; PermitsLeft counts over all threads |
| `ThreadJoin.ExitBreaksJoin` | zbluenet/zbluenet/src/zbluenet/thread.cc:54-60 | A concrete run in which `exit` lets a `close` return with callbacks still to run |
| `ThreadJoin.JoinsAfterExitIff` | zbluenet/zbluenet/src/zbluenet/thread.cc:54-60 | After an `exit`, in any state of a properly started thread, `close` joins in every run if and only if all callbacks were finished already |
| `ThreadJoin.PermitBreaksJoin` | zbluenet/zbluenet/src/zbluenet/thread.cc:45-52 | A stale permit lets the first `close` through before any callback is done: the concrete run |
| `ThreadJoin.NeverStuck` | zbluenet/zbluenet/src/zbluenet/thread.cc:45-81 | While anybody is inside `close`, somebody can move without a spurious wakeup, and after the thread's signal the blocked closer's own next step lets it through |
| `ThreadJoin.StepKeeps` | zbluenet/zbluenet/src/zbluenet/thread.cc:45-81 | Mutex, flag, semaphore and every closer's knowledge stay consistent in every step |
| `ThreadJoin.Thread.StartThread` | zbluenet/zbluenet/src/zbluenet/thread.cc:26-44 | `start` makes one thread, with all its callbacks ahead, exactly if the flag was clear, and otherwise changes nothing; it is the protocol's step |
| `ThreadJoin.StartsOnlyWhenIdle` | zbluenet/zbluenet/src/zbluenet/thread.cc:26-44 | Over every run from creation on, as many threads were made as starts found the flag clear |
| `ThreadJoin.Thread.ExitThread` | zbluenet/zbluenet/src/zbluenet/thread.cc:54-60 | `exit` clears the flag, waits for nothing and leaves threads and closers alone |
| `ThreadJoin.Thread.TestAndClear` | zbluenet/zbluenet/src/zbluenet/thread.cc:45-49 | `close` waits exactly if it found the flag set, and clears it |
| `ThreadJoin.Thread.WaitForEnd` | zbluenet/zbluenet/src/zbluenet/thread.cc:50 | The semaphore wait of `close`, on the real semaphore, is the protocol's step |
| `ThreadJoin.Thread.SignalEnd` | zbluenet/zbluenet/src/zbluenet/thread.cc:79 | The wakeup after the callbacks, on the real semaphore, is the protocol's step |
| `ThreadJoin.Thread.ClearRun` | zbluenet/zbluenet/src/zbluenet/thread.cc:80 | The late clearing of the flag is the protocol's last step |
| `ObjectPools.TakeIsUnique` | zbluenet/zbluenet/src/zbluenet/object_pool.h:22-30 | What `getObject` hands out is in no other place: it leaves the pool or is new |
| `ObjectPools.GiveTake` | zbluenet/zbluenet/src/zbluenet/object_pool.h:22-35 | Returning an object that is out keeps the pool sound; taking again gives back that object and the former pool |
| `ObjectPools.ObjectPool.GetObject` | zbluenet/zbluenet/src/zbluenet/object_pool.h:22-30 | In place: the object returned last, which leaves the pool, or if the pool is empty a new one; the pool stays sound |
| `ObjectPools.ObjectPool.ReturnObject` | zbluenet/zbluenet/src/zbluenet/object_pool.h:32-35 | In place: the object joins the pool, which stays free of duplicates |
| `ObjectPools.ObjectPool.Destroy` | zbluenet/zbluenet/src/zbluenet/object_pool.h:15-20 | Deletes every pooled object, none twice |
| `BufferSpec.ReallocationBounds` | zbluenet/zbluenet/src/zbluenet/dynamic_buffer.cc:69-92 | Every reallocation, also in the branch where size - free wraps modulo 2^64, keeps the readable bytes and leaves size < writable < size + 2 * expand |
| `BufferSpec.WrapsCancel` | zbluenet/zbluenet/src/zbluenet/dynamic_buffer.cc:78-83 | The subtraction's wrap and the addition's wrap cancel for every expansion step: the result is readable + size + slack with 1 <= slack <= expand |
| `BufferSpec.GrownSizeBounds` | zbluenet/zbluenet/src/zbluenet/dynamic_buffer.cc:75-83 | The capacity chosen exceeds readable + size, by less than two expansions, whichever branch is taken |
| `BufferSpec.GrownSizeExact` | zbluenet/zbluenet/src/zbluenet/dynamic_buffer.cc:75-83 | The capacity chosen, in unbounded arithmetic: by whole expansions past what is missing, by one expansion if the free bytes exceed the request by less than one, and where size - free wraps the readable bytes, the request and e - (2^64 - (free - size)) mod e |
| `BufferSpec.ReserveExact` | zbluenet/zbluenet/src/zbluenet/dynamic_buffer.cc:69-92 | Room that is there changes nothing; otherwise the readable bytes are at the front of a storage of exactly the size chosen |
| `BufferSpec.ReserveCanShrink` | zbluenet/zbluenet/src/zbluenet/dynamic_buffer.cc:78-83 | A concrete buffer whose reservation makes it smaller |
| `BufferSpec.RunConserves` | zbluenet/zbluenet/src/zbluenet/dynamic_buffer.cc:55-98 | Over every run of reads, writes, reserves and cursor moves: consumed ++ readable = written, indices in order and 0 when empty, capacity <= max(initial, peak of readable + requested + 2 * expand) |
| `BufferSpec.StepConserves` | zbluenet/zbluenet/src/zbluenet/dynamic_buffer.cc:55-98 | Each single operation keeps that conservation law |
| `BufferSpec.StoreFetch` | zbluenet/zbluenet/src/zbluenet/dynamic_buffer.cc:257-430 | Any sequence of integers of mixed widths and byte orders, with arbitrary reallocations forced in between, reads back unchanged |
| `BufferSpec.PeekIsReadAfterSkip` | zbluenet/zbluenet/src/zbluenet/dynamic_buffer.cc:100-355 | Peeking at an offset equals reading after skipping that many bytes, failures included |
| `BufferSpec.PeekGuardExact` | zbluenet/zbluenet/src/zbluenet/dynamic_buffer.cc:102 | The bounds test admits exactly the offsets in range if and only if offset + width does not wrap in 64 bits |
| `BufferSpec.PeekMeaning` | zbluenet/zbluenet/src/zbluenet/dynamic_buffer.cc:100-255 | A peek looks at exactly the bytes at the offset, or yields nothing if they are not all there; ByteOrders says what it makes of them |
| `BufferSpec.Reserve` | zbluenet/zbluenet/src/zbluenet/dynamic_buffer.cc:69-92 | Afterwards the room asked for is there and the readable bytes are the same |
| `BufferSpec.Read` | zbluenet/zbluenet/src/zbluenet/dynamic_buffer.cc:55-62 | Drops the first min(size, readable) readable bytes |
| `BufferSpec.WriteBytes` | zbluenet/zbluenet/src/zbluenet/dynamic_buffer.cc:445-450 | Appends the bytes to the readable ones |
| `BufferSpec.WriteInt` | zbluenet/zbluenet/src/zbluenet/dynamic_buffer.cc:357-430 | Appends exactly k bytes that read back as the integer; ByteOrders says which |
| `ByteOrders.Written1` | zbluenet/zbluenet/src/zbluenet/dynamic_buffer.cc:357-363 | A written byte is the low byte of the value |
| `ByteOrders.Written2` | zbluenet/zbluenet/src/zbluenet/dynamic_buffer.cc:365-380 | The two bytes appended, written out: high byte first, or low byte first with `littleEndian` |
| `ByteOrders.Written4` | zbluenet/zbluenet/src/zbluenet/dynamic_buffer.cc:382-401 | The four bytes appended, written out: high byte first, or low byte first with `littleEndian` |
| `ByteOrders.Written8` | zbluenet/zbluenet/src/zbluenet/dynamic_buffer.cc:403-430 | The eight bytes appended, written out: high byte first, or low byte first with `littleEndian` |
| `ByteOrders.Peeked1` | zbluenet/zbluenet/src/zbluenet/dynamic_buffer.cc:100-110 | A peeked byte is the byte at the offset |
| `ByteOrders.Peeked2` | zbluenet/zbluenet/src/zbluenet/dynamic_buffer.cc:148-165 | The two bytes at the offset with their weights written out, in each order |
| `ByteOrders.Peeked4` | zbluenet/zbluenet/src/zbluenet/dynamic_buffer.cc:191-212 | The four bytes at the offset with their weights written out, in each order |
| `ByteOrders.Peeked8` | zbluenet/zbluenet/src/zbluenet/dynamic_buffer.cc:226-255 | The eight bytes at the offset with their weights written out, in each order |
| `ByteOrders.PeekedShort` | zbluenet/zbluenet/src/zbluenet/dynamic_buffer.cc:100-255 | With fewer bytes than the width behind the offset a peek yields nothing |
| `DynamicBuffers.DynamicBuffer.constructor` | zbluenet/zbluenet/src/zbluenet/dynamic_buffer.cc:7-11 | A new buffer is empty with the storage asked for |
| `DynamicBuffers.DynamicBuffer.Swap` | zbluenet/zbluenet/src/zbluenet/dynamic_buffer.cc:17-23 | The two buffers exchange their whole states |
| `DynamicBuffers.DynamicBuffer.ReadableBytes` | zbluenet/zbluenet/src/zbluenet/dynamic_buffer.cc:35-38 | The number of bytes a reader will get |
| `DynamicBuffers.DynamicBuffer.WritableBytes` | zbluenet/zbluenet/src/zbluenet/dynamic_buffer.cc:40-43 | The room left behind the write index |
| `DynamicBuffers.DynamicBuffer.Read` | zbluenet/zbluenet/src/zbluenet/dynamic_buffer.cc:55-62 | In place: exactly the value-level read |
| `DynamicBuffers.DynamicBuffer.Write` | zbluenet/zbluenet/src/zbluenet/dynamic_buffer.cc:64-67 | In place: the write index moves by at most the room left, nothing else changes |
| `DynamicBuffers.DynamicBuffer.ReserveWritableBytes` | zbluenet/zbluenet/src/zbluenet/dynamic_buffer.cc:69-92 | In place, through a new storage: exactly the value-level reservation |
| `DynamicBuffers.DynamicBuffer.Clear` | zbluenet/zbluenet/src/zbluenet/dynamic_buffer.cc:94-98 | Both indices to 0, storage kept |
| `DynamicBuffers.DynamicBuffer.PeekInt` | zbluenet/zbluenet/src/zbluenet/dynamic_buffer.cc:100-255 | The shift-and-or expressions compute the integer of the byte order asked for (big-endian unless `littleEndian`, see ByteOrders), or report that it is not all there; nothing changes |
| `DynamicBuffers.DynamicBuffer.ReadInt` | zbluenet/zbluenet/src/zbluenet/dynamic_buffer.cc:257-355 | In place: peek, and on success only, skip |
| `DynamicBuffers.DynamicBuffer.WriteInt` | zbluenet/zbluenet/src/zbluenet/dynamic_buffer.cc:357-430 | In place: reserve, store the shifted bytes from the end asked for, advance; equal to the value-level write that ByteOrders spells out |
| `DynamicBuffers.DynamicBuffer.ReadBytes` | zbluenet/zbluenet/src/zbluenet/dynamic_buffer.cc:432-443 | Copies out the first min(count, readable) bytes and drops them |
| `DynamicBuffers.DynamicBuffer.WriteBytes` | zbluenet/zbluenet/src/zbluenet/dynamic_buffer.cc:445-450 | In place: appends the bytes to the readable ones |
| `DynamicBuffers.Disassemble` | zbluenet/zbluenet/src/zbluenet/dynamic_buffer.cc:357-430 | The shift-and-truncate stores are the big-endian bytes of the value, for 1, 2, 4 and 8 bytes |
| `DynamicBuffers.Assemble` | zbluenet/zbluenet/src/zbluenet/dynamic_buffer.cc:100-255 | The widen-and-shift loads are the number the bytes stand for, for 1, 2, 4 and 8 bytes |
| `ByteStrings.IntRoundTrip` | zbluenet/zbluenet/src/zbluenet/dynamic_buffer.cc:100-430 | An integer's bytes in either order read back as the integer |
| `ByteStrings.BigEndianOfNumber` | zbluenet/zbluenet/src/zbluenet/exchange/macro.h:27-107 | Every byte string is the big-endian form of the number it stands for: no two byte strings read as the same fixed-width integer |
| `CodecProofs.RoundTrip` | zbluenet/zbluenet/src/zbluenet/exchange/macro.h:7-295 | For every schema (fixed and variable integers, enums, strings, lists, nested structs) and every value it can carry, decoding the encoding followed by any bytes gives the value back and consumes exactly the encoding |
| `CodecProofs.ListRoundTrip` | zbluenet/zbluenet/src/zbluenet/exchange/macro.h:263-295 | A list decodes to itself, its prefix to its length |
| `CodecProofs.ShortestEncoding` | zbluenet/zbluenet/src/zbluenet/exchange/macro.h:109-274 | Whatever byte string decodes to a value, padded forms included, the value is encodable and its encoding is no longer than the bytes consumed |
| `CodecProofs.DecodeExtends` | zbluenet/zbluenet/src/zbluenet/exchange/macro.h:7-274 | A decode that did not run short is unchanged in value and bytes consumed when bytes are appended |
| `CodecProofs.TruncatedIsRefused` | zbluenet/zbluenet/src/zbluenet/exchange/macro.h:7-274 | Every strict prefix of an encoding decodes to -1 |
| `CodecProofs.PrefixFree` | zbluenet/zbluenet/src/zbluenet/exchange/macro.h:7-295 | No encoding is a prefix of another value's, so encodings determine values and can be laid end to end |
| `CodecProofs.Normalises` | zbluenet/zbluenet/src/zbluenet/exchange/macro.h:7-295 | Decoding, encoding and decoding again agrees with the first decode |
| `CodecProofs.ReadIntOfEncoding` | zbluenet/zbluenet/src/zbluenet/exchange/macro.h:7-182 | Every integer kind reads back what it wrote, over its whole range |
| `CodecProofs.ReadIntIsShortest` | zbluenet/zbluenet/src/zbluenet/exchange/macro.h:109-182 | A variable integer that was read fits its type and its written form is no longer than what was read |
| `WireFormat.Int8Bytes` | zbluenet/zbluenet/src/zbluenet/exchange/macro.h:17-25 | An INT8 is its byte |
| `WireFormat.Int16Bytes` | zbluenet/zbluenet/src/zbluenet/exchange/macro.h:38-47 | An INT16 is its two bytes, high first |
| `WireFormat.Int32Bytes` | zbluenet/zbluenet/src/zbluenet/exchange/macro.h:62-73 | An INT32 is its four bytes, high first |
| `WireFormat.Int64Bytes` | zbluenet/zbluenet/src/zbluenet/exchange/macro.h:92-107 | An INT64 is its eight bytes, high first |
| `WireFormat.Int16VBytes` | zbluenet/zbluenet/src/zbluenet/exchange/macro.h:119-127 | An INT16V below 255 is one byte, above it 255 and two bytes |
| `WireFormat.Int32VBytes` | zbluenet/zbluenet/src/zbluenet/exchange/macro.h:141-152 | An INT32V below 254 is one byte, up to 0xffff 254 and two bytes, above that 255 and four bytes |
| `WireFormat.Int64VBytes` | zbluenet/zbluenet/src/zbluenet/exchange/macro.h:168-182 | An INT64V below 253 is one byte, then 253 and two, 254 and four, 255 and eight bytes |
| `WireFormat.FixedReading` | zbluenet/zbluenet/src/zbluenet/exchange/macro.h:7-90 | What the fixed-width reads make of every byte string, the weights written out; too few bytes are refused |
| `WireFormat.Int16VReading` | zbluenet/zbluenet/src/zbluenet/exchange/macro.h:109-117 | What INT16V makes of every byte string, padded and truncated ones included |
| `WireFormat.Int32VReading` | zbluenet/zbluenet/src/zbluenet/exchange/macro.h:129-139 | What INT32V makes of every byte string: first byte below 254 itself, 254 two bytes, 255 four bytes, padded forms accepted, truncated ones refused |
| `WireFormat.Int64VReading` | zbluenet/zbluenet/src/zbluenet/exchange/macro.h:154-166 | What INT64V makes of every byte string, padded and truncated ones included |
| `WireFormat.EnumFormat` | zbluenet/zbluenet/src/zbluenet/exchange/macro.h:184-191 | An enum is written and read as an INT32V |
| `WireFormat.StringBytes` | zbluenet/zbluenet/src/zbluenet/exchange/macro.h:232-241 | A string is its length in compact form and its bytes; exactly those of at most 0xffffffff bytes have an encoding |
| `WireFormat.StringReading` | zbluenet/zbluenet/src/zbluenet/exchange/macro.h:220-230 | What READ_STRING makes of every byte string, in literal length prefixes |
| `WireFormat.ListFormat` | zbluenet/zbluenet/src/zbluenet/exchange/macro.h:289-295 | A list is its length in compact form and its elements; exactly those of at most 0xffffffff encodable elements have an encoding |
| `WireFormat.ListReading` | zbluenet/zbluenet/src/zbluenet/exchange/macro.h:263-274 | What READ_LIST makes of every byte string, in literal length prefixes |
| `WireFormat.ItemsInOrder` | zbluenet/zbluenet/src/zbluenet/exchange/macro.h:292-294 | Elements are laid out in list order: the encoding of a concatenation is the concatenation |
| `WireFormat.FieldsInOrder` | zbluenet/zbluenet/src/zbluenet/exchange/macro.h:253-261 | Members are laid out in the order of the struct's body |
| `WireFormat.StructFormat` | zbluenet/zbluenet/src/zbluenet/exchange/macro.h:253-261 | A struct adds no bytes to its members' and carries at most 2^31 - 1 of them |
| `CodecProofs.EnumListRoundTrip` | zbluenet/zbluenet/src/zbluenet/exchange/macro.h:276-287 | READ_ENUM_LIST consumes the right bytes always, but gives the list back, whatever its uninitialised element held, if and only if the list is empty |
| `Codec.ReadInt` | zbluenet/zbluenet/src/zbluenet/exchange/macro.h:7-182 | A successful read consumes at least one byte and no more than there are |
| `Codec.Decode` | zbluenet/zbluenet/src/zbluenet/exchange/macro.h:7-274 | A successful decode never consumes more than the input, and only an input above INT_MAX bytes can lose the cursor |
| `Codec.StructOutcome` | zbluenet/zbluenet/src/zbluenet/exchange/macro.h:243-251 | READ_STRUCT keeps its cursor and the members exactly when the nested size survives its conversion to `int`; a size that converts to -1 is refused, any other above INT_MAX loses the cursor |
| `ByteStrings.AsInt32` | zbluenet/zbluenet/src/zbluenet/exchange/macro.h:245 | The conversion to `int` is the identity exactly up to INT_MAX |
| `CodecCursors.Writer.WriteValue` | zbluenet/zbluenet/src/zbluenet/exchange/macro.h:17-261 | Any one-argument macro succeeds exactly when the value is encodable and its encoding fits into the bytes left; on success precisely the encoding is written and the cursor stands behind it; never a byte outside the room. Exact up to INT_MAX bytes of room; beyond, a struct too large for an `int` may stop in a status of its own where the code goes on |
| `CodecCursors.Writer.WriteInt8` | zbluenet/zbluenet/src/zbluenet/exchange/macro.h:17-25 | Succeeds exactly with 1 byte left, and stores the low byte |
| `CodecCursors.Writer.WriteInt16` | zbluenet/zbluenet/src/zbluenet/exchange/macro.h:38-47 | Succeeds exactly with 2 bytes left, and stores them most significant first |
| `CodecCursors.Writer.WriteInt32` | zbluenet/zbluenet/src/zbluenet/exchange/macro.h:62-73 | Succeeds exactly with 4 bytes left, and stores them most significant first |
| `CodecCursors.Writer.WriteInt64` | zbluenet/zbluenet/src/zbluenet/exchange/macro.h:92-107 | Succeeds exactly with 8 bytes left, and stores them most significant first |
| `CodecCursors.Writer.WriteVariable` | zbluenet/zbluenet/src/zbluenet/exchange/macro.h:119-191 | The branches of the variable forms write the format, which WireFormat gives in literal bytes, and fail exactly when it does not fit |
| `CodecCursors.Writer.WriteLength` | zbluenet/zbluenet/src/zbluenet/exchange/macro.h:205-218 | Fails exactly for lengths above 0xffffffff or too little room |
| `CodecCursors.Writer.WriteString` | zbluenet/zbluenet/src/zbluenet/exchange/macro.h:232-241 | Length prefix and bytes, or failure exactly when they do not fit |
| `CodecCursors.Writer.WriteStruct` | zbluenet/zbluenet/src/zbluenet/exchange/macro.h:253-261 | The nested cursor's bytes count as this cursor's exactly up to INT_MAX of them; a lost cursor needs more room than that |
| `CodecCursors.Writer.WriteList` | zbluenet/zbluenet/src/zbluenet/exchange/macro.h:289-295 | Length prefix and all elements in order, or failure exactly when they do not fit or are not encodable |
| `CodecCursors.Writer.WriteItems` | zbluenet/zbluenet/src/zbluenet/exchange/macro.h:292-294 | The element loop writes the elements' encodings one after the other |
| `CodecCursors.Writer.WriteFields` | zbluenet/zbluenet/src/zbluenet/exchange/base_struct.h:19-20 | A generated `encode` body succeeds exactly when all members fit, and then wrote the concatenation of their encodings |
| `CodecCursors.Reader.ReadValue` | zbluenet/zbluenet/src/zbluenet/exchange/macro.h:7-251 | Any one-argument macro on a moving cursor yields what the format says about the bytes ahead, and moves by exactly the bytes consumed |
| `CodecCursors.Reader.ReadBytes` | zbluenet/zbluenet/src/zbluenet/exchange/macro.h:7-90 | The shift-and-or loads of 1, 2, 4 and 8 bytes are the big-endian number, or -1 exactly when the bytes are not there |
| `CodecCursors.Reader.ReadInteger` | zbluenet/zbluenet/src/zbluenet/exchange/macro.h:7-167 | The variable forms' branches on the first byte follow the format, which WireFormat gives for every byte string |
| `CodecCursors.Reader.ReadString` | zbluenet/zbluenet/src/zbluenet/exchange/macro.h:220-230 | The length, then that many bytes, or -1 |
| `CodecCursors.Reader.ReadStruct` | zbluenet/zbluenet/src/zbluenet/exchange/macro.h:243-251 | The nested decode works on the same bytes with its own cursor; its size counts as an `int`, and one that does not fit ends in the outcome for a lost cursor |
| `CodecCursors.Reader.ReadList` | zbluenet/zbluenet/src/zbluenet/exchange/macro.h:263-274 | Length prefix, then the loop; failure of any element fails the list |
| `CodecCursors.Reader.ReadItems` | zbluenet/zbluenet/src/zbluenet/exchange/macro.h:269-273 | The element loop decodes the elements in order and stops at the first failure |
| `CodecCursors.Reader.ReadFields` | zbluenet/zbluenet/src/zbluenet/exchange/base_struct.h:19-20 | A generated `decode` body reads its members in order and stops at the first failure |
| `MessageQueues.HandshakeHolds` | zbluenet/zbluenet/src/zbluenet/net/message_queue.h:72-110 | With a consumer that pops until empty or yields, in every interleaving and whatever writes a full pipe drops: a non-empty queue has a byte in the pipe, a producer about to write one, or the consumer still at work; order and bound are kept; when all is quiet everything pushed has been delivered |
| `MessageQueues.StepKeeps` | zbluenet/zbluenet/src/zbluenet/net/message_queue.h:72-110 | Each step of producers, loop and consumer keeps the handshake invariant |
| `MessageQueues.NeverWaitsForPush` | zbluenet/zbluenet/src/zbluenet/net/message_queue.h:72-110 | With such a consumer a non-empty queue, bounded or not, always leaves the loop or a producer that has already pushed able to move |
| `MessageQueues.StrandedUntilPush` | zbluenet/zbluenet/src/zbluenet/net/message_queue.h:99-110 | Once the handshake is broken nothing but another push can move, which repairs it but needs room: a stranded full queue is a deadlock |
| `MessageQueues.BudgetReaderIff` | zbluenet/zbluenet/src/zbluenet/client/tcp_client.cc:48-64 | In every interleaving with any producers, a callback that stops after `budget` messages without yielding ends with the handshake intact if and only if no more than the budget was queued when it began, or a byte was in the pipe or on its way then, or somebody pushed meanwhile |
| `MessageQueues.ReaderStrands` | zbluenet/zbluenet/src/zbluenet/client/tcp_client.cc:48-64 | For every budget, a run from the empty queue that ends with messages stranded |
| `MessageQueues.MessageQueue.Push` | zbluenet/zbluenet/src/zbluenet/net/message_queue.h:72-79 | The message is queued and the pipe is readable afterwards, full or not |
| `MessageQueues.MessageQueue.Pop` | zbluenet/zbluenet/src/zbluenet/net/message_queue.h:81-84 | The front message leaves the queue, or none is there and the consumer knows it |
| `MessageQueues.MessageQueue.Yield` | zbluenet/zbluenet/src/zbluenet/net/message_queue.h:91-96 | A byte is written to the pipe, or the pipe was full |
| `MessageQueues.MessageQueue.DrainPipe` | zbluenet/zbluenet/src/zbluenet/net/message_queue.h:102-103 | Undisturbed, the read loop ends with the pipe empty, whatever was in it, and touches nothing else; interleaved writes are steps of the machine |
| `MessageQueues.MessageQueue.ReadUpTo` | zbluenet/zbluenet/src/zbluenet/client/tcp_client.cc:48-64 | Undisturbed, a reader that stops after a budget without yielding keeps the handshake exactly if no more than the budget was queued, or a byte was in the pipe or on its way |
| `Epollers.Epoller.DoEvent` | zbluenet/zbluenet/src/zbluenet/net/epoller.cc:111-157 | Whatever callbacks attach and detach: the callbacks run are the first, second, .. script, one for each entry called and in that order, and devices and histories end up exactly as their concatenation leaves them; a callback is invoked only on a device registered at that moment; every reported condition is handled in order, and skipped exactly if the device was successfully deleted since a round last ended, even if added again since; the removed list ends empty, the event buffer doubles exactly when filled |
| `Epollers.SkippedThoughRegistered` | zbluenet/zbluenet/src/zbluenet/net/epoller.cc:106-150 | A device is registered and skipped all the same exactly if it was deleted and then added again since a round last ended |
| `Epollers.RemovedMeans` | zbluenet/zbluenet/src/zbluenet/net/epoller.cc:72-84 | The removed list names exactly the devices successfully deleted since a round last ended |
| `Epollers.RegisteredMeans` | zbluenet/zbluenet/src/zbluenet/net/epoller.cc:51-84 | The interest list names exactly the devices last added rather than deleted |
| `Epollers.Epoller.Handle` | zbluenet/zbluenet/src/zbluenet/net/epoller.cc:125-146 | The guard decides by the epoller's history at that moment; if it lets through, the callback's operations are performed, all and in order, and otherwise nothing changes |
| `Epollers.ReportedOne` | zbluenet/zbluenet/src/zbluenet/net/epoller.cc:125-146 | The conditions of one event come out in the order writable, readable, failed, each if it was reported |
| `Epollers.ReportedInOrder` | zbluenet/zbluenet/src/zbluenet/net/epoller.cc:121-148 | Events are handled in the order of the batch |
| `Epollers.AfterSettled` | zbluenet/zbluenet/src/zbluenet/net/io_device.cc:40-60 | Over any sequence of attachments and detachments, a device's service is what the last operation on it makes of it, and unchanged without one |
| `Epollers.Epoller.EndRound` | zbluenet/zbluenet/src/zbluenet/net/epoller.cc:150-154 | The removed list is cleared and nothing else about the devices changes |
| `Epollers.Epoller.Add` | zbluenet/zbluenet/src/zbluenet/net/epoller.cc:51-70 | Registers exactly a device that is not there and is granted |
| `Epollers.Epoller.Del` | zbluenet/zbluenet/src/zbluenet/net/epoller.cc:72-84 | Unregisters exactly a device that is there, and then bars it from the current batch |
| `Epollers.Epoller.Perform` | zbluenet/zbluenet/src/zbluenet/net/epoller.cc:125-146 | Every device ends up as the last operation on it leaves it, unchanged without one; every epoller's history grows by exactly the additions and deletions of the operations; consistency is kept and removals noted |
| `Epollers.IODevice.AttachIOService` | zbluenet/zbluenet/src/zbluenet/net/io_device.cc:40-50 | Afterwards the device is registered with exactly the service it names, or with none if refused; the service it named before, the same one included, has deleted it first; no other device moves |
| `Epollers.IODevice.DetachIOService` | zbluenet/zbluenet/src/zbluenet/net/io_device.cc:52-60 | Afterwards the device is registered nowhere and names no service |
| `Timestamps.AddInstant` | zbluenet/zbluenet/src/zbluenet/timestamp.cc:54-64 | Addition is exact on instants for every millisecond count; the nanosecond field stays in range if and only if the truncated remainder does not reach below zero, so always for non-negative ones |
| `Timestamps.NegativeAddLeavesRange` | zbluenet/zbluenet/src/zbluenet/timestamp.cc:57 | Adding -1 ms to a normal time can leave the range |
| `Timestamps.AddAssociates` | zbluenet/zbluenet/src/zbluenet/timestamp.cc:54-80 | (t + a) + b = t + (a + b) |
| `Timestamps.LessIsOrderOfInstants` | zbluenet/zbluenet/src/zbluenet/timestamp.cc:66-93 | `<` is the order of nanosecond instants; the millisecond comparisons are the order and equality of whole milliseconds |
| `Timestamps.DistanceIsAbsolute` | zbluenet/zbluenet/src/zbluenet/timestamp.cc:104-118 | The distance is the absolute difference of whole milliseconds |
| `Timestamps.DistanceIsPseudometric` | zbluenet/zbluenet/src/zbluenet/timestamp.cc:90-118 | Non-negative, symmetric, triangle inequality, and zero exactly for `millisecondEqual` times |
| `Timestamps.DistanceOfSum` | zbluenet/zbluenet/src/zbluenet/timestamp.cc:74-118 | distance(t, t + a) = a |
| `Timestamps.Timestamp.constructor` | zbluenet/zbluenet/src/zbluenet/timestamp.cc:31-37 | A time set from the clock is normal and is that instant |
| `Timestamps.Timestamp.AddAssign` | zbluenet/zbluenet/src/zbluenet/timestamp.cc:54-64 | In place: exactly the value-level addition |
| `SocketIds.IdsCoincide` | zbluenet/zbluenet/src/zbluenet/net/socket_id_allocator.h:22-28 | Two ids of one allocator coincide exactly when a multiple of 2^31 calls apart for the same descriptor; any 2^31 consecutive ids are distinct whatever descriptors are passed |
| `SocketIds.IdSplits` | zbluenet/zbluenet/src/zbluenet/net/socket_id_allocator.h:27 | An id is non-negative in 64 bits and splits back into counter and descriptor |
| `SocketIds.CounterIsModular` | zbluenet/zbluenet/src/zbluenet/net/socket_id_allocator.h:24-26 | With two's-complement wrap and reset the counter runs modulo 2^31 |
| `SocketIds.SocketIdAllocator.NextId` | zbluenet/zbluenet/src/zbluenet/net/socket_id_allocator.h:22-28 | In place: the counter advances with wrap and reset, and the id is built from it |

## Left out

- AsyncSinkProofs.Delivery: `is_run_` is taken to be false before the constructor starts the thread (thread.cc does not initialise it), no `log` call overlaps the destructor, and the adapted sink is not null.
- AsyncSinkProofs.FreedOnce: the adapted sink is deleted before pool and queue, as the code does; the log thread's late write of `is_run_` into the destroyed object is object lifetime, not protocol.
- AsyncSinkShutdown.ShutdownIsBounded: says that runs are short and never stuck; a fair scheduler is what makes the next step happen.
- The log sink as a class: `Impl` is modelled as a state machine on values, because its behaviour is the interleaving of several threads; its stretches of sequential code are methods of the buffer, queue, semaphore, thread and pool classes.
- `queue_.push` and the following `release()` in `log`, and `returnObject` and `release()` in the log thread, are one step each.
- ThreadJoin.JoinsIffNothingLeft: `is_run_` is written without the mutex at the end of `onRun`; its accesses are taken as atomic.
- Semaphores.RunCounts: the counters are unbounded integers; 32-bit overflow after 2^31 calls is not modelled.
- Timestamps.AddInstant: seconds are unbounded integers; 64-bit overflow is not modelled.
- BufferSpec.ReallocationBounds: requires a positive expansion step and readable + size + 2 * expand < 2^64; a zero step divides by zero in the code.
- BufferSpec.RunConserves: runs do not call `clear` or `swap`, which discard or exchange bytes on purpose.
- DynamicBuffers.DynamicBuffer.PeekInt: requires offset + width < 2^64; BufferSpec.PeekGuardExact shows that beyond it the code's bounds test is none.
- ThreadJoin.RestartJoinsIff: a closer that had asked for the mutex before the start counts as calling `close` after it.
- CodecCursors.Writer.WriteValue: with more than INT_MAX bytes of room, a nested struct of more than INT_MAX bytes either fails or ends in the status for a lost cursor; the code goes on with a moved-back pointer and may report success, which is not followed.
- CodecCursors.Reader.ReadStruct: likewise for a nested struct of more than INT_MAX bytes.
- CodecCursors.Reader.ReadList: what a failed decode leaves in the variables read so far, and memory exhaustion in `reserve`, are not modelled.
- MessageQueues.HandshakeHolds: one event loop dispatches the pipe; how a `push` on a full queue sleeps and is woken is in ConcurrentQueues, here it just cannot move.
- MessageQueues.MessageQueue.DrainPipe: nobody else moves while it runs, nor while ReadUpTo does; the interleavings are those of HandshakeHolds and BudgetReaderIff.
- Epollers.Epoller.DoEvent: not re-entered from a callback; callbacks attach and detach devices but do not change callback objects (`update`); descriptors and devices are one to one; an interrupted or failed `epoll_wait` returns at once and is left out.
- Exceptions and failed allocations, everywhere.
- `size`, `empty`, `full` and `peek` of the queue, `capacity` and `discardableBytes` of the buffer, `distanceSecond` and `format` of the timestamp: easy members.
- Struct bodies written by hand or generated by protobuf, which report failure as 0.
- Windows branches; sockets, pipes and other system calls beyond the abstract steps above.
- Timer heap, packet framing, reactor, net thread, TCP service and client, handler registries, log formatting and the other sinks.
