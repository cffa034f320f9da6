# Verified models of the Open IoT SDK's concurrency and buffer code

This project models the parts of the Open IoT SDK that are hardest to get right and proves what they promise.

* `RingBuffer.dfy` and `BoundedQueue.dfy`: the overwriting ring buffer of the serial backend, an array with a head, a
  tail and a full flag, proved to be a bounded queue that keeps the newest elements.
* `BufferManager.dfy`: the buffer manager in its imperative form, with its send and receive loops.
* `WriteProtocol.dfy`: the transmit side as a step system. Any number of threads run `WriteByte`, `WriteBytes` and
  `WriteLine` under the recursive write mutex, and transmit interrupts come between any two steps.
* `ReadProtocol.dfy`: the receive side, with receive interrupts between any two reads.
* `KernelLock.dfy`: the nested kernel lock, with pre-emption between any two accesses to shared state.
* `ThreadNotification.dfy`: the binary notification that one subscriber waits for and any thread or interrupt releases.
* `ThreadContext.dfy`: the heap context that a worker and the owner of its `Thread` share and one of them deletes.
* `ThreadComposition.dfy`: the thread context's runs as runs of the notification.
* `PreemptiveThreads.dfy`: worker and owner under pre-emption, with the kernel lock's own statements; their runs are
  exactly the thread context's runs.
* `SpinLock.dfy`: interrupt spin locks that save and restore BASEPRI.
* `SystemClock.dfy` and `SystemTimer.dfy`: the 64-bit clock over a 32-bit counter and the timer that stretches 64-bit
  deadlines over a 32-bit RTOS timer.
* `LwipMemory.dfy`: the over-allocation, alignment and trimming of lwIP buffer chains.
* `BitCopy.dfy`: copying a bit string in network order.
* `StepSystems.dfy` and `Basics.dfy`: runs of a step system, and small definitions that the models share.

## How the models are built

Objects that the source updates in place are classes with the same fields, and loops are loops. Code that several
threads or an interrupt handler share is also a step system: a state, events, a function `Next`, and runs that are
sequences of enabled events (`StepSystems.LegalRun`). Main results hold in every state of every run from the initial
one. Where both forms exist, a method is proved to make one transition of the step system, or several in a row
(`Shows` ties an object to a state). The two `put` methods of the buffer manager are specified on the transmit state
alone; `SerialBufferManager.PutByteIsRun` and `SerialBufferManager.PutBytesIsRun` show that this is the run of their
three events.

A section under the kernel lock is one step, or excludes the other side while it lasts. `KernelLocking.Exclusive` and
`KernelLocking.CounterIsRunningDepth` are the reason. For the thread context it is proved in both directions:
`PreemptiveThreads.PreemptibleRunsAreContextRuns` shows that every pre-emptible run is one with the lock as one step,
and `PreemptiveThreads.LockIsKernelLock` that all of those happen. The lock does not keep interrupts out, so the section
in which a subscriber of the notification subscribes takes several steps. A critical section of the serial backend is
one step because it masks interrupts.

The environment appears as parameters. The answers of `mdh_serial_is_writable`, the arriving bytes, the RTOS tick
count, the status of a wait for thread flags and the chain that `pbuf_alloc` returns are arbitrary within the small
contracts written beside them. Sizes (buffer, peripheral chunk, pool unit) are arbitrary positive numbers.

Build choices: overflow does not abort, the CMSIS-RTOS mutexes are used for the serial locks, joining is supplied by
the SDK (the RTOS cannot join), and the RTOS timer is the periodic one that is stopped after it has done its work.

## Where the code differs from its intent

* `sys_io_mdh.cc:171` ends the contiguous copy of a bulk `get` at `buffer_ + dest.size()`. The end that delivers the
  data is `buffer_ + tail_ + dest.size()` (`SerialRingBuffer.ContiguousEndIffExact`). The exact condition under which
  the code is right is `SerialRingBuffer.BulkGetDeliversIff`. The transmit path uses the single `get` only.
* `thread.cc:159` reads the context of a thread created detached, which its worker may have deleted
  (`ThreadContexts.SafeIffCreatedJoinable`).
* `ThreadNotification::release` may be called from an interrupt, but the kernel lock around
  `native_thread_notification.cc:104-115` does not mask interrupts, and a release in the middle of that section is lost
  (`ThreadNotifications.InterruptReleaseCanBeLost`). `ThreadNotifications.WakesIff` is the exact condition.
* Interrupt spin locks restore BASEPRI only when the lock released last is the one taken first
  (`InterruptSpinLocks.LastUnlockRestoresIff`), and an unlock in an interrupt clears it
  (`InterruptSpinLocks.NativeInterruptSpinLock.InterruptSection`).
* An aligned pool request for zero bytes wraps the length of its link around (`LwipMemory.PoolUsableIff`), and
  `get_payload_len` need not answer what `set_payload_len` set on a longer chain
  (`LwipMemory.PayloadLenRoundTripIff`). Requests beyond 16 bits are truncated: the heap link then claims more bytes
  than it has (`LwipMemory.HeapFitsIff`), and the pool chain is not what was asked for (`LwipMemory.PoolServesIff`).
* The comment at `system_clock.cc:24-25` asks for two calls in every wrap of the counter. Calls less than 2^32 ticks
  apart are enough, and are needed (`SystemClocks.ClockExactIffCalledOften`).
* The comment at `system_timer.cc:76` names UINT32_MAX as the upper bound of the clamp; the code uses one less.
* `common_functions.h` says that `bitcopy` returns its destination; the code returns the byte it would write next.

## Model

| member | source | states |
|---|---|---|
| `BoundedQueue.PutEachKeepsNewest` | components/pigweed/pw_sys_io_mcu_driver_hal/sys_io_mdh.cc:57-79 | single puts in a row leave the newest elements that fit, so a bulk put that keeps the newest elements agrees with them |
| `BoundedQueue.GetEachTakesOldest` | components/pigweed/pw_sys_io_mcu_driver_hal/sys_io_mdh.cc:133-145 | single gets in a row take the oldest elements in order, as many as there are or were asked for, and leave the others |
| `BoundedQueue.ChunkingIsInvisible` | components/pigweed/pw_sys_io_mcu_driver_hal/sys_io_mdh.cc:328-344 | however a received stream is cut into chunks, the queue ends with the newest bytes of the whole stream |
| `SerialRingBuffer.OverwriteKeepsNewest` | components/pigweed/pw_sys_io_mcu_driver_hal/sys_io_mdh.cc:65-131 | overwriting the slots from the head on, and moving the tail when the buffer fills up, makes the circular array hold the newest elements of old content and source, for every head, tail, fill level and source length up to the size |
| `SerialRingBuffer.RingBuffer.Put` | components/pigweed/pw_sys_io_mcu_driver_hal/sys_io_mdh.cc:65-79 | the content gets the new element at its end, and loses its oldest one exactly when it was full; the representation invariant is kept |
| `SerialRingBuffer.RingBuffer.PutSpan` | components/pigweed/pw_sys_io_mcu_driver_hal/sys_io_mdh.cc:81-131 | the same for a whole span, on every branch: empty, single, longer than the buffer, wrapped, contiguous, exact fill, overflow |
| `SerialRingBuffer.RingBuffer.Get` | components/pigweed/pw_sys_io_mcu_driver_hal/sys_io_mdh.cc:133-145 | takes the oldest element exactly when there is one and leaves the rest in order; otherwise changes nothing |
| `SerialRingBuffer.RingBuffer.GetSpan` | components/pigweed/pw_sys_io_mcu_driver_hal/sys_io_mdh.cc:147-178 | the copy is undefined if and only if more than one slot is offered and 0 < n < tail with tail + n within the array, n being the number of elements to move; otherwise n elements are removed and every element of the destination is given: the oldest ones where the copy wraps or is of one element, and only slots tail to n - 1 on the contiguous branch |
| `SerialRingBuffer.FetchedMeaning` | components/pigweed/pw_sys_io_mcu_driver_hal/sys_io_mdh.cc:147-178 | for every array, tail, fill level and destination: when the copies are defined, and what each element of the destination is then |
| `SerialRingBuffer.BulkGetDeliversIff` | components/pigweed/pw_sys_io_mcu_driver_hal/sys_io_mdh.cc:163-173 | the bulk get delivers the oldest elements, for every previous content of the destination, if and only if it moves nothing, asks for one element, wraps around, or starts at slot 0 |
| `SerialRingBuffer.DeliveredIsGetEach` | components/pigweed/pw_sys_io_mcu_driver_hal/sys_io_mdh.cc:147-178 | what a bulk get is meant to deliver and to leave in the buffer is what single gets in a row take and leave, for every tail, fill level and length |
| `SerialRingBuffer.ContiguousEndIffExact` | components/pigweed/pw_sys_io_mcu_driver_hal/sys_io_mdh.cc:171 | of all possible ends of the contiguous copy, only tail + n delivers the n oldest elements; the code ends at n |
| `SerialRingBuffer.BulkGetCanLoseData` | components/pigweed/pw_sys_io_mcu_driver_hal/sys_io_mdh.cc:171 | a buffer of four with two elements waiting at slot 1: the second is removed and never delivered |
| `SerialRingBuffer.RingBuffer.IsEmpty` | components/pigweed/pw_sys_io_mcu_driver_hal/sys_io_mdh.cc:180-184 | true exactly when there is no content |
| `SerialRingBuffer.RingBuffer.IsFull` | components/pigweed/pw_sys_io_mcu_driver_hal/sys_io_mdh.cc:186-190 | true exactly when the content has the size of the buffer |
| `SerialRingBuffer.RingBuffer.Capacity` | components/pigweed/pw_sys_io_mcu_driver_hal/sys_io_mdh.cc:192-201 | the number of elements that can be put without losing any |
| `SerialBufferManager.BufferManager.SendLoop` | components/pigweed/pw_sys_io_mcu_driver_hal/sys_io_mdh.cc:354-362 | moves the oldest bytes in order to the port: one, one more for every answer that it can take another, and no more after the first answer that it cannot |
| `SerialBufferManager.BufferManager.SerialIrqTx` | components/pigweed/pw_sys_io_mcu_driver_hal/sys_io_mdh.cc:309-326 | an interrupt that finds the queue empty clears the sending flag and sends nothing; any other one sets it and sends the oldest bytes as far as the port lets it; it is the interrupt transition of the write protocol |
| `SerialBufferManager.BufferManager.TriggerSend` | components/pigweed/pw_sys_io_mcu_driver_hal/sys_io_mdh.cc:346-363 | sends nothing and changes nothing while the sending flag is set; otherwise sends the oldest bytes as far as the port lets it, and sets the flag if there was one; it is the trigger transition of the write protocol |
| `SerialBufferManager.BufferManager.PutByte` | components/pigweed/pw_sys_io_mcu_driver_hal/sys_io_mdh.cc:258-267 | accepts the byte exactly when there is room, queues it last and triggers sending; otherwise changes nothing |
| `SerialBufferManager.BufferManager.PutBytes` | components/pigweed/pw_sys_io_mcu_driver_hal/sys_io_mdh.cc:269-276 | accepts exactly the part that fits, in order, without overwriting, and triggers sending |
| `SerialBufferManager.PutByteIsRun` | components/pigweed/pw_sys_io_mcu_driver_hal/sys_io_mdh.cc:258-267 | a put of one byte is the test, put and send events of the write protocol in a row, and when the queue is full the test event that changes nothing |
| `SerialBufferManager.PutBytesIsRun` | components/pigweed/pw_sys_io_mcu_driver_hal/sys_io_mdh.cc:416-426 | a put of a span is one round of the loop of WriteBytes in the write protocol, and moves the call on by exactly the bytes accepted |
| `SerialBufferManager.BufferManager.SerialIrqRx` | components/pigweed/pw_sys_io_mcu_driver_hal/sys_io_mdh.cc:328-344 | the receive buffer ends with the newest bytes of old content and everything that arrived, however the interrupt chunks it |
| `SerialBufferManager.BufferManager.Get` | components/pigweed/pw_sys_io_mcu_driver_hal/sys_io_mdh.cc:278-281 | takes the oldest received byte exactly when there is one; is the read of the read protocol |
| `ReadProtocol.ReadsAreArrivalsInOrder` | components/pigweed/pw_sys_io_mcu_driver_hal/sys_io_mdh.cc:328-398 | in every run of receive interrupts and single reads, what was read and then what is queued are arrivals in order, none twice; the queue is the end of the arrivals, and the bytes missing are exactly as many as overflow dropped |
| `ReadProtocol.NothingLostIff` | components/pigweed/pw_sys_io_mcu_driver_hal/sys_io_mdh.cc:328-398 | every byte that arrived has been read or is queued if and only if no receive interrupt overflowed the buffer |
| `ReadProtocol.ArrivedIsReceived` | components/pigweed/pw_sys_io_mcu_driver_hal/sys_io_mdh.cc:328-344 | in every run, what counts as arrived is exactly what the receive interrupts have delivered, in order |
| `ReadProtocol.ReadsTakeOldest` | components/pigweed/pw_sys_io_mcu_driver_hal/sys_io_mdh.cc:278-281 | any number of reads in a row take the oldest queued bytes in order, as many as there are or were asked for |
| `ReadProtocol.QueuedIsRead` | components/pigweed/pw_sys_io_mcu_driver_hal/sys_io_mdh.cc:328-398 | after any run and one more receive interrupt, as many reads as the buffer has room for return the newest bytes of what was queued and delivered, and leave the queue empty |
| `WriteProtocol.NextKeepsInv` | components/pigweed/pw_sys_io_mcu_driver_hal/sys_io_mdh.cc:258-435 | every step of every thread and every interrupt keeps the invariant on mutex, room, conservation, whole calls and sending |
| `WriteProtocol.TransmitConserves` | components/pigweed/pw_sys_io_mcu_driver_hal/sys_io_mdh.cc:258-363 | in every run, bytes given to the port followed by bytes queued are the accepted bytes in order, and the queue never outgrows the buffer |
| `WriteProtocol.CallsStayWhole` | components/pigweed/pw_sys_io_mcu_driver_hal/sys_io_mdh.cc:407-435 | in every run, the accepted stream is the payloads of the finished calls in order and then a prefix of the mutex holder's payload |
| `WriteProtocol.LinesStayWhole` | components/pigweed/pw_sys_io_mcu_driver_hal/sys_io_mdh.cc:428-435 | when all writers use WriteLine, the accepted stream is exactly the lines of the finished calls, each ended by byte 10, in the order the calls finished, and then the start of the mutex holder's line |
| `WriteProtocol.ReturningCallIsAccepted` | components/pigweed/pw_sys_io_mcu_driver_hal/sys_io_mdh.cc:416-426 | a call that returns has had exactly its payload accepted, after the payloads of the calls finished before it |
| `WriteProtocol.HolderIsNeverBlocked` | components/pigweed/pw_sys_io_mcu_driver_hal/lock/cmsis_rtos_lock.c:21-24 | re-entering the recursive write mutex never blocks its holder |
| `WriteProtocol.MutualExclusion` | components/pigweed/pw_sys_io_mcu_driver_hal/lock/cmsis_rtos_lock.c:40-53 | in every run, two threads past the acquisition of the write mutex are the same thread, which owns it, and the mutex counts its acquisitions |
| `WriteProtocol.HolderFinishes` | components/pigweed/pw_sys_io_mcu_driver_hal/sys_io_mdh.cc:407-435 | from every reachable state, the holder, and any caller while the mutex is free, finishes its call within a number of its own steps and transmit interrupts bounded by its payload, whatever the port answers |
| `WriteProtocol.NoStrandedOutput` | components/pigweed/pw_sys_io_mcu_driver_hal/sys_io_mdh.cc:346-363 | in every reachable state without a put in progress, queued bytes imply that the sending flag is set |
| `WriteProtocol.SendingClearedOnlyWhenEmpty` | components/pigweed/pw_sys_io_mcu_driver_hal/sys_io_mdh.cc:311-312 | a run in which the sending flag goes from set to clear has an interrupt that found the queue empty while the flag was set |
| `WriteProtocol.InterruptsDeliverAll` | components/pigweed/pw_sys_io_mcu_driver_hal/sys_io_mdh.cc:309-326 | from every reachable state, as many interrupts as there are queued bytes put everything accepted on the wire |
| `WriteProtocol.InterruptsClearSending` | components/pigweed/pw_sys_io_mcu_driver_hal/sys_io_mdh.cc:309-326 | from every reachable state, one interrupt more than there are queued bytes leaves the queue empty, everything accepted on the wire and the sending flag clear |
| `WriteProtocol.IdlePutIsSent` | components/pigweed/pw_sys_io_mcu_driver_hal/sys_io_mdh.cc:346-363 | in every reachable state with an empty queue and a clear flag, the next put of a thread that has a byte to put reaches the port in its own send, the first bytes of its payload first |
| `WriteProtocol.CallIsServed` | components/pigweed/pw_sys_io_mcu_driver_hal/sys_io_mdh.cc:407-435 | after any run, a call made while the mutex is free returns within a bounded number of its steps and interrupts whatever the port answers, and the accepted stream has grown by exactly the byte, the bytes, or the line and byte 10 |
| `KernelLocking.NextKeepsInv` | components/pigweed/pw_cmsis_rtos_util/kernel_lock.cc:17-37 | every step of lock and unlock, every context switch and every direct use of the kernel lock keeps the invariant |
| `KernelLocking.CounterIsRunningDepth` | components/pigweed/pw_cmsis_rtos_util/kernel_lock.cc:17-37 | for any number of threads and any nesting, the counter is the running thread's depth, all other threads have depth 0, and a positive counter means a locked kernel and no context switch |
| `KernelLocking.OutermostUnlockRestores` | components/pigweed/pw_cmsis_rtos_util/kernel_lock.cc:30-37 | whenever the running thread is outside the lock, the kernel is as locked as direct calls of the RTOS left it |
| `KernelLocking.RestoreStep` | components/pigweed/pw_cmsis_rtos_util/kernel_lock.cc:33-34 | in every run, the outermost unlock restores the state that the thread's own osKernelLock returned, which is what direct calls had left |
| `KernelLocking.Exclusive` | components/pigweed/pw_cmsis_rtos_util/kernel_lock.cc:19-25 | two threads never hold the lock at once although the counter is tested before the kernel is locked, and the holder is the running thread |
| `KernelLocking.LockRunEffect` | components/pigweed/pw_cmsis_rtos_util/kernel_lock.cc:17-28 | an uninterrupted lock() is legal, adds one to depth and counter and leaves other threads alone; only the outermost one locks the kernel and saves its state |
| `KernelLocking.UnlockRunEffect` | components/pigweed/pw_cmsis_rtos_util/kernel_lock.cc:30-37 | an uninterrupted unlock() is legal, undoes one level and leaves other threads alone; only the outermost one restores the kernel |
| `KernelLocking.KernelLock.Lock` | components/pigweed/pw_cmsis_rtos_util/kernel_lock.cc:17-28 | adds one to the counter, locks the kernel, and saves the state before only at the outermost level; these are the shared changes of the run of its steps |
| `KernelLocking.KernelLock.Unlock` | components/pigweed/pw_cmsis_rtos_util/kernel_lock.cc:30-37 | takes one from the counter and gives the kernel its saved state only when the counter reaches zero; these are the shared changes of the run of its steps |
| `ThreadNotifications.WokenMeansFlag` | components/pigweed/pw_sync_cmsis_rtos/native_thread_notification.cc:127-141 | the wait loop ends in success exactly on a flags word with the wait flag; the timeout code has that bit too and is still ignored |
| `ThreadNotifications.NativeThreadNotification.WaitForever` | components/pigweed/pw_sync_cmsis_rtos/native_thread_notification.cc:127-141 | returns the first status that is not 0xFFFFFFFE and has bit 13 or is at least 0x80000000; every status before it is the timeout or has neither |
| `ThreadNotifications.NextKeepsInv` | components/pigweed/pw_sync_cmsis_rtos/native_thread_notification.cc:43-169 | every release, by a thread or an interrupt, and every statement of an acquire keeps the invariant |
| `ThreadNotifications.NoLostWakeUp` | components/pigweed/pw_sync_cmsis_rtos/native_thread_notification.cc:74-92 | in every run with releases from threads, a parked subscriber can go on exactly when a notification is pending |
| `ThreadNotifications.WakesIff` | components/pigweed/pw_sync_cmsis_rtos/native_thread_notification.cc:103-115 | with releases from threads and interrupts, a parked subscriber can go on if and only if some pending release did not come from an interrupt inside the section that subscribed |
| `ThreadNotifications.InterruptReleaseCanBeLost` | components/pigweed/pw_sync_cmsis_rtos/native_thread_notification.cc:105-113 | a run in which a release from an interrupt between the test and the subscription leaves the subscriber parked and notified, with nothing to wake it |
| `ThreadNotifications.ParkedSubscriberFinishes` | components/pigweed/pw_sync_cmsis_rtos/native_thread_notification.cc:117-169 | a parked subscriber with a pending release that was not missed finishes its acquire, and leaves no flag behind |
| `ThreadNotifications.NoInventedWakeUp` | components/pigweed/pw_sync_cmsis_rtos/native_thread_notification.cc:43-169 | in every run, acquires and a pending notification never exceed releases |
| `ThreadNotifications.ReleaseStaysPending` | components/pigweed/pw_sync_cmsis_rtos/native_thread_notification.cc:82-83 | after any run, a release stays pending until an acquire completes, and nothing is pending without a release since the last acquire |
| `ThreadNotifications.PendingIffReleased` | components/pigweed/pw_sync_cmsis_rtos/native_thread_notification.cc:43-169 | from every reachable state with nothing pending, any run without a completed acquire ends with a notification pending if and only if it has a release, and a run without a release completes no acquire |
| `ThreadNotifications.TryTakesPending` | components/pigweed/pw_sync_cmsis_rtos/native_thread_notification.cc:43-56 | after any run, a try succeeds exactly when a release is pending and uses up all that are; whatever runs between, no later try succeeds before the next release |
| `ThreadNotifications.AcquireTakesPending` | components/pigweed/pw_sync_cmsis_rtos/native_thread_notification.cc:94-109 | after any run that left a release pending, an acquire completes in its own first steps without waiting |
| `ThreadNotifications.AcquireParks` | components/pigweed/pw_sync_cmsis_rtos/native_thread_notification.cc:94-115 | after any run that left none pending, an acquire subscribes and parks with its flag clear |
| `ThreadNotifications.SubscriberChecksHold` | components/pigweed/pw_sync_cmsis_rtos/native_thread_notification.cc:48-97 | with one subscriber at a time, the check for a second one never fails |
| `ThreadNotifications.NativeThreadNotification.TryAcquire` | components/pigweed/pw_sync_cmsis_rtos/native_thread_notification.cc:43-56 | acquires exactly when a notification was set, and leaves it clear; it is the transition of the step system |
| `ThreadNotifications.NativeThreadNotification.Release` | components/pigweed/pw_sync_cmsis_rtos/native_thread_notification.cc:74-92 | sets the notification, and the flag of exactly the blocked thread if there is one; it is the transition of the step system, for a release by a thread and for one by an interrupt |
| `ThreadNotifications.NativeThreadNotification.SubscribeOrConsume` | components/pigweed/pw_sync_cmsis_rtos/native_thread_notification.cc:103-115 | with a notification set, consumes it and blocks nobody; otherwise subscribes the thread and clears its old flag; these are the locked steps of an acquire in a row |
| `ThreadNotifications.NativeThreadNotification.Awaken` | components/pigweed/pw_sync_cmsis_rtos/native_thread_notification.cc:164-167 | unblocks, consumes the notification and clears the thread's flag; these are the three unlocked steps at the end of an acquire in a row |
| `ThreadContexts.NextKeepsInv` | components/pigweed/pw_thread_cmsis_rtos/thread.cc:126-206 | every access of the worker and of the owner keeps the invariant of a context created joinable, respects the lock and leaves fewer accesses to go |
| `ThreadContexts.DeletedExactlyOnce` | components/pigweed/pw_thread_cmsis_rtos/thread.cc:126-206 | in every interleaving of a joinable thread the context is deleted at most once, exactly once when both sides finish, and a finished join means the worker has left |
| `ThreadContexts.SafeIffCreatedJoinable` | components/pigweed/pw_thread_cmsis_rtos/thread.cc:126-206 | no run reads or writes a deleted context if and only if the thread is created joinable |
| `ThreadContexts.CreatedDetachedTouchesDead` | components/pigweed/pw_thread_cmsis_rtos/thread.cc:159 | a run in which the worker of a thread created detached deletes the context before the constructor's last read |
| `ThreadContexts.NeverStuck` | components/pigweed/pw_thread_cmsis_rtos/thread.cc:126-206 | until both sides have finished some step is possible |
| `ThreadContexts.EveryRunFinishes` | components/pigweed/pw_thread_cmsis_rtos/thread.cc:126-206 | every interleaving of a joinable thread has at most 23 events and can go no further exactly when both sides have finished, so a waiting join is always woken |
| `ThreadContexts.CleanupEffect` | components/pigweed/pw_thread_cmsis_rtos/thread.cc:132-142 | the locked cleanup deletes a detached context and otherwise marks it completed and releases the join notification |
| `ThreadContexts.Context.SetCompleted` | components/pigweed/pw_thread_cmsis_rtos/thread.cc:91-97 | sets the completed bit, keeps the detached bit, and notifies |
| `ThreadContexts.Context.SetDetached` | components/pigweed/pw_thread_cmsis_rtos/thread.cc:99-102 | sets the detached bit and keeps the completed bit |
| `ThreadContexts.Context.FinishWorker` | components/pigweed/pw_thread_cmsis_rtos/thread.cc:132-142 | deletes the context exactly when bit 4 is set; otherwise sets bit 2, notifies and wakes a blocked owner; these are the worker's locked steps in a row |
| `ThreadContexts.Context.Detach` | components/pigweed/pw_thread_cmsis_rtos/thread.cc:191-205 | frees the context exactly when bit 2 is set and otherwise sets bit 4, leaving the join notification alone; these are the owner's locked steps in a row |
| `ThreadComposition.JoinUsesNotification` | components/pigweed/pw_thread_cmsis_rtos/thread.cc:91-97 | every run of a joinable thread is, for its join notification, a legal run of the notification model with one subscriber and thread releases, and ends in the same notification |
| `PreemptiveThreads.PreemptibleRunsAreContextRuns` | components/pigweed/pw_cmsis_rtos_util/kernel_lock.cc:17-37 | every run of worker and owner that take the lock with the pre-emptible statements of lock() and unlock(), nested in the release too, and are switched between any two statements, is event by event a legal run of the kernel lock and a legal run of the thread context in which taking the lock is one step |
| `PreemptiveThreads.PreemptibleRunsAreSafe` | components/pigweed/pw_thread_cmsis_rtos/thread.cc:126-206 | under pre-emption too, no deleted context is touched, it is deleted at most once and exactly once when both sides finish, and a finished join means the worker has left |
| `PreemptiveThreads.LockIsKernelLock` | components/pigweed/pw_thread_cmsis_rtos/thread.cc:132-142 | conversely, every run of the thread context is, event by event, what a pre-emptible run shows, and where that ends a side may run exactly when the kernel lock gives or can give it the processor |
| `InterruptSpinLocks.NextKeepsInv` | components/pigweed/pw_sync_cmsis_rtos/native_interrupt_spin_lock.cc:23-84 | taking or releasing any lock in any order keeps the invariant on saved values, counter and BASEPRI |
| `InterruptSpinLocks.MaskedWhileHeld` | components/pigweed/pw_sync_cmsis_rtos/native_interrupt_spin_lock.cc:49-71 | in every run BASEPRI is 16 while any lock is held, in whatever order locks are released |
| `InterruptSpinLocks.NestedLocksRestore` | components/pigweed/pw_sync_cmsis_rtos/native_interrupt_spin_lock.cc:23-84 | for every properly nested sequence over any number of locks, BASEPRI is 16 while one is held and afterwards what it was before |
| `InterruptSpinLocks.LastUnlockRestoresIff` | components/pigweed/pw_sync_cmsis_rtos/native_interrupt_spin_lock.cc:57-63 | in any order, the last unlock restores BASEPRI if and only if it releases the lock taken first and held since, or the mask was the value before |
| `InterruptSpinLocks.FirstInFirstOutStaysMasked` | components/pigweed/pw_sync_cmsis_rtos/native_interrupt_spin_lock.cc:57-63 | releasing two locks in the order they were taken leaves interrupts masked |
| `InterruptSpinLocks.NativeInterruptSpinLock.TryLock` | components/pigweed/pw_sync_cmsis_rtos/native_interrupt_spin_lock.cc:23-36 | saves BASEPRI in the lock and sets it to 16; in thread context it adds one to the shared counter and is the lock transition of the step system, in an interrupt it leaves the counter alone |
| `InterruptSpinLocks.NativeInterruptSpinLock.Unlock` | components/pigweed/pw_sync_cmsis_rtos/native_interrupt_spin_lock.cc:38-47 | in thread context it takes one from the shared counter, writes the saved BASEPRI back only when that was the last, and is the unlock transition of the step system; in an interrupt it clears BASEPRI whatever was saved |
| `InterruptSpinLocks.NativeInterruptSpinLock.InterruptSection` | components/pigweed/pw_sync_cmsis_rtos/native_interrupt_spin_lock.cc:73-78 | a lock taken and released in an interrupt leaves BASEPRI as it was if and only if it was clear |
| `SystemClocks.SampleAdvances` | components/pigweed/pw_chrono_cmsis_rtos/system_clock.cc:22-32 | one call adds the elapsed time modulo 2^32 and never runs ahead of the true count |
| `SystemClocks.ClockIsSound` | components/pigweed/pw_chrono_cmsis_rtos/system_clock.cc:18-36 | over any calls before 2^63 ticks, the results never decrease, never exceed the true count and agree with it modulo 2^32 |
| `SystemClocks.ClockExactIffCalledOften` | components/pigweed/pw_chrono_cmsis_rtos/system_clock.cc:24-28 | every result is the true tick count if and only if consecutive calls, and boot and the first call, are less than 2^32 ticks apart |
| `SystemClocks.ClockCanMissAWrap` | components/pigweed/pw_chrono_cmsis_rtos/system_clock.cc:24-28 | a first call one wrap after boot answers zero |
| `SystemClocks.SystemClock.GetSystemClockTickCount` | components/pigweed/pw_chrono_cmsis_rtos/system_clock.cc:18-36 | the high word grows by one, in 32 bits, exactly when the counter is below its last value; the answer is both words read as a signed 64-bit number; it is one sample of the specification |
| `SystemTimers.TimerIsAlarm` | components/pigweed/pw_chrono_cmsis_rtos/system_timer.cc:66-134 | in every run of Set, Unset and expiries, including stale and spurious ones, the self re-arming timer calls back exactly when a plain alarm with one pending deadline rings |
| `SystemTimers.CallbackIsDue` | components/pigweed/pw_chrono_cmsis_rtos/system_timer.cc:110-133 | every callback comes from an expiry at or past the deadline of the latest Set, with no Unset, Set or callback since that Set |
| `SystemTimers.CallbackOrigin` | components/pigweed/pw_chrono_cmsis_rtos/system_timer.cc:110-133 | the same from any starting state, by induction over the run |
| `SystemTimers.CallbacksNeverExceedSets` | components/pigweed/pw_chrono_cmsis_rtos/system_timer.cc:66-134 | in every run, no more callbacks are decided than there were calls of Set |
| `SystemTimers.RtosTimerRunsIffPending` | components/pigweed/pw_chrono_cmsis_rtos/system_timer.cc:66-134 | in every run the RTOS timer runs exactly while the alarm has a deadline to ring for, and was started for it |
| `SystemTimers.EarlyExpiryProgresses` | components/pigweed/pw_chrono_cmsis_rtos/system_timer.cc:124-128 | an early expiry arms the timer again strictly closer to the deadline, with one needed expiry less |
| `SystemTimers.NeededIsCeiling` | components/pigweed/pw_chrono_cmsis_rtos/system_timer.cc:86-89 | the number of expiries a distance needs is the distance divided by 2^32 - 2, rounded up, and at least one |
| `SystemTimers.CallbackComes` | components/pigweed/pw_chrono_cmsis_rtos/system_timer.cc:76-94 | without further user calls the callback is decided within the needed number of expiries |
| `SystemTimers.SetCallsBack` | components/pigweed/pw_chrono_cmsis_rtos/system_timer.cc:66-94 | after any Set, from any state of the timer, the callback for its deadline is decided within the number of expiries that the distance at that time needs |
| `SystemTimers.CallbackInTime` | components/pigweed/pw_chrono_cmsis_rtos/system_timer.cc:66-134 | after any Set, from any state of the timer, with expiries served within one tick, the deciding expiry comes no earlier than the deadline and at most one tick after the later of deadline and time of the Set plus one; re-arming adds at most the longest time between the two clock readings of an early expiry |
| `SystemTimers.ReArmingReadsOften` | components/pigweed/pw_chrono_cmsis_rtos/system_timer.cc:84-89 | when expiries are served within one tick, the readings of the clock are less than 2^32 ticks apart |
| `SystemTimers.TimerKeepsClockExact` | components/pigweed/pw_chrono_cmsis_rtos/system_timer.cc:84-89 | so a clock that is exact when the timer is set is exact at every expiry |
| `SystemTimers.NativeSystemTimer.Set` | components/pigweed/pw_chrono_cmsis_rtos/system_timer.cc:66-95 | keeps the deadline verbatim and starts the RTOS timer with the distance where that is in 1..0xFFFFFFFE, with 1 below and 0xFFFFFFFE above; it is the Set transition |
| `SystemTimers.NativeSystemTimer.Unset` | components/pigweed/pw_chrono_cmsis_rtos/system_timer.cc:97-108 | stops the RTOS timer of a timer that is set, leaves any other one alone, and is the Unset transition |
| `SystemTimers.NativeSystemTimer.Invoke` | components/pigweed/pw_chrono_cmsis_rtos/system_timer.cc:110-134 | a timer that is not set does nothing; one that is early starts the RTOS timer again for what is left; otherwise it calls back with the deadline and stops; it is the expiry transition |
| `LwipMemory.PoolRequestFits` | components/connectivity/lwip/lwip_cmsis_port/src/lwip_memory_manager.c:61-144 | for a positive size, the enlarged pool chain has exactly ceil(size / (unit - align)) links, every link keeps at least one byte after trimming, and exactly size bytes remain |
| `LwipMemory.SurplusKeepsLinkCount` | components/connectivity/lwip/lwip_cmsis_port/src/lwip_memory_manager.c:61-68 | the surplus never makes the pool request need another link |
| `LwipMemory.PoolLinkCount` | components/connectivity/lwip/lwip_cmsis_port/src/lwip_memory_manager.c:136 | a pool chain has one link for every started unit of the request |
| `LwipMemory.PoolUsableIff` | components/connectivity/lwip/lwip_cmsis_port/src/lwip_memory_manager.c:131-144 | the trimmed chain has size bytes and no link trimmed below its length if and only if size is positive or nothing is aligned |
| `LwipMemory.PoolServesIff` | components/connectivity/lwip/lwip_cmsis_port/src/lwip_memory_manager.c:61-144 | for every size and alignment, with all that the 32-bit and 16-bit arithmetic cuts off, the trimmed chain has size bytes and no link trimmed below its length if and only if the size is positive and fits 16 bits with its surplus, or nothing is aligned and the size alone fits |
| `LwipMemory.ServedIff` | components/connectivity/lwip/lwip_cmsis_port/src/lwip_memory_manager.c:61-144 | the same as the caller sees it, for alignments of 16 bits: the 16-bit total is the size and no link has grown if and only if the pool serves the request |
| `LwipMemory.TruncatedPoolRequest` | components/connectivity/lwip/lwip_cmsis_port/src/lwip_memory_manager.c:136 | a request for 65534 bytes aligned to 4 is cut off to a chain that holds 154 |
| `LwipMemory.EmptyRequestWraps` | components/connectivity/lwip/lwip_cmsis_port/src/lwip_memory_manager.c:110 | an empty aligned request: the 16-bit length of its link wraps around |
| `LwipMemory.TotalsAddUp` | components/connectivity/lwip/lwip_cmsis_port/src/lwip_memory_manager.c:70-91 | each total is the link's length plus the total of the next link, in 16 bits |
| `LwipMemory.SetTotalLen` | components/connectivity/lwip/lwip_cmsis_port/src/lwip_memory_manager.c:70-91 | the nested loops make every total the sum of the lengths from its link to the end, for any acyclic chain |
| `LwipMemory.AlignedUpIsNextMultiple` | components/connectivity/lwip/lwip_cmsis_port/src/lwip_memory_manager.c:102-109 | the new start is aligned and less than the alignment further on |
| `LwipMemory.AlignMemory` | components/connectivity/lwip/lwip_cmsis_port/src/lwip_memory_manager.c:93-116 | moves every link to its next aligned address, trims its length, recomputes the totals, and keeps every link with room inside its own storage |
| `LwipMemory.AllocFromStaticPool` | components/connectivity/lwip/lwip_cmsis_port/src/lwip_memory_manager.c:131-144 | every link is aligned and trimmed and the totals are recomputed; for a request that fits, every link is non-empty and inside its own storage and the total is exactly the size; the chain is usable exactly for the requests that the pool serves |
| `LwipMemory.HeapFitsIff` | components/connectivity/lwip/lwip_cmsis_port/src/lwip_memory_manager.c:118-129 | a link whose length went through 16 bits keeps inside its storage once aligned and trimmed if and only if the request with its alignment fits 16 bits |
| `LwipMemory.TruncatedHeapRequest` | components/connectivity/lwip/lwip_cmsis_port/src/lwip_memory_manager.c:121 | a request for 65534 bytes aligned to 4 gets a link of two bytes that claims to hold 65534 |
| `LwipMemory.AllocFromHeap` | components/connectivity/lwip/lwip_cmsis_port/src/lwip_memory_manager.c:118-129 | for any size and alignment the single link is aligned and holds the size in 16 bits; its bytes are inside its storage exactly when the request fits |
| `LwipMemory.SetPayloadLen` | components/connectivity/lwip/lwip_cmsis_port/src/lwip_memory_manager.c:194-201 | changes the first length only and recomputes every total |
| `LwipMemory.PayloadLenRoundTripIff` | components/connectivity/lwip/lwip_cmsis_port/src/lwip_memory_manager.c:188-201 | reading the payload length back gives the value set if and only if the later links add up to nothing in 16 bits |
| `LwipMemory.LongerChainAnswersMore` | components/connectivity/lwip/lwip_cmsis_port/src/lwip_memory_manager.c:188-201 | on a chain of two links, setting the length to one and reading it gives three |
| `BitStrings.MaskSelects` | components/mbed-os-netsocket/common/src/libBits/common_functions.c:27-30 | the mask has exactly its first bits set |
| `BitStrings.MaskValue` | components/mbed-os-netsocket/common/src/libBits/common_functions.c:27-30 | the value of each of the nine masks |
| `BitStrings.CopiedBit` | components/mbed-os-netsocket/common/src/libBits/common_functions.c:32-48 | every bit below the count is the source's and every later bit is the destination's old one |
| `BitStrings.BitCopy` | components/mbed-os-netsocket/common/src/libBits/common_functions.c:32-48 | after the in-place copy every bit below the count is the source's and every other bit is as it was; the returned pointer is the destination exactly for less than eight bits |

## Left out

- SerialRingBuffer.RingBuffer.GetSpan: where the source copies a reversed range, C++ gives the copy no defined effect,
  so the contract says only that this happens and promises nothing about the destination.
- LwipMemory.AllocFromStaticPool: for an alignment of exactly one pool buffer the source divides by zero, which has no
  defined effect; the contract asks for another one, and for pool buffers whose length fits 16 bits.
- LwipMemory.SetTotalLen: the 32-bit accumulator is unbounded; its wrap-around would not show in the 16-bit totals.
- SystemTimers.NativeSystemTimer.Set: where the signed 64-bit difference of deadline and clock overflows, which takes a
  deadline before boot, C++ gives it no meaning; the contract takes the difference as it is.
- SystemTimers.NativeSystemTimer.Unset: `osTimerStop` always succeeds, and the build with a one-shot RTOS timer is not
  modelled.
- KernelLocking.KernelLock.Lock: the width of the nesting counter, and a failing `osKernelLock`, are not modelled.
- Timed acquires of the notification, whose error return leaves the blocked thread set, and errors of a wait other than
  a timeout, which end the program.
- Spin locks in interrupt context as events of the step system: which interrupts BASEPRI lets through is not modelled.
- The blocking loops of `ReadByte`, `WriteByte` and `WriteBytes` as methods: they spin on an interrupt, so they exist as
  points of the step system only.
- Bulk reads as events of the read protocol: their copy is the one that `SerialRingBuffer.BulkGetDeliversIff` is about.
- A worker thread's own function in the thread model: it is one step that returns.
- Threads created detached beyond the constructor's last read.
- `internal_mutex.cc`: its contended path sets the flag of the releasing owner and leaves its wait loop on that flag
  without testing the owner again, so mutual exclusion is not an invariant of the code as written.
- 32-bit wrap-around of payload addresses.
- The width of the `bits` parameter of `bitcopy`; any bit count within both arrays is covered.
- Sleep and yield, counting semaphores, network, TLS, NTP, logging and retargeting code.
