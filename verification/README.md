# Verified models of the gateway's kernel, driver, translation and checksums

The repository is a small network gateway: uC/OS-II on AArch64, a virtio-net driver, network address
translation between a LAN and a WAN interface, and the checksum code around it. This project models
its four stateful parts and proves what they promise over every run.

- **Kernel** (`PriorityBitmap`, `Kernel*`). `KernelSpec` gives each critical section as a function on
  an abstract state. Class `Kernel` runs the same critical sections on the source's own bitmaps,
  tables and linked lists, and every method is proved to compute that function. `KernelMachine` makes
  a state machine of them: any task or interrupt handler may run between two critical sections of one
  call. The other `Kernel*` modules prove what holds in every run of that machine after start-up.
- **Driver** (`Rings`, `RxSpec`, `RxDevice`, `TxSpec`, `TxDevice`, `RxWakeup`, `RxDrain`, `RxShortFrame`). The rings are arrays in
  shared memory with 16-bit indices that wrap; ghost counters are the same indices without wrapping.
  The device is an environment that keeps to section 2.7 of VIRTIO 1.2. `RxWakeup` puts the receive
  task's loop, the interrupt handler, the device and the whole kernel machine together.
- **Translation** (`NatSpec`, `NatTable`, `NatRuns`, `NatSessions`, `NatHazard`, `ArpSpec`, `ArpCache`). Tables with
  hash indices against plain scans.
- **Checksums and packets** (`Checksum`, `PacketSpec`, `Packet`, `Gateway`, `GatewayDriver`). Sums in
  both byte orders, in-place rewriting, and forwarding as a whole.

`ValidRun` is any interleaving of enabled kernel steps in which no link meets a pending, suspended or delayed
task; `Careful` is the condition on the calls that makes every run valid: no `OSTaskSuspend` names a task whose
`OSTaskCreate` has installed it but not yet linked it (`KernelWindow.CarefulRunIsValid`). The run theorems are
stated for valid runs where they hold for all of them, and `KernelTheorems.CarefulRunPromises` gives them for
careful runs together.

The constants are symbolic where the source fixes them at compile time: the lowest priority is any value
up to 63, queue sizes are any power of two up to 32768, the session table has any size up to 127 and the
ARP cache any size above 0.

## Assumptions

The kernel is running; the idle task neither blocks nor suspends itself; `OSSemPend` is not called with
the scheduler locked (it checks interrupt nesting only). The device uses only published buffers, each
once; for transmission it completes in order, since the driver never reads those used ids. Calls into the
translation table, and into one transmit ring, are sequential. Each interrupt handler is atomic among tasks and
handlers: exception entry masks interrupts, and leaving a critical section restores the mask that was saved, so
it stays masked there (`port/os_cpu_c.c:18-41`, `port/os_cpu_a.S:189-241`). The device is not stopped by that, and
goes on using buffers while the receive handler's loop runs.

## Where the code does not do what one would expect

- Between installing a new control block in the priority table and linking it, `OSTaskCreate` can be interrupted,
  and every service already finds the half-made task. `OSTaskSuspend` of such a task is the one harmful call
  (`KernelWindow.StepKeepsWindowIff`, `KernelWindow.WindowThroughoutIff`). Left suspended, the task is linked
  and made ready all the same (`KernelHazard.SuspendedTaskBecomesReady`). Suspended and resumed, it can run
  before it is on the task list; the tick then does not find it, and a delay it starts does not end
  (`KernelHazard.TaskRunsBeforeItIsLinked`, `KernelHazard.UnlinkedDelayDoesNotEnd`,
  `KernelTimers.TickCountsDownIff`). Both happen from concrete start-ups.
- The drain loop breaks on a frame no longer than the 12-byte header and leaves it at the head of the queue.
  The task then waits with work pending, and no frame of that device is ever delivered again
  (`RxWakeup.ShortHeadBlocks`, `RxWakeup.ShortHeadStopsDelivery`, `RxShortFrame.LostWakeUpIsReachable`). In
  every other case no wake-up is lost.
- `nat_hash_remove` empties the bucket whatever it holds, although its comment says it checks first. A live
  session that shares a bucket with an expired one loses its replies
  (`NatRuns.SharedBucketLosesReplies`), and a run that gets there exists for every table of two or
  more entries (`NatHazard.LostReplyIsReachable`). `NatSpec.RemoveKeepsCoveredIff` gives the exact condition
  for one removal, `NatRuns.CleanKeepsCoveredIff` for a clean-up call and `NatRuns.CoveredThroughoutIff` for a run.
- Ports repeat after 10001 allocations even if an old session still lives. Two live sessions with the same
  protocol, WAN port and destination cannot be told apart by a reply, which may reach the wrong LAN host
  (`NatRuns.ReplyReturnsOwnSideIff`, `NatHazard.MisdeliveryIsReachable`).
- The tick counter has 32 bits and ages are differences of seconds, so in the first clean-up after the counter has
  wrapped every session and every ARP entry used before looks older than any limit and is dropped
  (`NatSessions.CleanUpEndsIdleSessions`, `ArpSpec.CleanForgetsAfter300`).
- The outbound hash mixes in the protocol above the bits it keeps, so it ignores it
  (`NatSpec.OutBucketIgnoresProtocol`).
- A full ARP cache replaces the entry of greatest age while the clock has not wrapped since any of its updates;
  after a wrap it usually does not (`ArpSpec.EvictsEldestIff`, `ArpSpec.WrappedClockEvictsOther`).
- A computed UDP checksum of zero is stored as zero, which RFC 768 reserves for "no checksum"
  (`PacketSpec.StoredZeroIff`, `PacketSpec.ZeroChecksumDatagram`).

## Model

| member | source | states |
|---|---|---|
| PriorityBitmap.UnMapIsLowestBit | ucosii/source/os_core.c:47-64 | the 256-entry table gives the lowest set bit of every non-zero byte |
| PriorityBitmap.HighestIsLeast | ucosii/source/os_core.c:1757-1758 | two table look-ups on a consistent non-empty bitmap give the least priority in it |
| PriorityBitmap.GroupZeroIffEmpty | ucosii/source/os_sem.c:132-132 | the group byte is zero exactly when no priority is in the bitmap |
| PriorityBitmap.InsertMembers | ucosii/source/os_core.c:1163-1164 | setting the two bits adds exactly one priority and keeps group and table consistent |
| PriorityBitmap.RemoveMembers | ucosii/source/os_core.c:1243-1247 | clearing the table bit, and the group bit if the byte is now zero, removes exactly one priority and keeps the bitmap consistent |
| KernelImpl.Kernel.constructor | ucosii/source/os_core.c:582-598 | OSInit leaves empty lists and the idle task, one control block used |
| KernelImpl.Kernel.SchedNew | ucosii/source/os_core.c:1751-1758 | finds the least ready priority |
| KernelImpl.Kernel.Sched | ucosii/source/os_core.c:1702-1732 | the most urgent ready task becomes current, unless a handler runs or the scheduler is locked |
| KernelImpl.Kernel.SwitchToHighest | port/os_cpu_a.S:137-145 | the effect of a switch on the current priority and control block |
| KernelImpl.Kernel.IntEnter | ucosii/source/os_core.c:663-671 | nesting counts up to 255 |
| KernelImpl.Kernel.IntExit | ucosii/source/os_core.c:693-736 | the last handler to return dispatches the most urgent ready task |
| KernelImpl.Kernel.SchedLock | ucosii/source/os_core.c:782-799 | locks nest up to 255, at task level only |
| KernelImpl.Kernel.SchedUnlock | ucosii/source/os_core.c:819-845 | takes back one lock; the scheduler follows exactly when it was the last |
| KernelImpl.Kernel.Start | ucosii/source/os_core.c:869-878 | the most urgent ready task becomes current, once |
| KernelImpl.Kernel.TimeDly | ucosii/source/os_time.c:53-81 | the current task leaves the ready list with the delay set, or nothing happens in a handler, under lock or for 0 |
| KernelImpl.Kernel.TimeDlyHmsm | ucosii/source/os_time.c:111-151 | every argument check in order, then a delay of the computed ticks |
| KernelImpl.Kernel.TimeTick | ucosii/source/os_core.c:937-1008 | the walk along the linked list treats every listed task but the idle one exactly once |
| KernelImpl.Kernel.SemCreate | ucosii/source/os_sem.c:5-34 | the first free event block becomes a semaphore with an empty wait list, or NULL |
| KernelImpl.Kernel.SemAccept | ucosii/source/os_sem.c:36-57 | takes a token if there is one and returns the count before |
| KernelImpl.Kernel.SemPend | ucosii/source/os_sem.c:59-93 | nothing without a place for the error code; else the errors in order, a token at once, or blocked on wait list with the ready bit cleared |
| KernelImpl.Kernel.SemPendResume | ucosii/source/os_sem.c:96-115 | what a blocked pend does and returns once it runs again |
| KernelImpl.Kernel.SemPost | ucosii/source/os_sem.c:118-147 | the errors in order; the most urgent waiter gets the token, else the count rises to 0xFFFF |
| KernelImpl.Kernel.EventTaskWait | ucosii/source/os_core.c:1156-1172 | the current task moves from ready list to wait list |
| KernelImpl.Kernel.EventTaskRemove | ucosii/source/os_core.c:1237-1249 | a task leaves a wait list and its event pointer is cleared |
| KernelImpl.Kernel.EventTaskRdy | ucosii/source/os_core.c:1092-1127 | the most urgent waiter is woken and is ready unless suspended |
| KernelImpl.Kernel.TaskSuspend | ucosii/source/os_task.c:1002-1054 | the errors in order; the task loses its ready bit and gets the suspend bit |
| KernelImpl.Kernel.TaskResume | ucosii/source/os_task.c:846-892 | the errors in order; the suspend bit goes whatever the task waits for, and the task is ready exactly if it neither pends nor delays (KernelSuspend.ResumeEffect) |
| KernelImpl.Kernel.CreateReserve | ucosii/source/os_task.c:239-252 | claims a free priority, or says why not |
| KernelImpl.Kernel.TcbAlloc | ucosii/source/os_core.c:2044-2048 | takes the head of the free list, or nothing changes |
| KernelImpl.Kernel.TcbInstall | ucosii/source/os_core.c:2050-2122 | the control block is filled in, with its masks, and the priority table points to it |
| KernelImpl.Kernel.TcbLink | ucosii/source/os_core.c:2135-2146 | the control block heads the doubly linked list and the task is ready |
| KernelImpl.Kernel.CreateRollback | ucosii/source/os_task.c:262-264 | the claimed priority is free again |
| KernelImpl.Kernel.TaskInit | ucosii/source/os_task.c:239-266 | from claim to link or rollback, every error as in the source |
| KernelImpl.Kernel.TaskCreate | ucosii/source/os_task.c:219-270 | the whole uninterrupted call: on success the task is ready and, once the kernel runs, the most urgent task is current; on failure nothing has changed |
| KernelSpec.FailedCreateChangesNothing | ucosii/source/os_task.c:249-266 | an uninterrupted create that fails for any reason leaves the whole state as it was |
| KernelTheorems.FailedCreateGivesPriorityBack | ucosii/source/os_task.c:260-265 | whatever ran meanwhile, a create without a control block still owns its priority, and giving it back changes nothing else |
| KernelLists.ReachesNodes | ucosii/source/os_core.c:1601-1616 | following a list's pointers comes to exactly its nodes |
| KernelLists.TcbsPartitioned | ucosii/source/os_core.c:2045-2150 | every control block is reached from the task list's head, or from the free list's head, or is held by a creation, and only one of these; the counts add up to the table, OSTaskCtr being the first |
| KernelLists.TaskListWalk | ucosii/source/os_core.c:983-1006 | following the next pointers visits each listed block once and ends, the previous pointers mirror them, and only the last block is the idle task's |
| KernelInvariant.StepKeepsInv | ucosii/source/os_core.c:984-1005 | every critical section, in any interleaving, keeps the kernel invariant; a link needs the task to be neither pending, suspended nor delayed |
| KernelTokens.StepKeepsWins | ucosii/source/os_sem.c:81-147 | every step keeps the tokens granted and those collected or about to be in balance |
| KernelRuns.RunKeepsGood | ucosii/source/os_task.c:249-266 | every valid run keeps the invariants |
| KernelRuns.BootedGood | ucosii/source/os_core.c:869-878 | they hold after OSInit, any sequence of task and semaphore creations, and OSStart |
| KernelTheorems.ReadyExactlyWhenEligible | ucosii/source/os_core.c:984-1005 | in every valid run a listed task is ready exactly when it has no pend bit, no suspend bit and no delay, and no other task is ready with one of them |
| KernelWindow.StepKeepsWindowIff | ucosii/source/os_task.c:1032-1046 | a step leaves every half-made task as its creation left it exactly when it is not an OSTaskSuspend naming one, and then every link is safe |
| KernelWindow.WindowThroughoutIff | ucosii/source/os_core.c:2120-2146 | of all interleavings, exactly those without such a call keep the invariant with untouched half-made tasks in every state |
| KernelWindow.CarefulRunIsValid | ucosii/source/os_core.c:2120-2146 | a run without such a call is valid, so every run theorem holds in it |
| KernelWindow.CurrentIsLinked | ucosii/source/os_core.c:2136-2143 | in such runs nobody runs before it is on the task list |
| KernelWindow.ReadyExactlyWhenLinkedAndEligible | ucosii/source/os_core.c:984-1005 | in such runs every created task is ready exactly when it is on the list with no pend bit, no suspend bit and no delay |
| KernelTheorems.CarefulRunPromises | ucosii/source/os_core.c:2120-2146 | in such runs from start-up: ready list, wait lists, tokens and dispatch as in the theorems below, together |
| KernelTheorems.LinkKeepsInvIff | ucosii/source/os_core.c:2135-2146 | linking keeps the invariant exactly when the task is then neither pending, suspended nor delayed |
| KernelTheorems.InvThroughoutIff | ucosii/source/os_core.c:2135-2146 | of all interleavings, exactly those that never link a pending, suspended or delayed task keep the invariant in every state |
| KernelHazard.SuspendedTaskBecomesReady | ucosii/source/os_core.c:2120-2146 | from every good state with room there is a run that ends with a suspended ready task |
| KernelHazard.HazardIsReachable | ucosii/source/os_core.c:2120-2146 | such a run exists from a concrete start-up |
| KernelHazard.TaskRunsBeforeItIsLinked | ucosii/source/os_core.c:2120-2136 | from every good state with a free, more urgent priority a run of safe steps ends with a current task that is not on the task list |
| KernelHazard.UnlinkedDelayDoesNotEnd | ucosii/source/os_core.c:983-1006 | such a task's delay of one tick is not over, and the task not ready, after the next tick |
| KernelHazard.LateWakeUpIsReachable | ucosii/source/os_core.c:983-1006 | this happens from a concrete start-up |
| KernelTheorems.WaitListMatchesEventPointer | ucosii/source/os_core.c:1243-1248 | in every run a task is on a wait list exactly when its event pointer says so, and is then pending, or timed out and not yet resumed |
| KernelTheorems.TokensConserved | ucosii/source/os_sem.c:50-56 | in every run initial count and posts equal count, accepts and grants; grants equal pends that returned and picked waiters; a positive count means no waiter; the count stays within 0xFFFF |
| KernelTheorems.PendReturnsNoneIffWon | ucosii/source/os_sem.c:96-115 | a blocked pend returns OS_ERR_NONE if a post picked the task and OS_ERR_TIMEOUT otherwise, and the task is then on no wait list |
| KernelTheorems.PendReturnsNoneIffPosted | ucosii/source/os_sem.c:81-115 | over a whole pend that blocks, through any run up to its return, it returns OS_ERR_NONE if some post picked the task on the way, timed out by then or not, and OS_ERR_TIMEOUT otherwise |
| KernelTheorems.MostUrgentReadyTaskRuns | ucosii/source/os_core.c:701-735 | in every run, outside handlers, locks and kernel calls the current task is the least ready priority |
| KernelTheorems.SwitchesOnlyToMostUrgent | ucosii/source/os_core.c:1710-1731 | the current task changes only in OS_Sched or the last interrupt exit, unlocked, and to the most urgent ready task |
| KernelTheorems.LockedTaskStaysCurrent | ucosii/source/os_core.c:790-798 | while the scheduler stays locked the same task stays current through every run |
| KernelTheorems.UnlockUndoesLock | ucosii/source/os_core.c:827-844 | an unlock takes back one lock |
| KernelCalls.RunCounts | ucosii/source/os_core.c:663-736 | in every run the nesting level is that of handlers entered and not left, the lock depth is what the lock and unlock calls say, between 0 and 255, and the system time is the number of ticks modulo 2^32 |
| KernelCalls.HandlersChangeNothing | ucosii/source/os_sem.c:74-77 | lock, unlock, delay, pend and both creations, called from a handler, return their error and change nothing; nor is there a switch |
| KernelCalls.LockHoldersKeepRunning | ucosii/source/os_time.c:61-66 | under the scheduler lock a task neither switches nor delays |
| KernelCalls.BeforeAndAfterStart | ucosii/source/os_core.c:869-878 | before OSStart handlers, locks and ticks leave the tasks alone; a second OSStart does nothing |
| KernelCalls.SemaphoresShowTokens | ucosii/source/os_sem.c:36-147 | at any point of any run an accept returns the tokens left, a pend takes one at once exactly when there is one and else blocks, and a post fails, changing nothing, exactly at 65535 |
| KernelCalls.EventBlocksConserved | ucosii/source/os_sem.c:14-33 | in every run semaphores and free event blocks add up to the table; a creation at task level succeeds exactly while a block is free |
| KernelCalls.CreateEffect | ucosii/source/os_task.c:239-266 | exactly when each error is returned; else a fresh, ready task heads the list, one block is used, and nothing else has changed |
| KernelCalls.HmsmErrors | ucosii/source/os_time.c:111-146 | exactly when each error is returned, for all arguments |
| KernelSuspend.SuspendEffect | ucosii/source/os_task.c:1018-1053 | exactly when OSTaskSuspend succeeds or returns which error; an error changes nothing, success only that task's suspend bit and ready bit |
| KernelSuspend.ResumeEffect | ucosii/source/os_task.c:856-892 | the same for OSTaskResume: success clears the suspend bit even of a delayed or pending task |
| KernelSuspend.ResumeUndoesSuspend | ucosii/source/os_task.c:871-889 | a suspend and a resume of the same task leave the whole kernel as it was |
| KernelSuspend.StepSuspends | ucosii/source/os_task.c:1042-1046 | no other step - tick, post, timeout, creation - suspends a task or ends a suspension |
| KernelSuspend.SuspendedIffLastCall | ucosii/source/os_task.c:871-872 | in every run a task is suspended exactly when the last successful suspend or resume that named it was a suspend, OS_PRIO_SELF naming the current task |
| KernelSuspend.ReadyInTermsOfCalls | ucosii/source/os_task.c:871-889 | in careful runs a listed task is ready exactly when it is in no pend, has no delay left and was not suspended by the last call to say so |
| KernelTimers.TickCountsDownIff | ucosii/source/os_core.c:983-1006 | a tick takes one off a running delay exactly when the task is on the task list |
| KernelTimers.TimerCountsDown | ucosii/source/os_core.c:986-1003 | through any valid run a listed task that no post picks counts its delay down by the ticks in the run |
| KernelTimers.DelayEndsAtNthTick | ucosii/source/os_time.c:68-79 | where no OSTaskSuspend has named a half-made task: a task delayed n ticks is not ready before the n-th tick, and is at it unless suspended, through any valid run |
| KernelTimers.PendTimesOutAtNthTick | ucosii/source/os_core.c:986-1002 | under the same condition a pend with timeout n and no post is readied as timed out at exactly the n-th tick |
| KernelSuspend.DelayEndsUnlessSuspended | ucosii/source/os_core.c:986-1003 | whoever suspends and resumes it on the way, a task delayed n ticks is not ready before the n-th tick, which readies it exactly unless the last call to say so suspended it |
| KernelSuspend.TimeoutReadiesUnlessSuspended | ucosii/source/os_core.c:986-1002 | the same for a pend that times out |
| KernelTimers.PendWithoutTimeoutWaits | ucosii/source/os_sem.c:90-93 | a blocked pend with timeout 0 that no post ends stays on the wait list through every run, however many ticks it has |
| KernelTimers.HmsmTicksExact | ucosii/source/os_time.c:147-148 | the 32-bit tick count is exactly the requested milliseconds for all valid arguments |
| KernelTimers.HmsmIsDelay | ucosii/source/os_time.c:147-150 | an accepted call delays by that count, and does delay |
| KernelBlocks.BlocksConserved | ucosii/source/os_core.c:2045-2150 | in every run linked, free and half-created control blocks add up to the table; the task list has no repetition and ends with the idle task |
| Rings.WrappedSlot | bsp/virtio_net.c:724-724 | a wrapped 16-bit index finds the slot of its free-running position, for every power of two |
| Rings.WrappedDifference | bsp/virtio_net.c:690-690 | the masked 16-bit difference is the true distance |
| RxDriver.RxDevice.constructor | bsp/virtio_net.c:252-276 | every descriptor is published once, all queues empty |
| RxDriver.RxDevice.HandleRxUsed | bsp/virtio_net.c:299-357 | the loop moves the whole used ring to the completion queue, with what the device adds while it runs, and ends; its two error branches cannot be entered, so it never writes the available ring; it reports whether to post |
| RxDriver.RxDevice.PollFrame | bsp/virtio_net.c:776-843 | the head of the queue is delivered and its buffer republished, or nothing is pending; a used length up to 12 gives length 0, 13 to 1530 gives 12 less, more gives 1518 |
| RxDriver.RxDevice.PeekRxBuffer | bsp/virtio_net.c:845-892 | reports the head's descriptor, and the length by the same numbers, and changes nothing |
| RxDriver.RxDevice.ReleaseTake | bsp/virtio_net.c:913-927 | drops the head exactly if it is the given descriptor |
| RxDriver.RxDevice.GiveBack | bsp/virtio_net.c:929-934 | the buffer is published in a slot the device has already consumed |
| RxSpec.RxSafety | bsp/virtio_net.c:311-344 | in every run each descriptor is in exactly one place; frames pop in used-ring order, each once; the completion queue has room for all unread entries and the available ring for the returned buffer |
| RxSpec.OwnedOnce | bsp/virtio_net.c:257-271 | a partition puts each descriptor in one place, once |
| RxSpec.PayloadInNumbers | bsp/virtio_net.c:814-818 | a used length up to 12 is no frame, 13 to 1530 is a frame 12 bytes shorter, more is cut to 1518 |
| RxWakeup.SysStepKeeps | src/net_demo.c:882-904 | every step of kernel, handler, device and task loop keeps the wake-up invariant |
| RxWakeup.NoLostWakeup | src/net_demo.c:882-900 | in every run the waiting task's queue is empty exactly when its head is not a short frame; past the drain loop pending work means a token; the pend never fails |
| RxWakeup.NoLostWakeupLongFrames | bsp/virtio_net.c:1003-1006 | if every used length exceeds the header, a waiting task's queue is empty in every run |
| RxWakeup.IsrWakes | bsp/virtio_net.c:350-357 | a handler that finds a used buffer makes the waiting task ready, unless it is suspended |
| RxWakeup.BootedInitial | bsp/virtio_net.c:428-431 | the starting point of those runs is reached after start-up |
| RxDrain.LoopDelivers | src/net_demo.c:882-892 | the loop left alone delivers exactly the frames of more than 12 bytes before the first shorter one or the end of the queue, in order, gives back exactly their buffers, and comes to its wait |
| RxWakeup.ShortHeadBlocks | src/net_demo.c:886-892 | with a short frame at the head one pass of the loop leads into the wait with the queue not empty |
| RxShortFrame.ShortFrameLeavesWork | src/net_demo.c:882-900 | from every starting point with the task at its loop, a run in which the device uses one buffer for 12 bytes ends with the task waiting and work in its queue |
| RxShortFrame.LostWakeUpIsReachable | src/net_demo.c:882-900 | and from a concrete start-up, for every queue size |
| RxWakeup.ShortHeadStopsDelivery | src/net_demo.c:886-892 | a short frame at the head stays there and no frame is taken off the queue in any later run |
| TxDriver.TxDevice.constructor | bsp/virtio_net.c:278-297 | nothing pending, nothing sent |
| TxDriver.TxDevice.FreeSlots | bsp/virtio_net.c:686-691 | the 16-bit arithmetic gives the number of slots the device does not own |
| TxDriver.TxDevice.SendFrame | bsp/virtio_net.c:667-750 | a frame is queued exactly when it has 1 to 1518 bytes and two slots were free at the last look, in a slot the device does not own; a refused one changes no memory |
| TxDriver.TxDevice.TxFlush | bsp/virtio_net.c:752-762 | no frame is left unannounced |
| TxDriver.TxDevice.DeviceCompletes | bsp/virtio_net.c:679-682 | the device reads the oldest pending frame, unchanged, through ring, descriptor and buffer |
| TxDriver.FramesPush | bsp/virtio_net.c:724-739 | filling the next slot changes nothing the device owns and appends exactly the frame |
| TxDriver.SlotBytes | bsp/virtio_net.c:724-736 | in the filled slot the device finds twelve zero bytes, then the frame, and the length of both |
| TxSpec.TxSafety | bsp/virtio_net.c:743-747 | in every run the device sends exactly the accepted frames, in order; the ring keeps a free slot; the device is notified at every flush and every sixteenth frame after one |
| NatSpec.FindEntryIsScan | bsp/nat.c:341-377 | with at most one entry per session the hashed look-up is the linear scan, whatever the buckets hold |
| NatSpec.ReverseFindsIff | bsp/nat.c:383-421 | the reverse look-up finds something exactly when the scan does and the bucket is not empty |
| NatSpec.ReverseIsScanIffCovered | bsp/nat.c:391-393 | it agrees with the scan on all queries exactly when every live entry's bucket is in use |
| NatSpec.RemoveKeepsCoveredIff | bsp/nat.c:643-647 | a removal keeps that exactly when no other live entry shares the bucket |
| NatSpec.OutBucketIgnoresProtocol | bsp/nat.c:659-663 | sessions share an outbound bucket exactly when their LAN ports agree in the low seven bits, whatever their protocols |
| NatSpec.SharedBucketIff | bsp/nat.c:615-618 | sessions share a reverse bucket exactly when their WAN ports agree modulo 128 |
| NatRuns.OneEntryPerSession | bsp/nat.c:117-170 | in every run there is at most one live entry per session and the outbound look-up is the scan |
| NatSessions.LiveSessionKeepsPort | bsp/nat.c:119-126 | a packet of a live session gets that session's port and only refreshes its time stamp |
| NatSessions.OpeningSetsBuckets | bsp/nat.c:166-169 | opening a session points exactly its two buckets at it; the next packet and reply find it there |
| NatSessions.RefusedIffFull | bsp/nat.c:128-133 | a packet is refused exactly when its session is not live and every entry is; the table then stays as it is |
| NatSessions.InboundEffect | bsp/nat.c:188-204 | a reply refreshes the session found and changes nothing else; a reply that finds none changes nothing |
| NatSessions.SessionKeepsPort | bsp/nat.c:117-126 | as long as a session lives, all its packets leave with its one port, through any run |
| NatSessions.OnePortPerSession | bsp/nat.c:109-174 | from start-up, the packet that opens a session and all later ones leave with one port, and a reply to it returns the LAN side exactly when the bucket is in use and no other live entry with the same reply key comes first |
| NatRuns.ConsecutivePortsDiffer | bsp/nat.c:442-452 | any 10001 consecutive allocations are pairwise distinct |
| NatRuns.KthPortOfRun | bsp/nat.c:442-452 | in every run the k-th allocation is port 20000 + k mod 10001, counting from 0 |
| NatRuns.RecentPortsDistinct | bsp/nat.c:152-170 | in every run ports are within 20000 to 30000, and live entries of the last 10001 allocations have distinct ones |
| NatRuns.CleanKeepsCoveredIff | bsp/nat.c:215-232 | a clean-up call keeps every live entry's bucket in use exactly when no entry it removes shares a bucket with a live one it leaves |
| NatRuns.CoveredThroughoutIff | bsp/nat.c:215-232 | of all runs, exactly those whose clean-ups are of that kind keep it in every state |
| NatRuns.RepliesReachTheirSession | bsp/nat.c:188-204 | in every such run the reverse look-up finds something exactly when the scan does; while live ports are distinct it finds the same, and a reply returns the LAN address and port that opened the session |
| NatRuns.ReplyReturnsOwnSideIff | bsp/nat.c:383-421 | with no condition on ports, a reply returns its session's LAN side exactly when the bucket is in use and no other live entry with the same reply key comes first |
| NatHazard.MisdeliveryIsReachable | bsp/nat.c:442-452 | a run in which a reply is handed to another LAN host exists for every table size from 2 |
| NatRuns.ReplyArrivesIff | bsp/nat.c:188-204 | a live session with its own port gets its reply exactly when its bucket is in use |
| NatRuns.FreshSessionRoundTrip | bsp/nat.c:116-174 | a session just opened gets its reply, with no condition on table or buckets |
| NatRuns.CleanUpFrees | bsp/nat.c:208-232 | a clean-up frees exactly the expired entries; NatSessions.CleanUpEndsIdleSessions says in seconds which those are |
| NatRuns.CleanUpBuckets | bsp/nat.c:224-226 | it empties exactly the buckets of the expired entries, in both indices |
| NatRuns.CleanUpCounts | bsp/nat.c:229-240 | it returns their number |
| NatSessions.CleanUpEndsIdleSessions | bsp/nat.c:208-232 | in every run a clean-up ends a live session exactly when 60 seconds for ICMP or TCP, 120 for UDP or anything else, have passed since the last packet or reply that used it, or the clock has wrapped to an earlier second; its entry else stays as it is |
| NatSessions.CleanUpReturnsEnded | bsp/nat.c:229-240 | a clean-up returns by how many the live sessions have become fewer |
| NatSessions.FreedInNumbers | bsp/nat.c:213-231 | the same for one clean-up and one entry |
| NatRuns.SharedBucketLosesReplies | bsp/nat.c:636-647 | a live session sharing a bucket with an expired one loses its replies |
| NatHazard.LostReplyIsReachable | bsp/nat.c:643-647 | a run that loses a live session's reply exists for every table size from 2 |
| NatDriver.NatTable.constructor | bsp/nat.c:59-66 | an empty table |
| NatDriver.NatTable.ScanTable | bsp/nat.c:361-376 | the loop returns the first entry that fits, or -1 |
| NatDriver.NatTable.FindEntry | bsp/nat.c:341-377 | the hinted entry if it fits, else the scan's; with one entry per session that is the scan (NatSpec.FindEntryIsScan) |
| NatDriver.NatTable.FindReverse | bsp/nat.c:383-421 | nothing if the bucket is empty, else the hinted entry if it fits, else the scan's |
| NatDriver.NatTable.AllocPort | bsp/nat.c:442-452 | the next port, wrapping at 30000 |
| NatDriver.NatTable.TranslateOutbound | bsp/nat.c:109-175 | refreshes the session and returns its port, opens one in the first free entry, or reports a full table and changes nothing |
| NatDriver.NatTable.TranslateInbound | bsp/nat.c:180-205 | refreshes the session found and returns its LAN side, or changes nothing |
| NatDriver.NatTable.CleanupExpired | bsp/nat.c:210-241 | the loop removes every expired entry with its buckets and counts them |
| ArpSpec.AddBinds | bsp/nat.c:478-522 | an addition binds its address; every other binding stays but the one replaced when the cache is full |
| ArpSpec.LostWasBound | bsp/nat.c:503-515 | at most one binding is lost, never the added one |
| ArpSpec.AddThenLookup | bsp/nat.c:527-536 | a look-up after an addition returns the added address |
| ArpSpec.LookupIsBinding | bsp/nat.c:527-536 | a look-up is the cache read as a map |
| ArpSpec.EvictsEldestIff | bsp/nat.c:503-513 | the entry replaced has the greatest age on the 32-bit clock exactly when no update is stamped later than now, or none earlier and entry 0 has the greatest age |
| ArpSpec.EvictsOldest | bsp/nat.c:503-513 | on a clock that has not wrapped it has the least stamp and the greatest age |
| ArpSpec.WrappedClockEvictsOther | bsp/nat.c:503-513 | after a wrap an entry two ticks old may be replaced while one of 65541 ticks stays |
| ArpSpec.CleanForgets | bsp/nat.c:541-558 | a clean-up forgets exactly the addresses whose entry is stale and changes no other answer |
| ArpSpec.CleanForgetsAfter300 | bsp/nat.c:541-558 | in every run a clean-up forgets an address exactly when 300 seconds have passed since its last addition, or the clock has wrapped to an earlier second |
| ArpSpec.RunKeepsUnique | bsp/nat.c:484-500 | every run keeps at most one live entry per address |
| ArpSpec.AnswersAreCurrent | bsp/nat.c:478-536 | in every run a look-up's answer is the last address added for it |
| ArpDriver.ArpCache.Add | bsp/nat.c:478-522 | the address's own entry, else the first free, else the one to replace is overwritten; at most one entry per address is kept |
| ArpDriver.ArpCache.Lookup | bsp/nat.c:527-536 | the loop finds the address's live entry, or there is none |
| ArpDriver.ArpCache.Oldest | bsp/nat.c:504-512 | the loop's choice of the entry to replace |
| ArpDriver.ArpCache.Cleanup | bsp/nat.c:541-567 | frees the stale entries and counts them |
| Checksum.FoldIsOnesSum | src/net_demo.c:141-143 | adding in 32 bits and folding at the end is the ones'-complement sum of RFC 1071 |
| Checksum.SumBound | src/net_demo.c:131-139 | the 32-bit accumulator cannot overflow up to 131074 bytes |
| Checksum.FoldSwapped | src/net_demo.c:184-187 | summing in the other byte order swaps the bytes of the folded sum |
| Checksum.TransportChecksumIsSwapped | src/net_demo.c:149-190 | the little-endian checksum stored directly is the big-endian checksum of pseudo-header and segment, for every packet and both parities |
| Checksum.StoredChecksumVerifies | src/net_demo.c:607-608 | zero, compute, store, sum again: 0, for every content and even field offset |
| Checksum.StoredTransportVerifies | src/net_demo.c:672-674 | the same for TCP and UDP under the pseudo-header: the sum is 0xFFFF |
| Checksum.ZeroChecksumIff | src/net_demo.c:149-190 | the computed checksum is zero exactly when pseudo-header and segment sum to a multiple of 65535 |
| PacketSpec.StoredZeroIff | src/net_demo.c:675-681 | the checksum field of the forwarded segment is zero exactly when the words it covers do |
| PacketSpec.ZeroChecksumDatagram | src/net_demo.c:675-681 | a concrete UDP datagram leaves with a checksum of zero |
| PacketDriver.FoldLoop | src/net_demo.c:141-143 | the loop terminates with the folded sum |
| PacketDriver.Checksum16 | src/net_demo.c:126-146 | the loops compute the complement of the folded big-endian sum |
| PacketDriver.TransportChecksum | src/net_demo.c:149-190 | the loops compute the little-endian checksum with its pseudo-header |
| PacketDriver.SegmentSum | src/net_demo.c:174-182 | the loop adds the little-endian words and the odd last byte, without overflow |
| PacketSpec.NewHeaderVerifies | src/net_demo.c:605-608 | the forwarded IP header verifies and differs in address, TTL at byte 8 and checksum at bytes 10 and 11 only; the checksum is that of the header with the field zeroed |
| PacketSpec.NewIcmpVerifies | src/net_demo.c:611-614 | the forwarded ICMP message verifies and differs in identifier at bytes 4 and 5 and checksum at bytes 2 and 3 only, which is that of the message with the field zeroed |
| PacketSpec.NewSegmentVerifies | src/net_demo.c:669-681 | the forwarded segment verifies under its header and differs in port and checksum only, at bytes 16 and 17 for TCP, 6 and 7 for UDP; the checksum is that of pseudo-header and segment with the field zeroed |
| PacketSpec.SegmentTranslated | src/net_demo.c:669-674 | a concrete TCP segment of odd length, translated, with every byte of the result |
| PacketSpec.RewriteAgain | src/net_demo.c:521-533 | a second rewriting leaves nothing of the first |
| PacketSpec.TranslatedVerifies | src/net_demo.c:662-681 | header and segment of the translated packet both verify, with the new address and port |
| PacketSpec.TranslatedKeeps | src/net_demo.c:662-681 | every other byte is as it was, with the checksum at 16 and 17 of a TCP and at 6 and 7 of a UDP segment |
| PacketDriver.RewriteHeader | src/net_demo.c:663-666 | the header in the buffer becomes the forwarded one and nothing else changes |
| PacketDriver.RewriteIcmp | src/net_demo.c:611-614 | the message in the buffer becomes the forwarded one and nothing else changes |
| PacketDriver.RewriteSegment | src/net_demo.c:521-533 | the segment in the buffer becomes the forwarded one and nothing else changes |
| PacketDriver.Translate | src/net_demo.c:662-681 | header first, then the segment under the new header |
| GatewayDriver.ForwardOut | src/net_demo.c:624-687 | an outgoing packet leaves translated in place for its neighbour's hardware address; without a session, in an oversized frame or with an unknown neighbour it is dropped and the buffer unchanged |
| GatewayDriver.ForwardIn | src/net_demo.c:473-539 | the same for an incoming packet |
| Gateway.ReaddressSound | src/net_demo.c:662-681 | a rewritten packet verifies and keeps the other address, the other port, protocol and lengths |
| Gateway.FreshFlowLeaves | src/net_demo.c:642-681 | a packet that opens a session is sent exactly when the frame has at most 1518 bytes and its neighbour is known, and then leaves sound from the gateway's address and the port next to be given out |
| Gateway.LiveFlowLeaves | src/net_demo.c:642-681 | a packet of a live session is sent under the same two conditions, sound, with the session's own port; only the session's time stamp changes |
| Gateway.LiveFlowRoundTrip | src/net_demo.c:473-539 | whatever answers it is delivered, sound, to its LAN host exactly when the reply look-up reaches that session and the same two conditions hold |
| Gateway.SentOutIff | src/net_demo.c:624-660 | exactly which packets go out: TCP with 20 or UDP with 8 bytes of transport header, a live session or a free entry, a frame of at most 1518 bytes and a known neighbour; without such a header the table is not touched |
| Gateway.SentInIff | src/net_demo.c:473-515 | exactly which packets addressed to the gateway come in, and when the table is not touched |
| Gateway.SentOutBytes | src/net_demo.c:662-681 | byte for byte: what leaves differs at 8, 10 and 11, 12 to 15, the source port and the checksum only, and carries the gateway's address and the session's port |
| Gateway.SentInBytes | src/net_demo.c:518-533 | the same for a packet coming in, at 16 to 19 and the destination port |
| Gateway.SameSessionIff | src/net_demo.c:626-640 | two packets are of one session exactly when protocol, both addresses and both ports agree byte for byte, behind a header of any length |
| Gateway.FreshFlowRoundTrip | src/net_demo.c:642-681 | whatever answers it is forwarded exactly when its frame is not too long and the LAN host is known, and reaches, sound, the address and port the first packet came from |
| Gateway.ReplyDelivered | src/net_demo.c:497-533 | in every run with safe clean-ups, while live ports are distinct, a packet that answers a live session is forwarded under the same two conditions and reaches its LAN host, sound |

## Left out

- KernelImpl.Kernel.SemCreate: one step of the machine; the source fills the event block in after its critical section, when it is on no list and no task has its address yet.
- RxDriver.RxDevice.PollFrame: the call without interruption; its critical section and the return of the buffer are `PollTake` and `GiveBack`.
- Register saving, stack frames, hooks, tracing and profiling: only the effect of a switch on the current task is modelled.
- Kernel services that the configuration disables: multi-event pend, deletion, priority change, flags, mailboxes, queues, mutexes, more than 64 priorities.
- Contents of received buffers, cache maintenance, barriers, register access, device discovery and null-pointer or not-ready checks of the driver.
- The race between the device and the interrupt acknowledgement: wake-ups are stated over the completion queue, not the used ring.
- The polling fallback of `virtio_net_wait_rx_dev` for a missing semaphore, and waiting on any device.
- `OSTimeSet`, which nothing in the repository calls: the system time is counted from start-up.
- Statistics counters, printing and `nat_configure`; the port range is the configured one.
- Concurrent calls into the translation table or into one transmit ring from several tasks: the source has no locks there.
- Ethernet headers and routing decisions around forwarding, and the ARP request for an unknown neighbour; `Gateway` starts at the IP header and hands on the hardware address.
- ICMP forwarding through the table: the rewriting is modelled, its combination with the table has the same shape as for ports.
- A frame buffer shorter than the packet's own length field, which the source does not check.
