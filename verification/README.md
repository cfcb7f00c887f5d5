# A verified model of the TaijiOS kernel

TaijiOS is a small x86_64 kernel written in Rust. This project models the parts of it
whose correctness is not visible from any single function and proves what they promise,
for every input, every run and every way interrupts can land.

- **Keyboard stream and executor.** `WakeupMachine` is the keyboard interrupt, the
  scancode stream and the waker-based executor as one transition system: one event is one
  atomic operation of the main context, one interrupt handler, or one call from
  `kernel_main`. A list of events is a schedule, and the theorems hold after every list.
  `WakeupSafety` holds the invariant, `WakeupTheorems` the promises, `WakeupDelivery` that
  everything accepted is delivered while interrupts keep coming, `WakeupProgress` that the
  kernel goes to sleep when they pause and the schedules that do fill the queue of woken ids.
  `Kernel` is the same code in its own form, an object whose fields the handler and the
  executor change in place. Its methods are proved to follow the transition system with
  arbitrary interrupts before every operation; `KernelTrace` says what the recorded events
  owe to the hardware (every interrupt that came, in order) and to the futures (every wake
  and every result of a poll).
- **Simple executor.** `SimpleExecutor` is the polling executor; `ExecutorEquivalence` measures
  the waker-based one against it, with interrupts anywhere and the keyboard task beside the
  others.
- **Heaps.** `AllocatorSpec` says what any allocator owes its clients. `Bump`,
  `LinkedList`/`LinkedListTheorems` and `FixedSize`/`FixedSizeTheorems` are the three
  allocators on values, with the proof that each is such an allocator and what is
  particular to it; `LinkedListFragmentation` is what the second one loses over time. `BumpAllocator`, `LinkedListAllocator` and `FixedSizeBlockAllocator` are
  the objects; the last two keep their list nodes inside the free memory itself
  (`WordMemory`: 8-byte words by address), next to the clients' own data; `ClientData` is
  what that means for clients over whole runs. `Alignment`
  is `align_up` on 64-bit integers with its bit operations written out, `Regions` the
  counting of bytes.
- **VGA text buffer.** `Terminal` is an unbounded terminal and, independent of it, the
  layout of a text in rows. `VgaBuffer` is the writer that changes the 25x80 buffer in place.
- **Boot memory.** `Frames` is the allocator of physical frames, `HeapSetup` the page loop of
  `init_heap` with a mapper that draws page-table frames from the same allocator.

Things the proofs found out about the code:

- The `expect("task queue full")` in `wake_task` can fail although every task behaves: each
  time a key press lands between `WAKER.register` and the second `pop`, one stale copy of the
  keyboard id stays queued. With m other tasks that are queued only when spawned it takes at
  least 100 - m such races (`WakeupTheorems.OverflowNeedsRaces`), and for every m that many
  are enough (`WakeupProgress.OverflowHappens`). `WakeupTheorems.OverflowExactly` says in
  terms of the current state when the next event fails it.
- The linked list allocator never reuses the gap that alignment leaves in front of a block:
  `LinkedListFragmentation.GapHappens` loses 48 bytes of the kernel's heap with two calls, and
  those bytes are gone for every further run (`LostForever`). Free regions and live blocks
  tile the heap exactly as long as no call met a region that does not start where its layout
  may start (`TilesExactly`), for example when no layout is aligned to more than 8.
- `size_align` panics on a valid layout exactly when its alignment is below 8 and its size is
  one of the last 7 values of `usize` (`LinkedListTheorems.PanicsExactly`); no other check in
  that file can fail. A layout is valid here when its padded size fits into `usize`, the rule
  of older versions of `core::alloc::Layout`; newer ones limit it by `isize::MAX`.
- With the bump allocator the loop of `many_boxes_long_lived` must run out of memory, as its
  comment says; `Bump.LongLivedBlockStopsReuse` gives the exact number of turns that succeed.
- The code never merges regions. After both halves of the heap were allocated and freed, all
  of it is free and a request for all of it is refused for ever
  (`LinkedListFragmentation.FragmentationHappens`). `ServedExactly` says which requests some
  continuation of a run can still serve.

## Model

| member | source | states |
|---|---|---|
| WakeupTheorems.NoWakeupIsLost | src/task/keyboard.rs:46-146 | After every schedule: while the keyboard task exists and is not being polled, its id is queued, or its waker is stored and there is nothing to read |
| WakeupTheorems.SleepIsSafe | src/task/executor.rs:162-207 | The CPU halts only with an empty queue of woken ids, and then, if the keyboard task was spawned, its waker is stored and everything accepted was delivered |
| WakeupDelivery.AcceptedIsDelivered | src/task/keyboard.rs:46-146 | From any point of any run, under any interrupts and any wakes by other futures: after a computed number of operations everything accepted up to that point was delivered in order, unless a waker found the queue full |
| WakeupDelivery.DeliveredSoon | src/task/executor.rs:80-155 | 505 operations are always enough |
| WakeupDelivery.RunDelivers | src/task/executor.rs:80-155 | The same for any number of accepted scancodes and any state of the invariant |
| WakeupDelivery.StepLowersCost | src/task/executor.rs:99-155 | Every operation brings the delivery nearer; interrupts and wakes do not put it off, as they queue at the back |
| WakeupDelivery.OwedIsOnItsWay | src/task/keyboard.rs:46-146 | A scancode that is not delivered yet is in flight or queued, with its reader being polled or queued |
| WakeupProgress.QuietKernelSleeps | src/task/executor.rs:80-155 | From any point of any run: if no interrupt arrives and no other future wakes anybody, within a computed number of operations everything accepted is delivered and the CPU sleeps |
| WakeupProgress.SilentRunHalts | src/task/executor.rs:80-155 | A run without interrupts and wakes reaches `hlt` within `Work` operations and loses nothing on the way |
| WakeupProgress.SilentStepWorks | src/task/executor.rs:99-155 | Each operation of such a run uses up work |
| WakeupTheorems.StreamIsFaithful | src/task/keyboard.rs:96-146 | Accepted scancodes are the delivered ones, the one in flight and the queued ones, in this order; a Ready poll leaves no waker behind |
| WakeupTheorems.DropsExactlyWhenFull | src/task/keyboard.rs:46-65 | A key press is dropped exactly when the stream does not exist yet or 100 accepted scancodes have not been taken out |
| WakeupTheorems.DuplicatesAreBounded | src/task/keyboard.rs:109-145 | Copies of the keyboard id that are queued, plus one for a stored waker, never exceed 1 + successes of the second pop |
| WakeupTheorems.OverflowExactly | src/task/executor.rs:239-241 | In every reachable state the next event fails the expect exactly when 100 ids are queued and it is an accepted key press with a waker stored, or another future's wake |
| WakeupTheorems.OverflowNeedsRaces | src/task/executor.rs:239-241 | If other tasks are queued only by spawn, and there are m of them, a waker finds the queue full only after at least 100 - m such successes |
| WakeupProgress.OverflowHappens | src/task/executor.rs:239-241 | For every m below 100 there is a schedule on which it does after exactly 100 - m: the bound is tight and the expect can fail |
| WakeupProgress.ManyRaces | src/task/keyboard.rs:109-145 | n key presses between register and second pop are delivered and put n copies of the keyboard id at the back of the queue; no task comes or goes |
| WakeupTheorems.PollsEndAtReady | src/task/executor.rs:99-155 | No future is polled after it returned Ready, however many stale ids are queued; cached wakers belong to existing tasks, and a stored waker is cached too |
| WakeupTheorems.OnlyOnePanicIsLeft | src/task/keyboard.rs:75-102 | "only be called once" and "not initialized" never fail; once run() began, only "task queue full" can |
| WakeupTheorems.PopsFollowTheQueue | src/task/executor.rs:99-155 | Whatever is woken meanwhile, the id at position k is the result of the (k+1)-th pop from now |
| WakeupTheorems.QueueMoves | src/task/executor.rs:63-155 | In every reachable state, for every event: who is queued, always at the back, and what leaves at the front |
| WakeupTheorems.RunNeverReturns | src/task/executor.rs:80-90 | The executor never gets back to `kernel_main`, and a spawned keyboard task is never removed |
| WakeupTheorems.KeyboardStaysSpawned | src/task/keyboard.rs:150-184 | A keyboard future that was started is still known to the executor |
| WakeupTheorems.PollingIsInitialised | src/task/keyboard.rs:96-102 | From its first pop on, `poll_next` finds the queue initialised |
| WakeupTheorems.InterruptsStayEnabled | src/task/executor.rs:186-206 | Between the operations of the model, interrupts are disabled exactly inside the check of `sleep_if_idle` |
| WakeupTheorems.ReachedInv | src/task/executor.rs:80-207 | The invariant holds after every schedule from boot |
| WakeupSafety.StepKeeps | src/task/executor.rs:63-207 | Every event keeps the invariant |
| WakeupSafety.MainKeeps | src/task/executor.rs:99-207 | Every operation of the main context keeps it |
| WakeupSafety.QuietKeypressKeeps | src/task/keyboard.rs:46-65 | So does a key press that wakes nobody: dropped, or no waker stored |
| WakeupSafety.WakingKeypressKeeps | src/task/keyboard.rs:52-59 | So does a key press that takes the stored waker and queues the id |
| WakeupSafety.SpawnKeeps | src/task/executor.rs:63-76 | So does spawn, with both of its panics |
| WakeupSafety.PopTaskKeeps | src/task/executor.rs:115-115 | So does the pop of a woken id |
| WakeupSafety.BeginPollKeeps | src/task/executor.rs:123-142 | So does the look-up of the popped id and the start of its poll |
| WakeupSafety.PollOtherKeeps | src/task/executor.rs:146-153 | So does anything another future does while it is polled, and the removal of a finished one |
| WakeupSafety.FirstPopKeeps | src/task/keyboard.rs:109-111 | So does the first pop |
| WakeupSafety.SecondPopKeeps | src/task/keyboard.rs:134-145 | So does the second pop |
| WakeupSafety.RegisterAndTakeKeep | src/task/keyboard.rs:127-139 | So do storing the waker and taking it out again |
| WakeupSafety.SleepKeeps | src/task/executor.rs:186-206 | So does each step of `sleep_if_idle` |
| Kernel.Kernel.constructor | src/task/executor.rs:47-57 | A new executor is the initial state of the transition system |
| Kernel.Kernel.AddScancode | src/task/keyboard.rs:46-65 | The handler's writes are the transition of a key press |
| Kernel.Kernel.PushTask | src/task/executor.rs:239-241 | The bounded push of an id, with its panic |
| Kernel.Kernel.WakeSlot | src/task/keyboard.rs:58-58 | The stored waker is taken out and called |
| Kernel.Kernel.Interrupt | src/task/keyboard.rs:46-65 | A handler run at this point is one event of the trace; it ends `hlt` and leaves the main context where it was |
| Kernel.Kernel.Tick | src/task/keyboard.rs:112-121 | The handlers of the next batch of interrupts all run, in order, up to one that panics; none runs while interrupts are disabled |
| Kernel.Kernel.Spawn | src/task/executor.rs:63-76 | The task is stored under a new id and queued, or the kernel panics |
| Kernel.Kernel.AddTask | src/task/executor.rs:72-75 | A new id is stored with its script and queued last |
| Kernel.Kernel.PopScancode | src/task/keyboard.rs:109-109 | First in, first out |
| Kernel.Kernel.PollNext | src/task/keyboard.rs:96-146 | Whatever arrives inside: Ready leaves no waker, Pending leaves the id queued or the waker stored over an empty queue |
| Kernel.Kernel.FirstPop | src/task/keyboard.rs:109-111 | Fast path, with interrupts before it |
| Kernel.Kernel.Register | src/task/keyboard.rs:127-127 | The waker is stored |
| Kernel.Kernel.SecondPop | src/task/keyboard.rs:134-145 | The check after storing the waker |
| Kernel.Kernel.PopAgain | src/task/keyboard.rs:134-145 | The second pop itself, which finds the queue initialised |
| Kernel.Kernel.Take | src/task/keyboard.rs:138-139 | The waker that is no longer needed is gone |
| Kernel.Kernel.InitStream | src/task/keyboard.rs:75-82 | The queue is created once, at the first poll |
| Kernel.Kernel.Consume | src/task/keyboard.rs:166-183 | The scancode is delivered and the loop asks for the next one |
| Kernel.Kernel.PollKeyboard | src/task/keyboard.rs:150-184 | A poll of `print_keypresses` reads until Pending and ends with no wakeup lost; it ends, for every finite supply of interrupts |
| Kernel.Kernel.PopTask | src/task/executor.rs:115-115 | Pop from the queue of woken ids |
| Kernel.Kernel.BeginPoll | src/task/executor.rs:123-142 | A stale id is skipped; otherwise the waker is cached and the right future resumes at the right place |
| Kernel.Kernel.EnterPoll | src/task/executor.rs:139-146 | The waker is cached and the next turn of the right script begins |
| Kernel.Kernel.WakeFrom | src/task/executor.rs:239-241 | A future calls its own waker or that of another such future: that id is queued last, as the script says |
| Kernel.Kernel.FinishReady | src/task/executor.rs:146-151 | After more interrupts, a task whose poll is Ready and has made its wakes is removed |
| Kernel.Kernel.Remove | src/task/executor.rs:146-151 | The task and its cached waker are gone, and the log says Ready |
| Kernel.Kernel.FinishPending | src/task/executor.rs:146-153 | A task whose poll is Pending stays, with one poll used up |
| Kernel.Kernel.PollFuture | src/task/executor.rs:146-153 | One poll of a future other than `print_keypresses`: it wakes exactly the ids its script names, and it is removed exactly when the script says Ready or is over |
| Kernel.Kernel.RunReadyTasks | src/task/executor.rs:99-155 | The loop ends, and it ends with an empty queue |
| Kernel.Kernel.Halt | src/task/executor.rs:199-199 | Interrupts are enabled and the CPU halts in one step; it stays halted only if no interrupt is left |
| Kernel.Kernel.CheckIdle | src/task/executor.rs:191-206 | With interrupts disabled the check and the decision see the same queue |
| Kernel.Kernel.SleepIfIdle | src/task/executor.rs:162-207 | Sleeps, or returns because something is queued or an interrupt came |
| Kernel.Kernel.Run | src/task/executor.rs:80-90 | On every finite supply of interrupts: the interrupts handled are all those of the supply, in order; every future was polled, woke and finished as its script says; the kernel ends asleep with everything accepted delivered, unless a waker found the queue full |
| KernelTrace.TookBetween | src/interrupts.rs:144-193 | Between two points of a run, the interrupts among the events are exactly the batches that left the device |
| KernelTrace.ObeysReady | src/task/executor.rs:146-151 | A Ready poll comes exactly when the Pending turns of the script are over |
| KernelTrace.ObeysPending | src/task/executor.rs:146-153 | A Pending poll leaves the rest of the script to be polled |
| KernelTrace.SaidBegin | src/task/executor.rs:139-146 | The wakes of a poll are those of the next turn of its script |
| KernelTrace.Pendings | src/task/mod.rs:45-47 | The number of Pending turns before the first Ready one or the end of a script |
| ExecutorEquivalence.ExecutorsAgree | src/task/executor.rs:80-155 | Any spawns, the keyboard task among them or not, interrupts anywhere, futures that wake themselves once per Pending: the polls of the other tasks are always a beginning of what the simple executor polls; they are all of it after a computed number of operations, with 13 more per key press, unless a waker found the queue full, which cannot happen without the keyboard task |
| ExecutorEquivalence.RunFollows | src/task/executor.rs:99-155 | From every state of such a run, whatever interrupts land, the polls of the other tasks stay a beginning of what the simple executor polls |
| ExecutorEquivalence.RunCompletes | src/task/executor.rs:99-155 | From every state of such a run, enough operations poll all of it, unless a waker found the queue full |
| ExecutorEquivalence.RunAlone | src/task/executor.rs:239-241 | Without the keyboard task, up to 100 tasks never fill the queue, whatever interrupts land |
| ExecutorEquivalence.PerformFollows | src/task/executor.rs:99-155 | Polled so far plus what the simple executor would poll from the current queue is kept by every operation and every interrupt |
| ExecutorEquivalence.PlainStepIsQuiet | src/task/executor.rs:99-207 | Polls of the keyboard task and sleeping do not touch the line of the others |
| SimpleExecutor.AgreeWithoutInterrupts | src/task/executor.rs:99-155 | The exact count when no interrupt lands and the keyboard task is not spawned: up to 100 self-waking tasks are polled as by the simple executor, no queue fills, and the queue is empty after the sum of their polls |
| SimpleExecutor.SimpleIsRoundRobin | src/task/simple_executor.rs:33-56 | The simple executor polls everybody once, then everybody not done, and so on |
| SimpleExecutor.OneRound | src/task/simple_executor.rs:33-56 | A round polls each queued task once and leaves the pending ones in order |
| SimpleExecutor.PollsCount | src/task/simple_executor.rs:33-56 | The number of polls is the sum of the tasks' polls |
| SimpleExecutor.SelfWakingRun | src/task/executor.rs:99-155 | Without interrupts, the schedule of self-waking futures polls exactly the round-robin ids |
| SimpleExecutor.DriveIsSelfWaking | src/task/executor.rs:99-155 | When no interrupt lands and the futures themselves decide each operation, that schedule is what happens |
| SimpleExecutor.SimpleExecutor.constructor | src/task/simple_executor.rs:19-23 | Starts empty |
| SimpleExecutor.SimpleExecutor.Spawn | src/task/simple_executor.rs:25-27 | The task goes to the back |
| SimpleExecutor.SimpleExecutor.Run | src/task/simple_executor.rs:33-56 | The loop ends with an empty queue and has polled exactly the ids of `Polls` |
| LinkedListTheorems.HeapStaysSound | src/allocator/linked_list.rs:67-201 | After every run: free regions and live blocks are disjoint, inside the heap and 8-aligned, regions hold a node, blocks meet their layouts; every heap byte has exactly one owner and the sizes add up to the heap size |
| LinkedListTheorems.GapsOnlyGrow | src/allocator/linked_list.rs:117-145 | Abandoned front gaps are never given back |
| LinkedListTheorems.SmallAlignsTile | src/allocator/linked_list.rs:117-201 | If no alignment exceeds 8, free regions and live blocks tile the heap exactly |
| LinkedListFragmentation.TilesExactly | src/allocator/linked_list.rs:117-201 | After any run free regions and live blocks tile the heap exactly when no call of the run met a first suitable region that is not aligned for its layout |
| LinkedListFragmentation.GapExactly | src/allocator/linked_list.rs:122-144 | One call abandons bytes exactly in that case |
| LinkedListFragmentation.LostForever | src/allocator/linked_list.rs:117-201 | An abandoned byte is never free or handed out again |
| LinkedListFragmentation.GapHappens | src/allocator/linked_list.rs:117-145 | 16 bytes and then 64 bytes aligned to 64 abandon 48 bytes of the kernel's heap |
| LinkedListTheorems.AllocIsFirstFit | src/allocator/linked_list.rs:85-193 | alloc serves from the first suitable region, puts the excess in front, abandons what lies before the block, keeps the other regions in order, and answers null exactly when none is suitable |
| LinkedListTheorems.AllocFromRegionIs | src/allocator/linked_list.rs:117-145 | The answer is the first aligned address in the region, given exactly when the block fits there and the rest is nothing or can hold a node |
| LinkedListTheorems.RefusedForever | src/allocator/linked_list.rs:85-145 | A request larger than every free region and live block is refused now and after any further run |
| LinkedListFragmentation.ServedExactly | src/allocator/linked_list.rs:85-201 | Some continuation of a run serves a request exactly when a free region or live block is suitable, or 8 bytes too long in the one way that a 16-aligned request trims |
| LinkedListFragmentation.RunKeepsPromise | src/allocator/linked_list.rs:85-201 | A heap without such a region never gets one |
| LinkedListFragmentation.FragmentationHappens | src/allocator/linked_list.rs:67-108 | With both halves of the kernel's heap allocated and freed, a request that a fresh heap serves is refused after every further run |
| LinkedListTheorems.PanicsExactly | src/allocator/linked_list.rs:150-193 | alloc panics exactly for alignments below 8 with a size among the last 7 values of usize |
| LinkedListTheorems.PanicHappens | src/allocator/linked_list.rs:150-164 | Size 2^64 - 4 with alignment 4 is such a layout |
| LinkedListTheorems.FreeThenAlloc | src/allocator/linked_list.rs:67-201 | Freeing any live block and asking for its layout returns the same address and restores the free list |
| LinkedListTheorems.LoopsNeverRunOut | tests/heap_allocation.rs:77-96 | A loop that frees its block and allocates again succeeds any number of times and leaves the allocator as it was |
| LinkedListTheorems.CycleIsIdentity | src/allocator/linked_list.rs:167-201 | One turn of such a loop is the identity |
| LinkedListTheorems.AllocRefines | src/allocator/linked_list.rs:168-193 | alloc does what the common specification allows |
| LinkedListTheorems.DeallocRefines | src/allocator/linked_list.rs:195-201 | So does dealloc |
| LinkedListTheorems.ValidIsSound | src/allocator/linked_list.rs:67-201 | One owner per byte implies pairwise disjointness |
| LinkedList.SizeAlignIsWorkable | src/allocator/linked_list.rs:150-164 | The adjusted layout covers the requested one, its size is a multiple of its alignment, and it can hold a list node later |
| LinkedList.SizeAlignIsLeast | src/allocator/linked_list.rs:150-164 | And it adds no more than it has to |
| LinkedList.SmallestBlock | src/allocator/linked_list.rs:150-164 | One byte becomes 16 bytes aligned to 8 |
| LinkedList.FirstFit | src/allocator/linked_list.rs:85-108 | The first suitable index, or the length |
| LinkedList.SuitableRegion | src/allocator/linked_list.rs:117-145 | A suitable region holds the block, and the excess is nothing or can hold a node |
| LinkedList.CarveKeepsPartition | src/allocator/linked_list.rs:183-189 | Cutting a region keeps one owner per byte and the total |
| LinkedList.AllocKeepsValid | src/allocator/linked_list.rs:168-193 | alloc keeps the heap valid |
| LinkedList.DeallocKeepsValid | src/allocator/linked_list.rs:195-201 | dealloc keeps the heap valid |
| LinkedList.InitIsValid | src/allocator/linked_list.rs:55-57 | init makes it valid |
| LinkedListAllocator.LinkedListAllocator.constructor | src/allocator/linked_list.rs:44-57 | On memory of any content, init leaves the list of one region |
| LinkedListAllocator.LinkedListAllocator.AddFreeRegion | src/allocator/linked_list.rs:67-78 | Its assertions hold exactly for aligned and large enough regions; then the list in memory has that region in front, and only the two words of the node changed |
| LinkedListAllocator.LinkedListAllocator.FindRegion | src/allocator/linked_list.rs:85-108 | The walk through memory finds the first suitable region and unlinks exactly it, or changes nothing |
| LinkedListAllocator.LinkedListAllocator.Unlink | src/allocator/linked_list.rs:93-95 | Taking a node out of the list in memory |
| LinkedListAllocator.LinkedListAllocator.ReturnExcess | src/allocator/linked_list.rs:185-188 | The excess passes the assertions and becomes the first region |
| LinkedListAllocator.LinkedListAllocator.Alloc | src/allocator/linked_list.rs:168-193 | The memory version agrees with the value version, its checks never fail except as `PanicsExactly` says, and it is a move in the sense of `ClientData`: no word of a live block changes |
| LinkedListAllocator.LinkedListAllocator.Dealloc | src/allocator/linked_list.rs:195-201 | Likewise for dealloc, whose assertions always hold |
| LinkedListAllocator.LinkedListAllocator.ClientWrite | src/allocator/linked_list.rs:67-78 | A client that writes inside its block changes that word only and leaves the list in memory intact |
| LinkedListAllocator.LinksRemove | src/allocator/linked_list.rs:93-95 | Two writes remove node k from the list in memory |
| LinkedListAllocator.AllocOutcome | src/allocator/linked_list.rs:183-189 | What alloc does, in terms of the first suitable region |
| FixedSizeTheorems.AllocatorStaysSafe | src/allocator/fixed_size_block.rs:113-199 | After every run, whatever the fallback answers: live blocks are disjoint, inside the heap, aligned and large enough |
| FixedSizeTheorems.SlotsAreDisjoint | src/allocator/fixed_size_block.rs:113-199 | Listed blocks and blocks behind live allocations never overlap, across all lists |
| FixedSizeTheorems.SlotsAreGranted | src/allocator/fixed_size_block.rs:113-199 | Every block on list k is one the fallback granted with size and alignment BLOCK_SIZES[k] |
| FixedSizeTheorems.BlocksAreGranted | src/allocator/fixed_size_block.rs:143-157 | Every block on list k, and behind every request of class k, was granted as BLOCK_SIZES[k] bytes aligned to BLOCK_SIZES[k]; a large request as it was asked |
| FixedSizeTheorems.FreshHeapIsWhole | src/allocator/fixed_size_block.rs:90-92 | A fresh allocator accepts from the fallback exactly the aligned blocks inside the heap |
| FixedSizeTheorems.HighWaterMark | src/allocator/fixed_size_block.rs:119-153 | Blocks ever taken from the fallback for a class are the maximum of simultaneously live blocks of that class |
| FixedSizeTheorems.StepTakesAtPeak | src/allocator/fixed_size_block.rs:119-153 | A call raises the count only to a new maximum |
| FixedSizeTheorems.LiveBytesAreBounded | src/allocator/fixed_size_block.rs:38-47 | Class blocks total at most the sum of max(8, 2 (n - 1)) over the requests served from a class, n the larger of size and alignment |
| FixedSizeTheorems.BlocksInUseAreBounded | src/allocator/fixed_size_block.rs:113-187 | So after every run, for blocks that are as large as the fallback granted them |
| FixedSizeTheorems.ClassIsTight | src/allocator/fixed_size_block.rs:38-47 | A class block is at least the size and the alignment, and it is 8 bytes or at most 2 (size - 1) or 2 (alignment - 1) |
| FixedSizeTheorems.FreeThenAlloc | src/allocator/fixed_size_block.rs:113-187 | Freeing a class block and asking for its layout returns the same block without the fallback, every list as before |
| FixedSizeTheorems.LoopsNeverRunOut | tests/heap_allocation.rs:77-96 | Alloc/free loops succeed any number of times, even when the fallback has nothing left |
| FixedSizeTheorems.CycleIsIdentity | src/allocator/fixed_size_block.rs:113-187 | One turn of such a loop is the identity |
| FixedSizeTheorems.AllocKeepsValid | src/allocator/fixed_size_block.rs:113-158 | What the fallback granted is listed or live, each block once; kept by alloc |
| FixedSizeTheorems.DeallocKeepsValid | src/allocator/fixed_size_block.rs:160-199 | Kept by dealloc |
| FixedSizeTheorems.LargeBlockIsGranted | src/allocator/fixed_size_block.rs:192-197 | A block too large for the classes is returned to the fallback as it was granted |
| FixedSizeTheorems.AllocRefines | src/allocator/fixed_size_block.rs:113-158 | alloc does what the common specification allows |
| FixedSizeTheorems.NullExactly | src/allocator/fixed_size_block.rs:113-158 | alloc answers null exactly when the fallback refuses and the request is too large for the classes or every block ever taken for its class is live; then nothing changed |
| FixedSizeTheorems.NullAtThePeak | src/allocator/fixed_size_block.rs:113-158 | After any run, the latter means that as many blocks of the class are live as ever were at once |
| FixedSizeTheorems.DeallocRefines | src/allocator/fixed_size_block.rs:160-199 | So does dealloc |
| FixedSize.ListIndexIs | src/allocator/fixed_size_block.rs:38-47 | Class k is chosen exactly when it is the first whose block size is at least the size and at least the alignment; none exactly when size or alignment exceeds 2048 |
| FixedSize.Init | src/allocator/fixed_size_block.rs:71-92 | Starts valid with empty lists |
| FixedSizeBlockAllocator.FixedSizeBlockAllocator.constructor | src/allocator/fixed_size_block.rs:71-92 | On memory of any content all lists are empty |
| FixedSizeBlockAllocator.FixedSizeBlockAllocator.AllocBlock | src/allocator/fixed_size_block.rs:113-158 | Popping the node out of memory agrees with the value version and touches no live block and nothing that belongs to the fallback; if the fallback is called, all lists and all client data survive whatever it writes outside its grants |
| FixedSizeBlockAllocator.FixedSizeBlockAllocator.DeallocBlock | src/allocator/fixed_size_block.rs:160-199 | So does pushing the freed block, and so does a large block given back, in which the fallback may then write; both assertions hold |
| FixedSizeBlockAllocator.FixedSizeBlockAllocator.ClientWrite | src/allocator/fixed_size_block.rs:178-188 | A client that writes inside its block leaves all lists in memory and the fallback's own memory intact |
| FixedSizeBlockAllocator.FallbackLeavesAll | src/allocator/fixed_size_block.rs:95-109 | Whatever the fallback writes outside the blocks it granted, the nine lists and all client data are still there |
| FixedSizeBlockAllocator.NodeInGrant | src/allocator/fixed_size_block.rs:178-188 | A list node is written only inside a block that the fallback granted |
| ClientData.LastWriteIsRead | src/allocator/linked_list.rs:167-201 | Over any run of moves: a word in use holds what was last written to it |
| ClientData.OwnersReadBack | src/allocator/linked_list.rs:167-201 | Where clients share no word: as long as a block is in use its words hold what its owner last wrote, whatever the others do |
| LinkedListAllocator.BlocksShareNoWord | src/allocator/linked_list.rs:150-164 | In every valid linked list heap clients share no word |
| ClientData.MoveKeepsWord | src/allocator/linked_list.rs:167-201 | A move keeps every word that is in use before and after it and not written by its owner |
| FixedSizeBlockAllocator.PopLinks | src/allocator/fixed_size_block.rs:130-133 | One pop keeps all nine lists in memory |
| FixedSizeBlockAllocator.PushLinks | src/allocator/fixed_size_block.rs:178-188 | One push keeps all nine lists in memory |
| AllocatorSpec.AllowedKeepsSafe | src/allocator.rs:33-39 | An allocator that does only what the specification allows keeps live blocks disjoint, placed and aligned |
| Bump.BumpStaysSafe | src/allocator/bump.rs:54-108 | After every run live blocks are disjoint, aligned and in bounds, and the heap is reset when none is live |
| Bump.StepKeepsValid | src/allocator/bump.rs:54-108 | `next` moves back only when nothing is live any more |
| Bump.AllocRefines | src/allocator/bump.rs:54-95 | alloc does what the common specification allows |
| Bump.AllocFailsExactly | src/allocator/bump.rs:54-95 | alloc answers with the first aligned address behind `next` and moves `next` to the end of the block; null exactly when no aligned block fits there, and then nothing changed |
| Bump.FreesKeepNext | src/allocator/bump.rs:97-108 | Any number of frees leaves `next` where it is until the last block is freed, which resets it |
| Bump.FreshHeapIsWhole | src/allocator/bump.rs:46-50 | A fresh heap serves a request exactly when an aligned block fits between its bounds |
| Bump.DeallocRefines | src/allocator/bump.rs:97-108 | So does dealloc |
| Bump.LongLivedBlockStopsReuse | tests/heap_allocation.rs:84-96 | With one long-lived block, n turns succeed exactly when n blocks fit behind it |
| Bump.ManyBoxesLongLivedFails | tests/heap_allocation.rs:88-96 | With the kernel's heap, the loop of `many_boxes_long_lived` runs out of memory |
| Bump.BumpAllocator.constructor | src/allocator/bump.rs:33-50 | Starts at the heap start with no allocation |
| Bump.BumpAllocator.AllocBlock | src/allocator/bump.rs:54-95 | The counter version agrees with the value version |
| Bump.BumpAllocator.DeallocBlock | src/allocator/bump.rs:97-108 | Likewise; the counter is the number of live blocks and does not underflow |
| Alignment.AlignUpForms | src/allocator.rs:166-184 | The bit mask form equals the remainder form for every power of two and every address that does not overflow |
| Alignment.AlignUpIsLeast | src/allocator.rs:166-184 | The result is the least multiple not below the address |
| Alignment.MaskClearsLowBits | src/allocator.rs:166-184 | And-ing with the complement of align - 1 clears the low bits |
| Alignment.RoundUpIsLeast | src/allocator.rs:166-184 | The remainder form is the least multiple for every alignment |
| VgaBuffer.Writer.constructor | src/vga_buffer.rs:35-45 | Whatever is on the screen |
| VgaBuffer.Writer.WriteString | src/vga_buffer.rs:187-199 | The buffer shows the last 25 rows of the terminal that received the printable bytes; no index leaves the buffer |
| VgaBuffer.Writer.WriteByte | src/vga_buffer.rs:148-175 | One byte: newline, lazy wrap at column 80, or a cell |
| VgaBuffer.Writer.WriteCell | src/vga_buffer.rs:159-172 | The cell at the current column of the last row, and no other |
| VgaBuffer.Writer.NewLine | src/vga_buffer.rs:202-215 | Rows move up by one and the last is blank |
| VgaBuffer.Writer.ShiftUp | src/vga_buffer.rs:205-212 | The in-place loop equals a simultaneous shift |
| VgaBuffer.Writer.ClearRow | src/vga_buffer.rs:218-226 | That row is blank and the others are unchanged |
| VgaBuffer.SanitizedKeepsLayout | src/vga_buffer.rs:189-197 | Replacing the bytes that cannot be shown changes no row break and is done once and for all; a text stays as it is exactly when all of it can be shown |
| VgaBuffer.ByteShown | src/vga_buffer.rs:148-199 | After any text from any screen: a newline starts a row of spaces, a byte from 0x20 to 0x7e appears at the cursor as itself, every other byte as 0xfe |
| VgaBuffer.LongLineWraps | src/vga_buffer.rs:148-175 | A line of 81 to 160 characters fills row 23 with its first 80 and goes on in row 24 |
| VgaBuffer.ScreenAfterWrite | src/vga_buffer.rs:148-226 | After any text from any screen: the last 25 rows of what was there and of the text laid out behind it |
| VgaBuffer.PrintlnOutput | src/vga_buffer.rs:302-335 | A printed line of up to 80 characters appears in row 23, cell by cell, above a row of spaces, whatever was on the screen |
| Terminal.WriteIsLayout | src/vga_buffer.rs:148-226 | Byte by byte with lazy wrapping shows exactly the text cut into lines and the lines cut into rows of 80 |
| Terminal.WriteConcat | src/vga_buffer.rs:187-199 | Writing in pieces is writing at once |
| Terminal.LayoutWrap | src/vga_buffer.rs:155-157 | A full row followed by a character starts a new row |
| Terminal.LayoutPut | src/vga_buffer.rs:159-172 | A character extends the current row |
| Terminal.LayoutNewline | src/vga_buffer.rs:150-150 | A newline ends the row, also a full one, without an extra blank row |
| Frames.UsableFramesAreExact | src/memory.rs:153-185 | The recomputed list holds exactly the frames inside usable regions, each once |
| Frames.FramesAreUnique | src/memory.rs:189-195 | Over any number of calls: frames are usable, no two share a byte, every usable frame comes, and None is permanent |
| Frames.FramesAreOrdered | src/memory.rs:153-195 | An earlier call returns a frame of an earlier region, or a lower one of the same region |
| Frames.FirstFrame | src/memory.rs:153-195 | The first frame is the start of the first usable region that is not empty |
| Frames.StepByIs | src/memory.rs:169-182 | Every 4096th address of an aligned range is exactly its frames |
| Frames.BootInfoFrameAllocator.constructor | src/memory.rs:142-149 | Starts with all usable frames |
| Frames.BootInfoFrameAllocator.AllocateFrame | src/memory.rs:189-195 | Recomputing and skipping `next` frames is a step of an iterator kept between calls |
| HeapSetup.HeapIsMapped | src/allocator.rs:48-112 | After success every heap byte is mapped to usable memory, and no other page changed |
| HeapSetup.HeapIsInjective | src/allocator.rs:48-112 | No two heap bytes share a physical byte |
| HeapSetup.HeapIsPrivate | src/allocator.rs:87-95 | No heap byte lies in a page table created on the way or in a frame that was in use |
| HeapSetup.SucceedsExactly | src/allocator.rs:87-95 | The loop succeeds exactly when no page is mapped or behind a huge page and the frames suffice for pages and tables |
| HeapSetup.ErrorsAreExplained | src/allocator.rs:87-95 | Out-of-frames means that none is left and that they could not suffice, the other errors name a page that is there; existing mappings stay, also on an error |
| HeapSetup.FramesAreConserved | src/allocator.rs:87-95 | The frames drawn are the pages' frames and the new tables, each once |
| HeapSetup.FramesInOrder | src/allocator.rs:87-95 | Page i gets the frame that comes after those of the i pages before it and of the tables created for them |
| HeapSetup.HeapNeeds25Frames | src/allocator.rs:29-65 | The heap is 0x4444_4444_0000 to 0x4444_4445_9000, and init_heap takes 25 frames and those of the tables |
| HeapSetup.FramesStayApart | src/allocator.rs:87-95 | Page frames are distinct and none is a page table |
| HeapSetup.ErrorsStay | src/allocator.rs:87-95 | An error ends the loop: later pages change nothing |
| HeapSetup.Mapper.constructor | src/memory.rs:28-34 | Any existing mappings |
| HeapSetup.Mapper.CreateTables | src/allocator.rs:91-94 | Missing tables are drawn one by one, until the allocator is empty |
| HeapSetup.Mapper.MapTo | src/allocator.rs:91-94 | The mapping is entered, or one of three errors is returned |
| HeapSetup.Mapper.InitHeap | src/allocator.rs:48-112 | The loop agrees with the value version, on the frames of a valid memory map; the global allocator is initialized on the heap exactly when all pages were mapped |

## Left out

- Kernel.Kernel.Run: `Executor::run` does not end; the method covers every finite supply of interrupts and stops when the CPU sleeps with none left. Runs without end are covered by the theorems about all schedules.
- Kernel.Kernel.Tick: interrupts come between the operations named in `Pc`, each of which is atomic; the internals of `ArrayQueue`, `AtomicWaker`, `OnceCell` and `spin::Mutex` are not modelled, nor are several cores or weak memory.
- A second `ScancodeStream`, other holders of the keyboard waker, and futures that spawn tasks do not exist in the repository and are not modelled.
- TaskId::new wrap-around after 2^64 ids is not modelled; ids are arbitrary numbers, and spawning one twice panics as in the code.
- The decoding and printing of scancodes by `pc_keyboard` is not modelled; delivery to the loop of `print_keypresses` is.
- The `linked_list_allocator::Heap` behind the fixed-size classes is represented by any answers that `AllocatorSpec.Allowed` permits, including refusing everything, and by any writes outside the blocks it granted.
- Heaps in the upper half of the address space, where `align_up` can overflow, are not covered; the kernel's heap lies in the lower half.
- Clients that free a block twice, with another layout, or write outside their blocks break the contract of `GlobalAlloc` and are not modelled.
- HeapSetup.Mapper.MapTo: the page-table walk is an arbitrary number of tables to create and an arbitrary huge-page outcome per page; the tables' contents and the TLB flush are not modelled.
- The bootloader's promise that usable regions are page aligned and disjoint is a precondition of the theorems about frames.
- WakeupTheorems.InterruptsStayEnabled: `print!` disables interrupts while it writes; that happens inside one operation of the model, so it only makes interrupts wait for the next gap.
- Colour codes are numbers; their packing, `fmt` formatting and the lock of the global writer are not modelled.
- GDT, IDT, PIC, serial port, test framework, `Dummy`, `EmptyFrameAllocator` and the `RawWaker` table of the simple executor are not modelled.
