# ApolloOS kernel: a verified model

ApolloOS is a single-core RISC-V kernel in Rust. This project models, in Dafny, the parts of it that share
one physical memory: the frame allocator and the Sv39 page tables, the address spaces built on them, the
processes with their scheduler and system calls, and the saving and restoring of registers. It proves what
the kernel keeps over every run.

## How the model is built

- **Objects changed in place are classes.** `StackFrameAllocator`, `Ram`, `PageTable`, `MemorySet`,
  `PidAllocator`, `TaskManager`, `System` (the kernel with its tasks, queue and processor), `TaskContext`,
  `Hart` and `Processor` (the contexts that are switched). `MapArea` and the control block `Tcb` are values inside
  the sequence or map that owns them, as in a `Vec` of the source; control blocks are named by identities that are
  never used again, in place of `Arc` pointers.
- **Values and relations.** Each class has a `View`: a `Table`, `Space`, `Phys` or `Kernel`. Methods establish
  named relations between views: `Grown`, `SpaceGrown`, `SpaceShrunk`, `Pushed`, `Removed`, `Built`, `Copied`,
  `Loaded`. The state machine of the kernel, `Next` in `KernelSteps`, is made of the same relations, so what
  is proved about runs applies to what the methods do: the methods of `System` for scheduling and system calls
  ensure that they are one step of `Next`, `Boot` ensures a `Started` state, `Handle` ensures a sequence of steps,
  `TrapEntry` shows that `__alltraps` is one too, and the methods of `Processor` ensure steps of the machine of flows
  that `KernelFlows` is about.
- **Memory** is a map from frame number to 4096 bytes; page table entries and trap context words are
  little-endian 64-bit words of those bytes. The page tables live in this memory, and so do trap contexts.
  `TableOk` gives every node a role (root, middle i, low i j) and ties the tree to a flat map of pages.
- **The hardware** is modelled on its own (`HardwareWalk`), from the numbers of the RISC-V Privileged Specification: the
  fields of `satp` and of an entry, the walk, and what a leaf permits to each mode (`Physical`). The kernel's tests of an
  entry, its indexes and its tokens are proved to be those fields (`FieldsAgree`, `TokenFields`). User stores, the
  saving and restoring of registers, and the theorems of `KernelReach` and `KernelPrograms` are about `Physical`.
- **The kernel's own accesses** go through its own page table (`KernelAccess`): a physical address in a frame that
  kernel space does not map, or maps without the permission, is a fault and so a panic.
- **The invariant** `Inv` in `KernelModel` is the conjunction of: the parent/child tree; queue, processor and
  statuses; identifiers; kernel stacks; page tables, areas and trap contexts of every space; and balanced
  books (`Ledger`): free frames and the holdings of every space partition the pool.
- **Panics.** Running out of memory (`unwrap` on `None`) is a `None`, a null or a false result, which every
  method allows only when no frame is left. Every method that takes frames also has a budget (`Spent`): a mapped
  area takes at most its data frames and two table nodes for each block of 512 pages (`AreaCost`). So a caller can
  tell beforehand: `Boot`, a fork and an exec can fail only if no more frames were free than `BootCost`, `ForkCost`
  and `ImageCost`. The assertions of the code are preconditions, proved at every call, or lemmas.
- **Integers** are unbounded; the truncations of the source (39 and 44 bits, the 64-bit shift of an entry, the
  casts of system call arguments) are written out.

## What turned out false or conditional

- `indexes` is injective on the low 27 bits only: `IndexesInjective` is an equivalence modulo 2^27.
- The check of `dealloc` does not know where the pool begins: `RejectsExactly`.
- `translated_byte_buffer` does not return for every buffer: `BufferReturns` says for which. With an entry for every
  page it looks at it returns exactly if the buffer is empty, ends below 2^39, or wraps around at 2^64; in the last
  case it returns no byte at all.
- `translate` may return an entry that is not valid. `translated_str` then panics, because kernel space does not map
  frame 0; so does a store through `translated_refmut` there, in the trampoline, or where there is no entry:
  `RefmutTarget`. What remains are the pages of the process itself, whatever their flags.
- The pointer of waitpid is not checked. `WaitTarget` says for every pointer when the store is made and exactly when
  all four bytes stay in memory that user mode may access; at least four bytes before the end of a page it is enough
  that the page is open to user mode. Two families of pointers fail. One crosses the end of its page: the
  store goes on in the next physical frame, whoever holds it (`WaitCrossing`). The other points into the task's own trap
  context: the words of the kernel survive exactly if the bytes stored over them are already there
  (`WaitIntoContext`). The steps of the model take the pointers that a caller can tell to be safe, to four bytes of
  one page that is open to user mode (`PointerOk`), and the methods report what the others lead to (`WaitPanics`,
  `WaitAstray`).
- `copy_data` copies to the start of the first page: a segment that begins inside a page is found at its address
  only if the shift makes no difference (`SegmentExact`). The guard page lies below the stack for every image
  whose last segment is the highest (`GuardPage`).
- After an exit the zombie's table keeps stale entries: `ExitLeavesStaleEntries`; agreement of table and areas
  is claimed for live tasks only.
- The exit of `initproc` borrows a borrowed cell: `ExitBorrows` is an equivalence.
- What the program finds at its addresses is stated over the headers of the file (`SegmentMapped`, `HasProgram`), for
  segments that do not run out of the 39-bit address space (`NoWrap`).
- tp is not restored after a trap: `TrapAndReturn` and `ServeTrap` give back every register but that one.

## Files

`Address`, `PhysicalMemory`, `PageTableEntries`, `FrameAllocation`: words, bytes and frames.
`TableModel`, `PageTables`, `HardwareWalk`: page tables. `SpaceModel`, `MemorySets`, `SpaceCopies`,
`ElfLoading`, `KernelAccess`, `UserBuffers`: address spaces and how the kernel reaches them. `Ledger`,
`KernelModel`, `KernelSteps`: the kernel as a state machine. `ProcessTree`, `KernelMemory`, `KernelTransfers`, `KernelFork`, `KernelExec`, `KernelReap`,
`KernelSafety`: the invariant, step by step. `KernelTheorems`, `KernelProcesses`, `KernelIsolation`,
`KernelReach`, `KernelPrograms`, `KernelFlows`, `WaitPointers`, `Borrows`: what follows for every run. `StepFacts`,
`TaskResources`, `ProcessControl`,
`TrapHandling`, `KernelBoot`: the kernel as objects changed in place. `Contexts`, `TrapPath`, `Switching`:
registers, and the way of a trap and of a switch through all of this.

`dafny verify dfyconfig.toml` checks the project.

## Model

| member | source | states |
|---|---|---|
| KernelBoot.Boot | os/src/task/task.rs:70-110 | the allocator, kernel space and `initproc` are set up in place; the result is a sound kernel in the state `StartedWith` of this image, entry point and status, with `initproc` alone in the queue, unless the pool has no more than `BootCost` frames |
| KernelBoot.BootBudget | os/src/mm/memory_set.rs:114-186 | on the board the kernel itself takes at most 39 frames, so it starts whenever the image of `initproc` leaves more than that |
| KernelBoot.NewKernel | os/src/mm/memory_set.rs:114-186 | kernel space is the trampoline and exactly the five identity-mapped sections with their permissions, for no more frames than the table nodes of their blocks |
| KernelBoot.LayoutIsOk | os/src/linker-qemu.ld:5-48 | the order and alignment of the linker symbols give disjoint sections, the trampoline page of `strampoline` outside the managed frames, and managed memory from `ekernel` to 0x80800000 |
| KernelBoot.StartInv | os/src/task/task.rs:70-110 | the whole invariant holds in the first state |
| KernelBoot.ReachableInv | os/src/syscall/process.rs:28-89 | every state of every run from the start is sound, and total forks are total reaps plus the tasks other than `initproc` |
| KernelSafety.NextKeepsInv | os/src/task/mod.rs:23-73 | every step (dispatch, yield, exit, fork, exec, waitpid with any pointer to four bytes of user memory, user store, trap write) keeps the invariant: tree, queue, identifiers, kernel stacks, memory of every task, and frame books |
| KernelSafety.RunKeepsInv | os/src/task/processor.rs:52-72 | the same over every run, by induction on the run |
| KernelTheorems.OneUse | os/src/mm/frame_allocator.rs:74-102 | in a sound state no frame has two uses: free, node of one table, or page of one area of one space |
| KernelTheorems.SomeUse | os/src/mm/frame_allocator.rs:31-38 | no frame leaks: every managed frame has a use, so with `OneUse` the uses are a disjoint union of the pool |
| KernelTheorems.UserStoreIsolated | os/src/mm/memory_set.rs:191-292 | a store that the hardware allows in user mode changes one data frame of the running process only: not a node, not its trap context, not the trampoline, nothing of the kernel, of another process or free |
| KernelReach.UserStoreReads | os/src/mm/memory_set.rs:191-292 | a store in user mode is read back at its address, and no other byte of any live task's memory, its own or another's, changes |
| KernelReach.UserReach | os/src/mm/memory_set.rs:191-292 | in every sound state a live task reaches in user mode exactly the pages of its areas that are open to it, with their permissions, and always a data frame of its own |
| KernelReach.AreasReached | os/src/mm/memory_set.rs:362-383 | in every live space and in kernel space each mode reaches, besides the trampoline, exactly the pages of the areas with the accesses they allow |
| KernelReach.TrampolineFetched | os/src/mm/memory_set.rs:105-111 | in every live space and in kernel space supervisor mode, and only it, fetches and loads the trampoline frame at the same addresses, and nobody stores there: the code of a trap goes on when `satp` is switched |
| KernelReach.TrampolineIsCode | os/src/mm/memory_set.rs:105-111 | these are the addresses from `strampoline` on |
| KernelReach.ContextReached | os/src/mm/memory_set.rs:255-265 | the trap context page of a live task is data of supervisor mode only, in the frame `trap_cx_ppn` |
| KernelReach.SectionsReached | os/src/mm/memory_set.rs:131-183 | in every sound state the kernel finds `.text` R and X, `.rodata` R, and `.data`, `.bss` and memory up to `MEMORY_END` R and W, each address at itself |
| KernelReach.StackReached | os/src/task/pid.rs:60-81 | the two pages below the top of a task's kernel stack are R and W for the kernel, and the page below them faults |
| KernelReach.WriteXorExecute | os/src/mm/memory_set.rs:114-186 | no address of kernel space can both be stored to and executed |
| KernelTheorems.InstalledTable | os/src/trap/mod.rs:103-128 | the table a return to user mode installs is that of a live task and agrees with its areas; no zombie table shares a node with it |
| KernelTheorems.ExitLeavesStaleEntries | os/src/mm/memory_set.rs:309-312 | an exit leaves every leaf entry of the zombie in its table, pointing to a frame that is free |
| KernelTheorems.ForkPreservesMeaning | os/src/task/task.rs:138-177 | the child has the areas, permissions and bytes of the parent in frames of its own; of the trap context only x10 and `kernel_sp` differ; the parent is unchanged |
| KernelIsolation.OthersUntouched | os/src/task/mod.rs:23-73 | no step changes the address space, the trap context page or any byte in any frame of a live task other than the running one |
| KernelIsolation.SuspendedUntouched | os/src/task/processor.rs:52-72 | the same over any part of any run in which the task is not the running one |
| KernelIsolation.UntouchedReads | os/src/mm/page_table.rs:134-172 | so the task finds every translation, every byte of its areas and every word of its trap context as it left them |
| KernelIsolation.ForkReads | os/src/mm/memory_set.rs:274-292 | through its own table the child reads at every user address what the parent reads |
| KernelIsolation.ChildStartsAsParent | os/src/syscall/process.rs:28-40 | over every run: at its first turn the child still has the memory and the trap context of the parent at the fork, with result 0 and its own kernel stack |
| KernelIsolation.YieldReturnsZero | os/src/syscall/process.rs:15-18 | over every run: when a task that yielded runs again and the handler then writes its result 0 (`FinishYield`), the trap context is the one the task left, except for x10 |
| KernelIsolation.ReapDelivers | os/src/syscall/process.rs:76-84 | after a reaping the parent reads, through its own table, the code at the address it gave: the four bytes, lowest first, are congruent to it modulo 2^32, and as an `i32` they are the code |
| KernelIsolation.ExitCodeDelivered | os/src/syscall/process.rs:56-89 | over every run: the code given to an exit is the `i32` that the reaping task reads at its pointer, reparenting included |
| WaitPointers.WaitTarget | os/src/syscall/process.rs:76-84 | for every pointer: the store of waitpid is made exactly when its page belongs to the task and its four bytes do not run out of memory, and panics otherwise; all four bytes stay in frames that user mode may access exactly when the page is open to user mode and they do not cross into another frame, or into one that is open too |
| WaitPointers.WaitCrossing | os/src/mm/page_table.rs:248-257 | a pointer at the last three bytes of a user page stores into the next physical frame; if another process or the kernel holds it, that holder keeps its bytes exactly if the bytes stored are already there |
| WaitPointers.WaitIntoContext | os/src/mm/page_table.rs:248-257 | every pointer into the task's own trap context is accepted, and kernel token, stack and handler stay right exactly if each byte of the exit code that falls on those three words is the byte already there |
| WaitPointers.KernelView | os/src/mm/memory_set.rs:131-183 | in every sound state with a running task the kernel table reaches the task's data frames at their own addresses, the trampoline for loads only, and frame 0 not at all |
| WaitPointers.StringEnds | os/src/mm/page_table.rs:227-246 | there are more pages than frames, so from every address on `translated_str` comes to a byte that the kernel cannot read: it never runs for ever |
| WaitPointers.StringIsBytes | os/src/mm/page_table.rs:227-246 | the string that exec takes as a name is, byte for byte and with its zero, what the task has at the pointer |
| KernelIsolation.ContextMapped | os/src/task/task.rs:70-177 | for every live task `trap_cx_ppn` is the frame its own table maps, without U, at the trap context page, which holds the kernel token, the top of its own kernel stack and the handler |
| KernelIsolation.KernelRootKept | os/src/mm/memory_set.rs:63-65 | the root of the kernel table, and so the kernel token, never changes |
| KernelProcesses.Ancestry | os/src/task/mod.rs:52-62 | parent links are acyclic: from every task they lead to `initproc` |
| KernelProcesses.OneParent | os/src/task/mod.rs:52-62 | a task is in at most one children list, at one place, and its parent link names that list |
| KernelProcesses.StrongCounts | os/src/syscall/process.rs:76-78 | counting queue, processor, children lists and the `INITPROC` static, a zombie has exactly one reference and a live task, `initproc` included, exactly two |
| KernelProcesses.ReapedUniquely | os/src/syscall/process.rs:76-78 | the only reference to a zombie child is the one waitpid removes, so the `strong_count` assertion holds |
| KernelProcesses.WaitsFor | os/src/syscall/process.rs:61-73 | in terms of the parent links: -1 names any child, an identifier the child that has it, and no other number anyone; so for the zombies among them |
| KernelProcesses.TaskKept | os/src/task/mod.rs:41-73 | no step changes the identifier of a task that stays; its parent changes only to `initproc`, when the parent exits; children keep their order, a forked one and the orphans of an exit come last, a reaped one is taken out; only an exit sets the exit code |
| KernelProcesses.IdleFindsTask | os/src/task/processor.rs:52-72 | when no task runs the queue is not empty |
| KernelProcesses.FifoOrder | os/src/task/manager.rs:20-26 | whatever is added meanwhile, a task at position p is at position p - d after d dispatches |
| KernelProcesses.FifoDispatched | os/src/task/manager.rs:20-26 | a task at position p is dispatched by exactly the (p+1)-th later fetch |
| KernelProcesses.ProcessesConserved | os/src/syscall/process.rs:28-89 | over every run tasks at the start plus forks equal tasks now plus reaps |
| KernelProcesses.GoneStaysGone | os/src/syscall/process.rs:74-84 | a task that has gone never comes back |
| KernelProcesses.ReapedOnce | os/src/syscall/process.rs:74-84 | no task is reaped twice in a run |
| KernelProcesses.ZombieKeepsCode | os/src/task/mod.rs:46-49 | a zombie stays a zombie with the code it exited with until it is reaped |
| KernelProcesses.KernelPages | os/src/task/pid.rs:70-109 | the kernel table maps exactly the trampoline, the sections and the stacks of the processes that exist |
| KernelProcesses.KernelSpaceRestored | os/src/task/pid.rs:70-109 | when the same processes are alive again, exactly the same kernel pages are mapped, whatever stacks came and went |
| KernelProcesses.PoolIdentityMapped | os/src/mm/memory_set.rs:175-183 | in every sound state every frame the allocator manages is mapped to itself, R and W, in kernel space |
| KernelProcesses.GuardUnmapped | os/src/task/pid.rs:60-64 | the page below every kernel stack is unmapped, and stacks lie above the identity map |
| KernelProcesses.StacksGuarded | os/src/task/pid.rs:60-64 | kernel stacks of two tasks share no page with each other or with the trampoline |
| ProcessTree.ExitKeepsStructure | os/src/task/mod.rs:41-73 | an exit with reparenting keeps tree, lists and queue consistent |
| ProcessTree.ForkKeepsStructure | os/src/task/task.rs:138-177 | a fork keeps tree, lists and queue consistent |
| ProcessTree.ReapKeepsStructure | os/src/syscall/process.rs:74-84 | removing a zombie child keeps tree, lists and queue consistent |
| ProcessTree.DispatchKeepsStructure | os/src/task/processor.rs:52-72 | the running task is exactly `processor.current`, and the queue holds each ready task once |
| ProcessTree.YieldKeepsStructure | os/src/task/mod.rs:23-39 | the same for a yield |
| KernelFork.ForkKeepsResources | os/src/task/task.rs:138-177 | identifiers, kernel stacks, memory and frame books after a fork |
| KernelExec.ExecKeepsResources | os/src/task/task.rs:112-136 | the same after an exec, which builds the new space before it drops the old |
| KernelReap.ReapKeepsResources | os/src/syscall/process.rs:74-84 | the same after a reaping: identifier, kernel stack and table are given back, and nothing else |
| KernelTransfers.ExitKeepsResources | os/src/task/mod.rs:63-69 | the same after an exit: the data frames are free, the table stays with the zombie |
| KernelFork.PidAllocFresh | os/src/task/pid.rs:21-28 | an allocated identifier is not in use, and identifiers in use stay those handed out and not recycled |
| KernelFork.PidReturns | os/src/task/pid.rs:21-37 | last in, first out: the identifier given back last is handed out next and leaves the allocator as before |
| KernelFork.PidDeallocOk | os/src/task/pid.rs:29-37 | both assertions of `dealloc` hold for an identifier in use |
| KernelFork.StacksBoundPids | os/src/task/pid.rs:21-37 | each live identifier owns two stack frames, so the high-water mark of identifiers is at most half the number of frames |
| KernelFork.StackApart | os/src/task/pid.rs:70-81 | the stack of a fresh identifier meets no section and no other stack |
| KernelReap.StackFound | os/src/mm/memory_set.rs:81-92 | the first area that begins at the start page of the stack of a live identifier is that stack |
| KernelModel.StackPosition | os/src/task/pid.rs:60-64 | after the truncation to 39 bits a stack is two whole pages below the trampoline |
| KernelModel.StacksApart | os/src/task/pid.rs:60-64 | stacks of different identifiers are disjoint, with a free page below each |
| ProcessControl.PidAllocator.Alloc | os/src/task/pid.rs:21-28 | the last recycled identifier, or a new one if there is none |
| ProcessControl.PidAllocator.Dealloc | os/src/task/pid.rs:29-37 | the identifier is recycled; the assertions are preconditions, met at every call |
| ProcessControl.TaskManager.Add | os/src/task/manager.rs:20-23 | to the back of the queue |
| ProcessControl.TaskManager.Fetch | os/src/task/manager.rs:24-26 | from the front of the queue, if there is one |
| ProcessControl.System.RunNext | os/src/task/processor.rs:52-72 | one round of the idle loop, in place, is a dispatch step, and never finds the queue empty |
| ProcessControl.System.SuspendCurrent | os/src/task/mod.rs:23-39 | in place, a yield step |
| ProcessControl.System.Reparent | os/src/task/mod.rs:53-60 | the loop over the children leaves every child with `initproc` as its parent and appends them all, in order, to its list |
| ProcessControl.System.ExitCurrent | os/src/task/mod.rs:41-73 | in place, an exit step; for `initproc`, and for no other task, it ends in the panic of a cell borrowed twice |
| ProcessControl.System.SysFork | os/src/syscall/process.rs:28-40 | in place, a fork step that returns the identifier of the new task; it fails only if no more than `ForkCost` frames were free |
| ProcessControl.System.SysExec | os/src/syscall/process.rs:42-52 | -1 and nothing changed exactly if no application has the name; otherwise an exec step with its segments and entry point; it fails only if no more than `ImageCost` frames were free |
| ProcessControl.System.FindZombie | os/src/syscall/process.rs:69-73 | the first matching zombie among the children, and none exactly if there is none |
| ProcessControl.System.SysWaitpid | os/src/syscall/process.rs:56-89 | for every identifier and every pointer: -1 exactly if no child matches, -2 exactly if one matches but no zombie does; otherwise the first matching zombie is reaped and its identifier returned if the pointer is to user memory, and if not the store decides between a panic and memory with the bytes written elsewhere |
| TaskResources.NewKernelStack | os/src/task/pid.rs:70-81 | in kernel space the two stack pages of the identifier are added, cleared |
| TaskResources.DropKernelStack | os/src/task/pid.rs:101-109 | exactly the stack of the identifier is removed and its frames are free |
| TaskResources.LoadImage | os/src/task/task.rs:71-77 | the space of an application with its stack pointer and trap context frame |
| TaskResources.InitContext | os/src/trap/context.rs:34-53 | the words of a first trap context |
| TaskResources.StoreCode | os/src/mm/page_table.rs:248-257 | for every pointer, four bytes from the physical address on, through the kernel table; the panic exactly where that faults |
| KernelExec.ContextPageWords | os/src/trap/context.rs:34-53 | what every word of a first trap context reads as; the bit SPP of `sstatus` is clear (`UserStatus`) |
| KernelPrograms.ExecInstalls | os/src/task/task.rs:112-136 | in the state after an exec the running task has the program: every address of every segment, the stack, and the registers of a first trap context, as the file has them |
| KernelPrograms.StartInstalls | os/src/task/task.rs:70-110 | so has `initproc` in the state that `Boot` leaves |
| TrapHandling.Handle | os/src/trap/mod.rs:45-100 | a trap makes exactly the steps of its arm: a system call moves `sepc` by 4, works, and leaves its result in x10 of the context that is current by then (also after exec), where it reads as the signed 64-bit result; faults exit with -2 or -3, which panics for `initproc`; the timer yields; any other cause panics |
| TrapHandling.FinishYield | os/src/trap/mod.rs:61-67 | when a task that yielded by a system call runs again, the handler goes on and leaves 0 in x10 |
| TrapHandling.Syscall | os/src/syscall/mod.rs:18-31 | each number calls its service, for all arguments, with the results of that service; exec takes the string at its argument as the name and panics exactly if the string runs into a byte that the kernel cannot read; an unknown number panics |
| TrapHandling.NumbersAgree | user/src/syscall.rs:4-12 | the kernel chooses a service exactly for the number with which the user library asks for it |
| Borrows.FlagsExact | os/src/sync/up.rs:20-22 | the borrow flags get through nested guards exactly when no guard is taken while its cell is held, and then all cells are free again |
| Borrows.NoDoubleBorrow | os/src/task/mod.rs:41-73 | no step of a sound kernel borrows a borrowed cell, whatever number of frames it takes or gives back |
| Borrows.ExitBorrows | os/src/task/mod.rs:41-60 | an exit panics on a borrowed cell exactly when it is the exit of `initproc` |
| Borrows.ExitSafe | os/src/task/mod.rs:45-60 | the guards of an exit are safe exactly when the task, `initproc` and the children are pairwise different as borrowed |
| Borrows.WaitSafe | os/src/syscall/process.rs:61-83 | the guards of a wait are safe exactly when the task is not its own child |
| Borrows.ForkSafe | os/src/task/task.rs:138-177 | the guards of a fork are safe exactly when child and parent differ |
| Contexts.Hart.AllTraps | os/src/trap/trap.S:12-44 | with the context page found by the walk of `satp` at `sscratch`: the 32 stores in their order, after which x1 to x31 but x4, `sstatus` and `sepc` are in the context; no other word of memory changes; kernel token, stack and handler come from the context |
| Contexts.Hart.Restore | os/src/trap/trap.S:46-69 | with the context page found by the walk of the new `satp` at a0: every register but x0 and tp, `sstatus` and `sepc` come from the context; `sscratch` points to it again |
| Contexts.TrapAndReturn | os/src/trap/trap.S:12-69 | a trap and a return on the same context give back every register but tp, `sepc` and `sstatus`, whatever the kernel did with the registers |
| TrapPath.RunningContext | os/src/task/task.rs:70-177 | with the token of the running task in `satp`, every word of the trap context is, for loads and stores in supervisor mode, in the frame `trap_cx_ppn`, whatever is written there |
| TrapPath.TrapEntry | os/src/trap/trap.S:12-44 | on a sound kernel with a running task `__alltraps` is a run of `SaveWord` steps that keeps it sound; the user registers are in the context of that task; `satp` has MODE 8, ASID 0 and the root of kernel space; sp and the jump target are the top of the task's own kernel stack and the handler |
| TrapPath.TrapReturn | os/src/trap/mod.rs:103-129 | from any registers of the kernel: user mode gets the words of the running task's context, with MODE 8, ASID 0 and the root of that task in `satp`, and is ready for the next trap |
| TrapPath.EventsKeepContext | os/src/trap/mod.rs:53-64 | over any steps of a system call but exec the running task and its space stay, and each word of its context is what was last saved there |
| TrapPath.ServeTrap | os/src/trap/mod.rs:45-129 | trap, handler and return together: a call that returns gives user mode every register back except tp and x10, which reads as the signed 64-bit result, and goes on at `sepc` + 4; a successful exec begins the new program at its entry point with its stack pointer, zeros and SPP clear |
| Contexts.Hart.Switch | os/src/task/switch.S:12-39 | ra, sp and s0 to s11 go to one context and come from the other, and no other register changes |
| Switching.SwitchFlows | os/src/task/switch.S:12-39 | `__switch` on the contexts of two flows is the exchange `Switched` of the machine of flows |
| Switching.Processor.constructor | os/src/task/context.rs:25-31 | at the start the context of `initproc` has ra at `trap_return`, sp at the top of its stack and zeros |
| Switching.Processor.RunNext | os/src/task/processor.rs:52-72 | a round of the idle loop with its switch is a dispatch step of that machine: scheduling and registers together |
| Switching.Processor.Suspend | os/src/task/mod.rs:23-39 | the same for a yield |
| Switching.Processor.Exit | os/src/task/mod.rs:41-73 | the same for an exit, whose registers go to a context that nobody uses |
| Switching.Processor.Fork | os/src/task/task.rs:138-177 | the same for a fork; by `ChildBegins` the child begins in `trap_return` at the top of its own stack |
| KernelFlows.TaskResumes | os/src/task/processor.rs:52-107 | over every run and any interleaving of the steps that `Processor` makes, a task that yields resumes with the ra, sp and s0 to s11 it had |
| KernelFlows.IdleResumes | os/src/task/processor.rs:52-72 | over every run of those steps the idle flow resumes with its registers when a task yields or exits |
| KernelFlows.ChildBegins | os/src/task/context.rs:25-31 | a forked task begins with ra at `trap_return`, sp at the top of the kernel stack of its own identifier, 2^64 - 0x1000 - 0x3000 * pid, and s0 to s11 zero |
| KernelFlows.SwitchFindsContext | os/src/task/processor.rs:52-72 | every switch a step makes finds a saved context to load |
| MemorySets.MapOne | os/src/mm/memory_set.rs:362-383 | the page gets a cleared frame of its own (or itself, when identical), the table maps it with the permissions of the area, and the space stays sound |
| MemorySets.MapPages | os/src/mm/memory_set.rs:400-406 | the loop maps exactly the pages of the area, for at most `AreaCost` frames: nodes are taken at the start of a block only |
| MemorySets.UnmapOne | os/src/mm/memory_set.rs:385-397 | the page is unmapped and its frame is free |
| MemorySets.UnmapPages | os/src/mm/memory_set.rs:408-412 | the loop unmaps exactly the pages of the area and frees exactly its frames |
| MemorySets.CopyData | os/src/mm/memory_set.rs:416-439 | every page of the area begins with its part of the data and keeps the rest, and nothing else changes |
| MemorySets.MemorySet.Push | os/src/mm/memory_set.rs:95-102 | the area is appended, loaded with its data over zeros; frames come from the free ones only, at most `AreaCost` of them; the space stays sound |
| MemorySets.MemorySet.NewWithTrampoline | os/src/mm/memory_set.rs:57-111 | a new sound space that maps the trampoline and nothing else |
| MemorySets.MemorySet.InsertFramedArea | os/src/mm/memory_set.rs:69-80 | as `Push` of a cleared framed area |
| MemorySets.MemorySet.RemoveAreaWithStartVpn | os/src/mm/memory_set.rs:81-92 | the first area with that start goes, with exactly its pages and frames; without one nothing happens |
| MemorySets.MemorySet.RecycleDataPages | os/src/mm/memory_set.rs:309-312 | the areas go and their frames are free; the table is left as it is |
| MemorySets.MemorySet.Drop | os/src/mm/memory_set.rs:45-52 | nodes and data frames are free, each once: `dealloc` never panics |
| SpaceModel.ExtendKeepsAreas | os/src/mm/memory_set.rs:362-383 | one more page at the end of an area keeps areas and table in agreement |
| SpaceModel.ShrinkKeepsAreas | os/src/mm/memory_set.rs:385-397 | one page less at the start of an area keeps areas and table in agreement |
| SpaceModel.RemoveEmpty | os/src/mm/memory_set.rs:81-92 | removing an area without pages keeps them in agreement |
| SpaceModel.PageTranslates | os/src/mm/memory_set.rs:306-308 | every page of every area translates to its frame with the permissions of the area |
| SpaceCopies.FromExistedUser | os/src/mm/memory_set.rs:274-292 | a new space with the shapes, permissions and bytes of the original, in frames that were free, at most the cost of its areas; the original keeps its bytes |
| ElfLoading.FromElf | os/src/mm/memory_set.rs:191-272 | the planned areas, each loaded with its bytes over zeros, and the stack pointer, for at most `ImageCost` frames |
| ElfLoading.PlanIsOk | os/src/mm/memory_set.rs:208-265 | an image can be loaded area by area exactly if each segment has pages, enough for its file bytes, and no two of the segments, the stack and the trap context share a page, whatever their order and alignment |
| ElfLoading.SegmentReads | os/src/mm/memory_set.rs:208-237 | through the page table the pages of each segment read, from the start of the first page on, as its file bytes followed by zeros, open to user mode with exactly the permissions of its header |
| ElfLoading.SegmentExact | os/src/mm/memory_set.rs:416-439 | so in its pages the application finds its bytes at their addresses exactly if a shift by the page offset of the segment makes no difference to them, and always if the segment begins at a page boundary |
| ElfLoading.SegmentMapped | os/src/mm/memory_set.rs:208-237 | over the header: every address from `vaddr` to `vaddr + memsz` is mapped with its permissions, and for an aligned segment reads as the file byte, or 0 beyond the file bytes |
| ElfLoading.SegmentExtent | os/src/mm/memory_set.rs:208-237 | the pages of a segment are exactly those that its addresses touch: none at or above `vaddr + memsz` |
| ElfLoading.SegmentAccess | os/src/mm/memory_set.rs:208-237 | the hardware lets user mode load, store and fetch at these addresses exactly as the header says |
| ElfLoading.StackAbove | os/src/mm/memory_set.rs:238-254 | the stack pointer is three pages above the end of the last segment, rounded up to a page |
| ElfLoading.StackAccess | os/src/mm/memory_set.rs:238-254 | the two pages below it are zeros that user mode reads and writes but does not execute |
| ElfLoading.AccessReads | os/src/mm/page_table.rs:134-172 | the byte behind an access that gets through is the one that `ReadVirtual` names, for any mode |
| ElfLoading.GuardPage | os/src/mm/memory_set.rs:238-254 | the stack reads as zeros, and the page below it is unmapped exactly if no segment has it; `max_end_vpn` is the end of the last segment in the list, not of the highest |
| UserBuffers.TranslatedByteBuffer | os/src/mm/page_table.rs:192-225 | wherever the loop can end: it panics exactly if a byte of the buffer has no leaf entry, and otherwise its slices, each inside a frame, are the locations of the bytes in order, or nothing if the sum wraps around |
| UserBuffers.BufferReturns | os/src/mm/page_table.rs:192-225 | for all 64-bit arguments, with an entry for every page looked at: the call returns exactly if the buffer is empty, ends below 2^39 or wraps around at 2^64, and returns the bytes asked for exactly in the second case |
| UserBuffers.TranslatedStr | os/src/mm/page_table.rs:227-246 | exactly the bytes before the first zero byte, across pages; a panic exactly at a byte before it that has no leaf entry or lies in a frame that the kernel cannot read, such as frame 0 behind an empty entry |
| UserBuffers.StringUnique | os/src/mm/page_table.rs:227-246 | at an address there is at most one such string, and then no panic |
| UserBuffers.RefmutTarget | os/src/mm/page_table.rs:248-257 | under the kernel's own mapping a store through the reference is possible exactly when its page belongs to an area, and goes to the frame of that page; outside the areas it is a panic, and a load is possible in the trampoline only |
| KernelAccess.StoreInPage | os/src/mm/address.rs:203-229 | bytes stored one by one in a page that the kernel maps to itself replace exactly those bytes of the frame |
| KernelAccess.KernelPageIs | os/src/mm/memory_set.rs:175-183 | what the kernel reaches behind a physical page is what the hardware reaches with the kernel's table in `satp` |
| UserBuffers.TokenRoundTrip | os/src/mm/page_table.rs:97-102 | `from_token` finds the root that `token` encodes |
| UserBuffers.TokenFields | os/src/mm/page_table.rs:185-188 | as the hardware reads it, a token has MODE 8 (Sv39), ASID 0 and the root as its page number |
| PageTables.PageTable.FindPteCreate | os/src/mm/page_table.rs:106-130 | the walk creates missing nodes from free frames, keeps the tree and every translation, and finds the entry; it takes no frame if the walk was complete, and at most two otherwise |
| PageTables.PageTable.FindPteIn | os/src/mm/page_table.rs:134-152 | the walk without creation |
| PageTables.PageTable.Map | os/src/mm/page_table.rs:156-161 | the flat map gains exactly this page with its frame and flags, and the tree stays a tree; next to a mapped page of the same block no frame is taken |
| PageTables.PageTable.Unmap | os/src/mm/page_table.rs:164-168 | the flat map loses exactly this page; no frame outside the nodes changes |
| PageTables.PageTable.TranslateIn | os/src/mm/page_table.rs:170-172 | a copy of the leaf entry, valid or not |
| PageTables.PageTable.New | os/src/mm/page_table.rs:86-94 | a cleared root taken from the free frames |
| PageTables.PageTable.Drop | os/src/mm/page_table.rs:75-82 | every node is free again, each once |
| TableModel.TranslateRefinesFlat | os/src/mm/page_table.rs:134-172 | below 2^27 the three-level walk yields a valid entry exactly for the pages of the flat map, and then that entry |
| TableModel.SetLeafEntry | os/src/mm/page_table.rs:156-168 | writing one leaf changes the translation of that page and of no other |
| TableModel.SetLeafKeepsTable | os/src/mm/page_table.rs:156-168 | writing one leaf keeps tree and flat map in agreement |
| TableModel.AddNodeKeepsTable | os/src/mm/page_table.rs:106-130 | hanging a cleared frame into the tree keeps tree and flat map in agreement |
| TableModel.NodesAreDistinct | os/src/mm/page_table.rs:75-82 | nodes reached on different paths are different frames, all held in `frames` |
| TableModel.TableFrame | os/src/mm/page_table.rs:134-172 | a table depends on its own nodes only |
| HardwareWalk.WalkAgrees | os/src/mm/page_table.rs:106-172 | on every such table the walk of section 4.3.2 of the RISC-V Privileged Specification reaches the leaf of the flat map exactly if the page is mapped with legal permissions, never a superpage, and faults otherwise |
| HardwareWalk.TranslationAgrees | os/src/mm/page_table.rs:106-172 | for whole addresses, with the check of section 4.4 that bits 63 to 39 equal bit 38: the translation is the leaf of the flat map exactly if the address is canonical and its page mapped with legal permissions, and a fault otherwise |
| HardwareWalk.PhysicalAgrees | os/src/mm/page_table.rs:12-63 | with such a table in `satp` an access gets through exactly if the address is canonical, its page mapped and the entry permits the access to the mode, and then leads to the frame and offset |
| HardwareWalk.FieldsAgree | os/src/mm/page_table.rs:9-70 | V, R, W, X, U and the page number of an entry, and the three indexes of a page, are where the hardware looks for them |
| PageTableEntries.PteRoundTrip | os/src/mm/page_table.rs:32-52 | frame number and flags survive the encoding of an entry |
| PageTableEntries.LeafPteFields | os/src/mm/page_table.rs:46-70 | the tests of a leaf entry answer the permissions it was made with |
| FrameAllocation.StackFrameAllocator.Init | os/src/mm/frame_allocator.rs:55-60 | the free frames are exactly [l, r) |
| FrameAllocation.StackFrameAllocator.Alloc | os/src/mm/frame_allocator.rs:74-89 | fails exactly if nothing is free; otherwise a free frame, the last recycled one first, is no longer free |
| FrameAllocation.StackFrameAllocator.Dealloc | os/src/mm/frame_allocator.rs:91-102 | the frame is free again and becomes the first to be handed out |
| FrameAllocation.StackFrameAllocator.RejectsExactly | os/src/mm/frame_allocator.rs:93-99 | the check of `dealloc` rejects a managed frame exactly when it is free, and misses frames below the pool |
| FrameAllocation.DeallocThenAlloc | os/src/mm/frame_allocator.rs:74-102 | the pair restores the allocator |
| FrameAllocation.Ram.FrameAlloc | os/src/mm/frame_allocator.rs:14-21 | a frame from the free ones, cleared byte by byte; no other frame changes |
| FrameAllocation.Ram.FrameDealloc | os/src/mm/frame_allocator.rs:31-38 | the frame is free again and the panic is unreachable |
| Address.Indexes | os/src/mm/address.rs:192-200 | the loop fills the array with the three indexes |
| Address.IndexesInjective | os/src/mm/address.rs:192-200 | two pages share their indexes exactly when they agree in the low 27 bits |
| PhysicalMemory.WordRoundTrip | os/src/mm/address.rs:203-229 | a 64-bit word stored as bytes reads back |
| PhysicalMemory.WordInBytes | os/src/mm/address.rs:203-229 | a word of memory is its eight bytes with the lowest first |
| PhysicalMemory.SetEntryRead | os/src/mm/address.rs:203-229 | writing one word of a frame changes that word and nothing else in memory |

## Left out

- SBI calls, console, UART, timer programming, panic handlers: input and output. `sys_write` only reads user memory
  through `translated_byte_buffer`. `sys_read` stores one byte at any mapped address of the caller, the flags of the
  page unchecked, as waitpid stores its four; it is no step of `Next`. `RefmutTarget` says which frame such a store reaches.
- The heap allocator and ELF header decoding: external crates.
- The loader's table of applications is a map from name to segments and entry point.
- CSR writes, `sfence.vma`, `fence.i`, TLB and caches: the current table is walked directly. Accessed and dirty
  bits and address space identifiers are not used by this kernel; the bits SUM and MXR of `sstatus` are taken as clear.
- `base_size`: nothing reads it but the copy in fork.
- Steps of tasks in user mode are stores through the page table and traps; instructions and loads are not modelled.
- The state after a panic; a panic is only reported.
- The instructions of the assembly routines are modelled by where each register goes, not by their encoding or
  by jumps; task contexts are objects, not words of kernel memory.
- The borrow scripts of `Borrows` are written down from the code of each step, not derived from the methods of
  `System`.
- KernelSafety.NextKeepsInv: a reaping whose pointer does not lead to four bytes of one page of user memory is no step, because
  it may break the invariant; `WaitTarget`, `WaitCrossing` and `WaitIntoContext` say exactly what it does.
- ProcessControl.System.SysWaitpid: after a store outside user memory (`WaitAstray`) it gives the memory after the store and not
  what the kernel does next, because the store may have changed the kernel's own tables.
- TrapHandling.Handle: does not take the numbers of `sys_read` and `sys_write`; the clock of `sys_get_time` is an argument; after a
  yield the task is away, and `FinishYield` is the rest of the handler.
- TrapHandling.Syscall: does not take the numbers of `sys_read` and `sys_write`.
- TrapPath.ServeTrap: does not take the numbers of `sys_read` and `sys_write`.
- UserBuffers.TranslatedByteBuffer: requires that the loop can end, since it runs on otherwise until the heap is used up or a page
  without an entry is met; `BufferReturns` says exactly when.
- UserBuffers.TranslatedStr: requires, as a ghost, how far away its end is, which `StringEnds` provides for every pointer of a
  running task; characters are the byte values, without the conversion to UTF-8.
- ElfLoading.FromElf: takes the list of LOAD segments with their file bytes, and an image must be `Loadable`. The source panics on
  the others, except that it may load a segment without a page, and may copy file bytes beyond the pages of their segment to
  the page that follows.
- SpaceCopies.FromExistedUser: requires framed areas, as all user spaces have; the copy of an identity-mapped area is not modelled.
- MemorySets.MemorySet.Push: requires that the new area meets no other, as every caller does; mapping a page twice is a panic.
- KernelBoot.LayoutIsOk: takes order and alignment of the linker symbols as given by the script.
