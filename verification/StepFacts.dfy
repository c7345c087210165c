/** What the invariant provides for each step: the facts that the operations on memory, on kernel
    stacks and on the process tree need before they are called. */
module StepFacts {
  import opened Address
  import opened PhysicalMemory
  import opened FrameAllocation
  import opened TableModel
  import opened SpaceModel
  import opened MemorySets
  import opened SpaceCopies
  import opened ElfLoading
  import opened Ledger
  import opened KernelModel
  import opened KernelSteps
  import opened KernelMemory
  import opened KernelFork
  import opened KernelExec
  import opened KernelReap
  import opened KernelSafety
  import opened KernelProcesses

  // ---- a step of the model, and the invariant after it ----

  lemma CurrentExists(l: Layout, k: Kernel)
    requires Inv(l, k) && k.current.Some?
    ensures HasCurrent(k) && CurrentTask(k).status.Running?
  {}

  lemma YieldNext(l: Layout, k: Kernel, k': Kernel)
    requires Inv(l, k) && YieldStep(k, k')
    ensures Next(l, k, Yield, k') && Inv(l, k')
  {
    hide Inv, YieldStep;
    NextKeepsInv(l, k, Yield, k');
  }

  lemma DispatchNext(l: Layout, k: Kernel, k': Kernel)
    requires Inv(l, k) && DispatchStep(k, k')
    ensures Next(l, k, Dispatch, k') && Inv(l, k')
  {
    hide Inv, DispatchStep;
    NextKeepsInv(l, k, Dispatch, k');
  }

  /** With no task running the queue has a head, and it is ready. */
  lemma HeadReady(l: Layout, k: Kernel)
    requires Inv(l, k) && k.current.None?
    ensures |k.queue| > 0 && k.queue[0] in k.tasks && k.tasks[k.queue[0]].status.Ready?
  {
    IdleFindsTask(k);
    hide TreeOk, LayoutOk, PidsOk, StacksOk, MemoryOk, Balanced, BookOf, ReadyQueued, Distinct;
  }

  lemma ExitNext(l: Layout, k: Kernel, code: int, k': Kernel)
    requires Inv(l, k) && ExitStep(k, Exit(code), k')
    ensures Next(l, k, Exit(code), k') && Inv(l, k')
  {
    hide Inv, ExitStep;
    NextKeepsInv(l, k, Exit(code), k');
  }

  /** What the operations on the running task's memory may rely on. */
  lemma CurrentFacts(l: Layout, k: Kernel)
    requires Inv(l, k) && k.current.Some?
    ensures HasCurrent(k) && k.initproc in k.tasks
    ensures SpaceOk(k.phys.mem, CurrentTask(k).space, l.tramp) && AllFramed(CurrentTask(k).space.areas)
    ensures Owned(CurrentTask(k).space) <= Pool(l) && Owned(CurrentTask(k).space) !! k.phys.free
    ensures l.tramp < TWO_44 && l.trapHandler < TWO_64
  {
    CurrentLive(l, k);
    BookFacts(l, k);
    hide NamesOk, ParentsOk, ChildrenOk, ListsOk, PidsOk, StacksOk, MemoryOk, Balanced, BookOf, SpaceOk, Owned,
         SchedOk, TaskMemoryOk, TrapPageOk, Pool;
  }

  /** The children of the running task exist; neither the task nor `initproc` is among them. */
  lemma ChildrenFacts(l: Layout, k: Kernel, i: nat)
    requires Inv(l, k) && HasCurrent(k) && i < |CurrentTask(k).children|
    ensures CurrentTask(k).children[i] in k.tasks && CurrentTask(k).children[i] != k.initproc
    ensures CurrentTask(k).children[i] != k.current.value
  {
    hide LayoutOk, PidsOk, StacksOk, MemoryOk, Balanced, BookOf, NamesOk, ListsOk, SchedOk;
    assert ChildOk(k, k.current.value, CurrentTask(k).children[i]);
    assert ParentOk(k, CurrentTask(k).children[i]);
  }

  // ---- exit ----

  /** The orphans get `initproc` as their parent, and it gets them as children. */
  function Adopt(tasks: map<nat, Task>, init: nat, orphans: seq<nat>): map<nat, Task> {
    map id | id in tasks ::
      var t := tasks[id];
      if id == init then t.(children := t.children + orphans)
      else if id in orphans then t.(parent := Some(init))
      else t
  }

  lemma AdoptNone(tasks: map<nat, Task>, init: nat)
    ensures Adopt(tasks, init, []) == tasks
  {
    assert forall id | id in tasks && id == init :: tasks[id].children + [] == tasks[id].children;
  }

  lemma AdoptOne(tasks: map<nat, Task>, init: nat, orphans: seq<nat>, child: nat)
    requires init in tasks && child in tasks && child != init
    ensures var now := Adopt(tasks, init, orphans);
            && child in now && init in now
            && Adopt(tasks, init, orphans + [child])
               == now[child := now[child].(parent := Some(init))][init :=
                   now[init].(children := now[init].children + [child])]
  {
    assert tasks[init].children + (orphans + [child]) == tasks[init].children + orphans + [child];
  }

  /** Task `c` is a zombie without children, and `initproc` has them. */
  function Retired(tasks: map<nat, Task>, init: nat, c: nat, code: int): map<nat, Task>
    requires c in tasks
  {
    var t := tasks[c].(status := Zombie, exitCode := code);
    Adopt(tasks[c := t], init, t.children)[c := t.(children := [])]
  }

  lemma RetiredTask(tasks: map<nat, Task>, init: nat, c: nat, code: int)
    requires c in tasks && c != init && c !in tasks[c].children
    ensures var t := tasks[c].(status := Zombie, exitCode := code);
            var adopted := Adopt(tasks[c := t], init, t.children);
            c in adopted && adopted[c] == t && Retired(tasks, init, c, code) == adopted[c := t.(children := [])]
    ensures Retired(tasks, init, c, code)[c].space == tasks[c].space
  {}

  lemma ExitTasks(k: Kernel, code: int, c: nat)
    requires HasCurrent(k) && c == k.current.value && c != k.initproc && c !in CurrentTask(k).children
    ensures var retired := Retired(k.tasks, k.initproc, c, code);
            AfterExit(k, code) == retired[c := retired[c].(space := retired[c].space.(areas := []))]
  {}

  // ---- fork ----

  /** The parts of a fork, put together. */
  lemma ForkNext(l: Layout, k: Kernel, e: Event, k': Kernel, child: Task, pids: Pids)
    requires Inv(l, k) && HasCurrent(k) && e.Fork? && Copied(k.phys, CurrentTask(k).space, e.copied, e.child, l.tramp)
    requires (child.pid, pids) == PidAlloc(k.pids)
    requires Pushed(e.copied, k.kspace, e.stacked, e.kspace, StackArea(child.pid), None, l.tramp)
    requires child == Task(child.pid, Ready, e.child, TrapCxPpn(e.child), k.current, [], 0)
    requires k' == Kernel(e.stacked.(mem := ForkContext(e.stacked.mem, child.trapCxPpn, KernelStackTop(child.pid))),
              e.kspace, pids,
                          WithChild(k, child), k.nextId + 1, k.queue + [k.nextId], k.current, k.initproc)
    ensures Next(l, k, e, k') && Inv(l, k')
  {
    hide Inv, Copied, Pushed, StackArea, KernelStackTop, TrapCxPpn, ForkContext, WithChild, PidAlloc;
    NextKeepsInv(l, k, e, k');
  }

  /** What the operations on kernel space may rely on. */
  lemma KernelSpaceFacts(l: Layout, k: Kernel)
    requires Inv(l, k)
    ensures SpaceOk(k.phys.mem, k.kspace, l.tramp) && k.kspace.table.root < TWO_44
    ensures Owned(k.kspace) <= Pool(l) && Owned(k.kspace) !! k.phys.free
  {
    BookFacts(l, k);
    hide LayoutOk, TreeOk, SchedOk, PidsOk, StacksOk, TaskMemoryOk, SpaceOk, Balanced, BookOf, Owned, Pool;
  }

  /** There is room in kernel space for the stack of the next process. */
  lemma StackReady(l: Layout, k: Kernel)
    requires Inv(l, k)
    ensures PidFits(PidAlloc(k.pids).0) && Apart(k.kspace.areas, StackArea(PidAlloc(k.pids).0))
  {
    PidAllocFresh(k.pids, LivePids(k.tasks));
    hide LayoutOk, TreeOk, SchedOk, PidSetOk, PidsDistinct, MemoryOk, Balanced, BookOf, StackList, Apart, PidFits,
         PidAlloc, LivePids;
    StackApart(l, k.kspace.areas, LivePids(k.tasks), PidAlloc(k.pids).0);
  }

  /** A new space built from free frames leaves every other space alone. */
  lemma BuiltApart(ph: Phys, ph': Phys, s: Space, other: Space, tramp: nat)
    requires Built(ph, ph', s, tramp) && SpaceOk(ph.mem, other, tramp) && Owned(other) !! ph.free
    ensures SpaceOk(ph'.mem, other, tramp) && Owned(other) !! ph'.free
  {
    hide AreasOk, TableOk, FrameAt, DataFrames;
    TableFrame(ph.mem, ph'.mem, other.table);
  }

  lemma CopiedApart(ph: Phys, user: Space, ph': Phys, s: Space, other: Space, tramp: nat)
    requires Copied(ph, user, ph', s, tramp) && SpaceOk(ph.mem, other, tramp) && Owned(other) !! ph.free
    ensures SpaceOk(ph'.mem, other, tramp) && Owned(other) !! ph'.free
  {
    hide Built, PageCopied, SameShape, SpaceOk, Owned;
    BuiltApart(ph, ph', s, other, tramp);
  }

  /** The copy is a user space again. */
  lemma CopiedShape(l: Layout, k: Kernel, ph': Phys, s: Space)
    requires Inv(l, k) && HasCurrent(k) && Copied(k.phys, CurrentTask(k).space, ph', s, l.tramp)
    ensures SpaceOk(ph'.mem, s, l.tramp) && UserShape(s.areas)
  {
    CurrentLive(l, k);
    hide Inv, SpaceOk, TaskMemoryOk, PageCopied;
    ShapesCopied(CurrentTask(k).space.areas, s.areas);
  }

  // ---- exec ----

  /** What is known of the space that `from_elf` has built. */
  lemma LoadedFacts(ph: Phys, ph': Phys, s: Space, segs: seq<Segment>, tramp: nat)
    requires Loadable(segs) && Loaded(ph, ph', s, Plan(segs), tramp)
    ensures SpaceOk(ph'.mem, s, tramp) && UserShape(s.areas)
    ensures StackTop(segs) < TWO_64 && ph'.free <= ph.free
  {
    StackPages(segs);
    hide TableOk, AreasOk, AreaLoaded, FrameAt, Plan, Loadable, Owned;
    PlanShape(segs, s.areas);
  }

  /** What dropping a space needs. */
  lemma DropReady(mem: Memory, s: Space, tramp: nat)
    requires SpaceOk(mem, s, tramp)
    ensures FramesOk(s.table) && ShapesOk(s.areas) && InjectiveFrames(s.areas)
    ensures DataFrames(s.areas) !! s.table.roles.Keys
  {
    hide FramesOk, ShapesOk, InjectiveFrames, DataFrames, NodesOk, FlatOk;
  }

  /** The parts of an exec, put together. */
  lemma ExecNext(l: Layout, k: Kernel, e: Event, k': Kernel, cx: nat, page: Frame)
    requires Inv(l, k) && HasCurrent(k) && e.Exec? && Loadable(e.segs) && e.entry < TWO_64 && e.sstatus < TWO_64
    requires Loaded(k.phys, e.loaded, e.space, Plan(e.segs), l.tramp) && cx == TrapCxPpn(e.space)
    requires k.kspace.table.root < TWO_44 && l.trapHandler < TWO_64 && StackTop(e.segs) < TWO_64
    requires page == ContextPage(FrameAt(e.loaded.mem, cx), e.entry, StackTop(e.segs), e.sstatus, k.kspace.table.root,
                                 KernelStackTop(CurrentTask(k).pid), l.trapHandler)
    requires k' == k.(tasks := k.tasks[k.current.value := CurrentTask(k).(space := e.space, trapCxPpn := cx)],
                      phys := Phys(e.loaded.mem[cx := page], e.loaded.free + Owned(CurrentTask(k).space)))
    ensures Next(l, k, e, k') && Inv(l, k')
  {
    hide Inv, Loaded, Loadable, Plan, TrapCxPpn, ContextPage, KernelStackTop, StackTop, Owned, FrameAt;
    NextKeepsInv(l, k, e, k');
  }

  /** The identifier of the running task has a kernel stack inside the address space. */
  lemma PidInRange(l: Layout, k: Kernel, id: nat)
    requires Inv(l, k) && id in k.tasks
    ensures PidFits(k.tasks[id].pid)
  {
    hide TreeOk, SchedOk, StacksOk, MemoryOk, Balanced, BookOf, LivePids, PidSetOk, PidsDistinct;
    PidLive(k.tasks, id);
    LivePidsBounded(l, k);
  }

  // ---- waitpid ----

  /** A zombie child at position `i` of the running task, and a place in user memory for its code. */
  ghost predicate CanReap(k: Kernel, i: nat, ptr: nat) {
    && HasCurrent(k) && i < |CurrentTask(k).children| && CurrentTask(k).children[i] in k.tasks
    && k.tasks[CurrentTask(k).children[i]].status.Zombie?
    && PointerOk(CurrentTask(k).space, ptr)
  }

  /** Storing the exit code through a pointer to user memory leaves kernel space in order. */
  lemma StoreFacts(l: Layout, k: Kernel, i: nat, ptr: nat, code: int)
    requires Inv(l, k) && CanReap(k, i, ptr) && code == k.tasks[CurrentTask(k).children[i]].exitCode
    ensures var stored := StoreExitCode(k.phys.mem, k.kspace.table.root, CurrentTask(k).space.table.root, ptr, code);
            stored.Some? && SpaceOk(stored.value, k.kspace, l.tramp)
  {
    hide LayoutOk, PidsOk, StacksOk, BookOf, Balanced, TreeOk, SchedOk, TaskMemoryOk, SpaceOk, StoreExitCode,
         StoredCode, UserPage, InSomeArea;
    UserIsArea(CurrentTask(k).space, Floor(VirtAddrFrom(ptr)));
    StoreLands(l, k, ptr, code);
    StoreKeepsResources(l, k, Reap(i, ptr, k.phys, k.kspace));
  }

  /** The identifier of a task can be recycled, and its stack is found. */
  lemma PidFacts(l: Layout, k: Kernel, z: nat)
    requires Inv(l, k) && z in k.tasks
    ensures PidFits(k.tasks[z].pid) && k.tasks[z].pid < k.pids.current && k.tasks[z].pid !in k.pids.recycled
    ensures FirstStart(k.kspace.areas, StackStart(k.tasks[z].pid)) < |k.kspace.areas|
  {
    PidLive(k.tasks, z);
    hide LayoutOk, TreeOk, SchedOk, PidSetOk, PidsDistinct, MemoryOk, Balanced, BookOf, StackList, PidFits, LivePids,
         FirstStart, StackStart;
    StackFound(l, k.kspace.areas, LivePids(k.tasks), k.tasks[z].pid);
  }

  /** What dropping a zombie needs. */
  lemma ZombieFacts(l: Layout, k: Kernel, z: nat)
    requires Inv(l, k) && z in k.tasks && k.tasks[z].status.Zombie?
    ensures FramesOk(k.tasks[z].space.table) && k.tasks[z].space.areas == []
    ensures Owned(k.tasks[z].space) <= Pool(l) && Owned(k.tasks[z].space) !! k.phys.free
    ensures Owned(k.tasks[z].space) !! Owned(k.kspace)
  {
    BookFacts(l, k);
    hide LayoutOk, TreeOk, SchedOk, PidsOk, StacksOk, Balanced, BookOf, Pool, Owned, FramesOk, NodesOk, FlatOk;
    assert TaskMemoryOk(l, k.phys.mem, k.kspace.table.root, k.tasks[z]);
  }

  lemma NoAreas(t: Table)
    ensures ShapesOk([]) && InjectiveFrames([]) && DataFrames([]) !! t.roles.Keys
  {}

  /** Frames that neither kernel space nor the allocator holds are not freed with a kernel stack. */
  lemma RemovedApart(ph: Phys, s: Space, ph': Phys, s': Space, n: nat, held: set<nat>)
    requires n < |s.areas| && Removed(ph, s, ph', s', n) && held !! ph.free && held !! Owned(s)
    ensures held !! ph'.free
  {
    hide Owned;
  }

  /** The parts of a reaping, put together. */
  lemma ReapNext(l: Layout, k: Kernel, e: Event, k': Kernel, z: nat, n: nat, stored: Phys)
    requires Inv(l, k) && e.Reap? && CanReap(k, e.index, e.ptr) && z == CurrentTask(k).children[e.index]
    requires z != k.current.value
    requires Some(stored.mem)
              == StoreExitCode(k.phys.mem, k.kspace.table.root, CurrentTask(k).space.table.root, e.ptr,
                  k.tasks[z].exitCode)
    requires stored == k.phys.(mem := stored.mem)
    requires n == FirstStart(k.kspace.areas, StackStart(k.tasks[z].pid)) && n < |k.kspace.areas|
    requires Removed(stored, k.kspace, e.removed, e.kspace, n) && SpaceOk(e.removed.mem, e.kspace, l.tramp)
    requires k' == k.(tasks := AfterReap(k, e.index), kspace := e.kspace, pids := PidDealloc(k.pids, k.tasks[z].pid),
                      phys := e.removed.(free := e.removed.free + Owned(k.tasks[z].space)))
    ensures Next(l, k, e, k') && Inv(l, k')
  {
    hide Inv, PointerOk, Removed, SpaceOk, StoreExitCode, Owned, FirstStart, StackStart, AfterReap, PidDealloc;
    NextKeepsInv(l, k, e, k');
  }

  lemma WaitFailsNext(l: Layout, k: Kernel, pid: int)
    requires HasCurrent(k)
    ensures !AnyZombie(k, pid) ==> Next(l, k, WaitFails(pid), k)
  {
    hide AnyZombie;
  }

  /** How `sys_waitpid` ends: with a result, in a panic, or with a store outside the memory that user
      mode may access, after which nothing is known. */
  datatype WaitResult = WaitReturns(r: int) | WaitPanics | WaitAstray(mem: Memory)

  /** The first matching zombie among the children is at position `i`. */
  ghost predicate FirstZombie(k: Kernel, pid: int, i: nat)
    requires HasCurrent(k)
  {
    && i < |CurrentTask(k).children| && ZombieAt(k, pid, i)
    && forall j | 0 <= j < i :: !ZombieAt(k, pid, j)
  }

  /** The store of the exit code of the child at position `i`. */
  function WaitStore(k: Kernel, i: nat, ptr: nat): Option<Memory>
    requires HasCurrent(k) && i < |CurrentTask(k).children| && CurrentTask(k).children[i] in k.tasks
  {
    StoreExitCode(k.phys.mem, k.kspace.table.root, CurrentTask(k).space.table.root, ptr,
        k.tasks[CurrentTask(k).children[i]].exitCode)
  }

  /** The outcome when a matching zombie is there: the first one is reaped if the pointer leads to user
      memory; otherwise the store decides. */
  ghost predicate WaitOutcome(k: Kernel, pid: int, ptr: nat, out: WaitResult, e: Event)
    requires HasCurrent(k)
  {
    && e.Reap? && e.ptr == ptr && FirstZombie(k, pid, e.index)
    && out == (if PointerOk(CurrentTask(k).space, ptr) then WaitReturns(k.tasks[CurrentTask(k).children[e.index]].pid)
               else match WaitStore(k, e.index, ptr) case None => WaitPanics case Some(m) => WaitAstray(m))
  }

  lemma ReapTasks(k: Kernel, i: nat, z: nat, c: nat)
    requires HasCurrent(k) && c == k.current.value && i < |CurrentTask(k).children| && z == CurrentTask(k).children[i]
    requires z != c
    ensures AfterReap(k, i) == k.tasks[c := k.tasks[c].(children := RemoveAt(k.tasks[c].children, i))] - {z}
  {
    hide RemoveAt;
  }
}
