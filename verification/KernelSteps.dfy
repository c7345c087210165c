/** The steps of the kernel: scheduling, the process system calls and what user mode may do
    (os/src/task/mod.rs, os/src/task/task.rs, os/src/task/processor.rs, os/src/syscall/process.rs,
    os/src/trap/mod.rs). Where a step works on memory it is described by the relations that the
    operations on address spaces establish; an event carries the states in between. */
module KernelSteps {
  import opened Address
  import opened PhysicalMemory
  import opened PageTableEntries
  import opened FrameAllocation
  import opened TableModel
  import opened HardwareWalk
  import opened SpaceModel
  import opened MemorySets
  import opened SpaceCopies
  import opened ElfLoading
  import opened UserBuffers
  import opened KernelAccess
  import opened KernelModel

  datatype Event =
    | Dispatch
    | Yield
    | Exit(code: int)
    | Fork(copied: Phys, child: Space, stacked: Phys, kspace: Space)
    | Exec(segs: seq<Segment>, entry: nat, sstatus: nat, loaded: Phys, space: Space)
    | Reap(index: nat, ptr: nat, removed: Phys, kspace: Space)
    | WaitFails(pid: int)
    | UserStore(va: nat, value: Byte)
    | SaveWord(i: nat, w: nat)

  // ---- process identifiers ----

  /** `PidAllocator::alloc`: the identifier and the allocator afterwards. */
  function PidAlloc(p: Pids): (nat, Pids) {
    var n := |p.recycled|;
    if n > 0 then (p.recycled[n - 1], p.(recycled := p.recycled[..n - 1]))
    else (p.current, p.(current := p.current + 1))
  }

  function PidDealloc(p: Pids, pid: nat): Pids { p.(recycled := p.recycled + [pid]) }

  // ---- trap contexts ----

  /** The frame that the space holds for its trap context page, the page of its last area. */
  function TrapCxPpn(s: Space): nat {
    var n := |s.areas|;
    if n > 0 && TRAP_CONTEXT_VPN in s.areas[n - 1].frames then s.areas[n - 1].frames[TRAP_CONTEXT_VPN] else 0
  }

  /** `set_spp(SPP::User)`: bit 8 is clear and the others stay. */
  function UserStatus(sstatus: nat): (r: nat)
    ensures r / 0x100 % 2 == 0 && (r == sstatus || r + 0x100 == sstatus)
  {
    if sstatus / 0x100 % 2 == 1 then sstatus - 0x100 else sstatus
  }

  /** The words of `TrapContext::app_init_context`. */
  function InitialContext(entry: nat, sp: nat, sstatus: nat, ksatp: nat, ksp: nat, handler: nat): seq<nat> {
    seq(32, i => if i == 2 then sp else 0) + [sstatus, entry, ksatp, ksp, handler]
  }

  /** Words stored one after the other from word `i` on. */
  function StoreWords(f: Frame, i: nat, ws: seq<nat>): Frame
    requires i + |ws| <= 512 && forall k | 0 <= k < |ws| :: ws[k] < TWO_64
    decreases |ws|
  {
    if ws == [] then f else StoreWords(PutWord(f, i, ws[0]), i + 1, ws[1..])
  }

  /** The page of a trap context that `app_init_context` has just been written to. */
  function ContextPage(f: Frame, entry: nat, sp: nat, sstatus: nat, kroot: nat, ksp: nat, handler: nat): Frame
    requires entry < TWO_64 && sp < TWO_64 && sstatus < TWO_64 && kroot < TWO_44 && ksp < TWO_64 && handler < TWO_64
  {
    var ws := InitialContext(entry, sp, UserStatus(sstatus), Token(kroot), ksp, handler);
    assert forall k | 0 <= k < |ws| :: ws[k] < TWO_64;
    StoreWords(f, 0, ws)
  }

  lemma {:induction false} StoreWordsRead(f: Frame, i: nat, ws: seq<nat>, j: nat)
    requires i + |ws| <= 512 && j < 512 && forall k | 0 <= k < |ws| :: ws[k] < TWO_64
    ensures Word(StoreWords(f, i, ws), j) == if i <= j < i + |ws| then ws[j - i] else Word(f, j)
    decreases |ws|
  {
    hide Word, PutWord;
    if ws != [] {
      StoreWordsRead(PutWord(f, i, ws[0]), i + 1, ws[1..], j);
      PutWordRead(f, i, ws[0], j);
    }
  }

  // ---- the tasks after a step ----

  function CurrentTask(k: Kernel): Task
    requires k.current.Some? && k.current.value in k.tasks
  {
    k.tasks[k.current.value]
  }

  predicate HasCurrent(k: Kernel) { k.current.Some? && k.current.value in k.tasks }

  function SetStatus(k: Kernel, id: nat, s: TaskStatus): map<nat, Task>
    requires id in k.tasks
  {
    k.tasks[id := k.tasks[id].(status := s)]
  }

  /** A new child of the current task. */
  function WithChild(k: Kernel, child: Task): map<nat, Task>
    requires HasCurrent(k)
  {
    var c := k.current.value;
    k.tasks[c := k.tasks[c].(children := k.tasks[c].children + [k.nextId])][k.nextId := child]
  }

  /** The current task is a zombie without areas, and `initproc` has its children. */
  function AfterExit(k: Kernel, code: int): map<nat, Task>
    requires HasCurrent(k)
  {
    var c := k.current.value;
    map id | id in k.tasks ::
      var t := k.tasks[id];
      if id == c then t.(status := Zombie, exitCode := code, children := [], space := t.space.(areas := []))
      else if id == k.initproc then t.(children := t.children + k.tasks[c].children)
      else if id in k.tasks[c].children then t.(parent := Some(k.initproc))
      else t
  }

  function RemoveAt(s: seq<nat>, i: nat): seq<nat>
    requires i < |s|
  {
    s[..i] + s[i + 1..]
  }

  /** The child at position `i` of the current task is gone. */
  function AfterReap(k: Kernel, i: nat): map<nat, Task>
    requires HasCurrent(k) && i < |CurrentTask(k).children|
  {
    var c := k.current.value;
    (k.tasks - {CurrentTask(k).children[i]})[c := CurrentTask(k).(children := RemoveAt(CurrentTask(k).children, i))]
  }

  // ---- waitpid ----

  /** `pid == -1 || pid as usize == p.getpid()` */
  predicate Matches(pid: int, t: Task) { pid == -1 || pid == t.pid }

  /** Some child of the current task matches. */
  predicate AnyChild(k: Kernel, pid: int)
    requires HasCurrent(k)
  {
    exists i :: 0 <= i < |CurrentTask(k).children| && CurrentTask(k).children[i] in k.tasks
        && Matches(pid, k.tasks[CurrentTask(k).children[i]])
  }

  predicate ZombieAt(k: Kernel, pid: int, i: nat)
    requires HasCurrent(k) && i < |CurrentTask(k).children|
  {
    var c := CurrentTask(k).children[i];
    c in k.tasks && k.tasks[c].status.Zombie? && Matches(pid, k.tasks[c])
  }

  predicate AnyZombie(k: Kernel, pid: int)
    requires HasCurrent(k)
  {
    exists i :: 0 <= i < |CurrentTask(k).children| && ZombieAt(k, pid, i)
  }

  // ---- the steps ----

  /** `run_tasks`: the first task of the queue runs. */
  ghost predicate DispatchStep(k: Kernel, k': Kernel) {
    && k.current.None? && |k.queue| > 0 && k.queue[0] in k.tasks
    && k' == k.(tasks := SetStatus(k, k.queue[0], Running), queue := k.queue[1..], current := Some(k.queue[0]))
  }

  /** `suspend_current_and_run_next` */
  ghost predicate YieldStep(k: Kernel, k': Kernel) {
    && HasCurrent(k)
    && k' == k.(tasks := SetStatus(k, k.current.value, Ready), queue := k.queue + [k.current.value], current := None)
  }

  /** `exit_current_and_run_next`, by any task but `initproc`. */
  ghost predicate ExitStep(k: Kernel, e: Event, k': Kernel)
    requires e.Exit?
  {
    && HasCurrent(k) && k.current.value != k.initproc && k.initproc in k.tasks
    && k' == k.(tasks := AfterExit(k, e.code), current := None,
                phys := k.phys.(free := k.phys.free + DataFrames(CurrentTask(k).space.areas)))
  }

  /** Memory after `fork` has set `kernel_sp` and `sys_fork` has set x10 of the child's context. */
  function ForkContext(mem: Memory, cx: nat, ksp: nat): Memory
    requires ksp < TWO_64
  {
    SetEntry(SetEntry(mem, cx, 35, ksp), cx, 10, 0)
  }

  ghost predicate ForkStep(l: Layout, k: Kernel, e: Event, k': Kernel)
    requires e.Fork?
  {
    hide Copied, Pushed, StackArea, PtePpn, EntryOf, SetEntry, KernelStackTop;
    && HasCurrent(k)
    && Copied(k.phys, CurrentTask(k).space, e.copied, e.child, l.tramp)
    && var (pid, pids) := PidAlloc(k.pids);
       && Pushed(e.copied, k.kspace, e.stacked, e.kspace, StackArea(pid), None, l.tramp)
       && var cx := TrapCxPpn(e.child);
          && var child := Task(pid, Ready, e.child, cx, k.current, [], 0);
             k' == Kernel(e.stacked.(mem := ForkContext(e.stacked.mem, cx, KernelStackTop(pid))), e.kspace, pids,
                          WithChild(k, child), k.nextId + 1, k.queue + [k.nextId], k.current, k.initproc)
  }

  /** `exec`: the new space is complete before the old one is dropped. */
  ghost predicate ExecStep(l: Layout, k: Kernel, e: Event, k': Kernel)
    requires e.Exec?
  {
    hide Loaded, Loadable, Plan, PtePpn, EntryOf, ContextPage, KernelStackTop, StackTop, Owned;
    && HasCurrent(k) && Loadable(e.segs) && e.entry < TWO_64 && e.sstatus < TWO_64
    && Loaded(k.phys, e.loaded, e.space, Plan(e.segs), l.tramp)
    && k.kspace.table.root < TWO_44 && l.trapHandler < TWO_64 && StackTop(e.segs) < TWO_64
    && var cx := TrapCxPpn(e.space);
       && var t := CurrentTask(k);
          && var page :=
              ContextPage(FrameAt(e.loaded.mem, cx), e.entry, StackTop(e.segs), e.sstatus, k.kspace.table.root,
                                     KernelStackTop(t.pid), l.trapHandler);
             k' == k.(tasks := k.tasks[k.current.value := t.(space := e.space, trapCxPpn := cx)],
                      phys := Phys(e.loaded.mem[cx := page], e.loaded.free + Owned(t.space)))
  }

  /** The exit code of a child, as the four bytes that `sys_waitpid` stores. */
  function ExitCodeBytes(code: int): (b: seq<Byte>)
    ensures |b| == 4 && (Four(b[0], b[1], b[2], b[3]) - code) % 0x1_0000_0000 == 0
  {
    FourBytes(code % 0x1_0000_0000);
    Bytes(code % 0x1_0000_0000, 4)
  }

  /** Page `v` belongs to an area that is open to user mode. */
  predicate InUserArea(areas: seq<MapArea>, v: nat) {
    exists i :: 0 <= i < |areas| && Covers(areas[i], v) && areas[i].perm.u
  }

  predicate UserPage(s: Space, v: nat) { InUserArea(s.areas, v) }

  /** Memory after the exit code has been stored through `translated_refmut`, wherever the pointer leads:
      four bytes from the physical address on. `None` stands for a panic. */
  function StoreExitCode(mem: Memory, kroot: nat, root: nat, ptr: nat, code: int): Option<Memory> {
    match TranslateVa(mem, root, ptr)
    case None => None
    case Some(pa) => if pa == 0 then None else StoreBytes(mem, mem, kroot, pa, ExitCodeBytes(code))
  }

  /** A pointer to four bytes of one page that user mode may access. */
  ghost predicate PointerOk(s: Space, ptr: nat) {
    UserPage(s, Floor(VirtAddrFrom(ptr))) && PageOffset(ptr) + 4 <= PAGE_SIZE
  }

  /** `sys_waitpid` that finds a zombie: the code is stored, the child is dropped, and with it go
      its identifier, its kernel stack and its page table. Here the pointer is one to user memory;
      `WaitPointers` is about all others. */
  ghost predicate ReapStep(l: Layout, k: Kernel, e: Event, k': Kernel)
    requires e.Reap?
  {
    && HasCurrent(k) && e.index < |CurrentTask(k).children|
    && var z := CurrentTask(k).children[e.index];
       && z in k.tasks && z != k.current.value && k.tasks[z].status.Zombie?
       && PointerOk(CurrentTask(k).space, e.ptr)
       && var stored :=
           StoreExitCode(k.phys.mem, k.kspace.table.root, CurrentTask(k).space.table.root, e.ptr, k.tasks[z].exitCode);
          && stored.Some?
          && var n := FirstStart(k.kspace.areas, StackStart(k.tasks[z].pid));
             && n < |k.kspace.areas| && Removed(k.phys.(mem := stored.value), k.kspace, e.removed, e.kspace, n)
             && SpaceOk(e.removed.mem, e.kspace, l.tramp)
             && k' == k.(tasks := AfterReap(k, e.index), kspace := e.kspace, pids := PidDealloc(k.pids, k.tasks[z].pid),
                         phys := e.removed.(free := e.removed.free + Owned(k.tasks[z].space)))
  }

  /** What `satp` holds while the running task is in user mode. */
  function CurrentSatp(k: Kernel): nat
    requires HasCurrent(k)
  {
    Token(CurrentTask(k).space.table.root)
  }

  /** The running task stores one byte wherever the hardware lets user mode store. */
  ghost predicate UserStoreStep(k: Kernel, e: Event, k': Kernel)
    requires e.UserStore?
  {
    && HasCurrent(k)
    && var pa := Physical(k.phys.mem, CurrentSatp(k), e.va, Store, User);
       && pa.Some?
       && k' == k.(phys := k.phys.(mem := StoreByte(k.phys.mem, pa.value, e.value)))
  }

  /** Memory after a byte has been stored at a physical address. */
  function StoreByte(mem: Memory, pa: nat, b: Byte): Memory {
    mem[pa / 0x1000 := PutByte(FrameAt(mem, pa / 0x1000), pa % 0x1000, b)]
  }

  /** A trap saves a user register, `sstatus` or `sepc`, or the handler advances `sepc` or sets x10:
      one word below 34 of the running task's context changes. */
  ghost predicate SaveWordStep(k: Kernel, e: Event, k': Kernel)
    requires e.SaveWord?
  {
    && HasCurrent(k) && e.i < 34 && e.w < TWO_64
    && k' == k.(phys := k.phys.(mem := SetEntry(k.phys.mem, CurrentTask(k).trapCxPpn, e.i, e.w)))
  }

  ghost predicate Next(l: Layout, k: Kernel, e: Event, k': Kernel) {
    match e
    case Dispatch => DispatchStep(k, k')
    case Yield => YieldStep(k, k')
    case Exit(_) => ExitStep(k, e, k')
    case Fork(_, _, _, _) => ForkStep(l, k, e, k')
    case Exec(_, _, _, _, _) => ExecStep(l, k, e, k')
    case Reap(_, _, _, _) => ReapStep(l, k, e, k')
    case WaitFails(pid) => HasCurrent(k) && !AnyZombie(k, pid) && k' == k
    case UserStore(_, _) => UserStoreStep(k, e, k')
    case SaveWord(_, _) => SaveWordStep(k, e, k')
  }
}
