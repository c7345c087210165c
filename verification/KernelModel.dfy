/** The whole kernel as a value: memory, the kernel address space, the process identifiers, the
    tasks, the ready queue and the processor (os/src/task, os/src/config.rs), and the invariant
    that every run keeps. */
module KernelModel {
  import opened Address
  import opened PhysicalMemory
  import opened FrameAllocation
  import opened TableModel
  import opened SpaceModel
  import opened SpaceCopies
  import opened UserBuffers
  import opened Ledger

  datatype TaskStatus = Ready | Running | Zombie

  /** `TaskControlBlock` with its inner part. Tasks are named by identities that are never used
      again; a process identifier, by contrast, is recycled. */
  datatype Task = Task(pid: nat, status: TaskStatus, space: Space, trapCxPpn: nat, parent: Option<nat>,
                       children: seq<nat>, exitCode: int)

  /** `PidAllocator` */
  datatype Pids = Pids(current: nat, recycled: seq<nat>)

  /** What the linker script and the board fix: the frames [lo, hi) the allocator manages, the
      trampoline frame, the identity-mapped sections and the address of `trap_handler`. */
  datatype Layout = Layout(lo: nat, hi: nat, tramp: nat, sections: seq<MapArea>, trapHandler: nat)

  datatype Kernel = Kernel(phys: Phys, kspace: Space, pids: Pids, tasks: map<nat, Task>, nextId: nat,
                           queue: seq<nat>, current: Option<nat>, initproc: nat)

  /** The page after the last frame of memory, `MEMORY_END`. */
  const MEMORY_END_PPN: nat := 0x8_0800

  ghost predicate LayoutOk(l: Layout) {
    && 0 < l.lo <= l.hi <= MEMORY_END_PPN && l.tramp < l.lo && l.trapHandler < TWO_64
    && |l.sections| == 5
    && (forall i | 0 <= i < 5 ::
          AreaShape(l.sections[i]) && l.sections[i].kind.Identical? && 0 < l.sections[i].start
              && l.sections[i].end <= l.hi)
    && l.sections[0].perm == RX && Covers(l.sections[0], l.tramp)
    && DisjointAreas(l.sections)
    && l.sections[4] == MapArea(l.lo, l.hi, map[], Identical, RW)
  }

  ghost function Pool(l: Layout): set<nat> { Pages(l.lo, l.hi) }

  // ---- kernel stacks ----

  /** `kernel_stack_position`: (bottom, top) of the kernel stack of a process. */
  function KernelStackPosition(pid: nat): (nat, nat)
    requires pid * (KERNEL_STACK_SIZE + PAGE_SIZE) + KERNEL_STACK_SIZE <= TRAMPOLINE
  {
    var top := TRAMPOLINE - pid * (KERNEL_STACK_SIZE + PAGE_SIZE);
    (top - KERNEL_STACK_SIZE, top)
  }

  /** Identifiers whose stacks lie wholly inside the 39-bit address space. */
  predicate PidFits(pid: nat) { 3 * pid + 2 <= TRAMPOLINE_VPN }

  function StackStart(pid: nat): nat { if PidFits(pid) then TRAMPOLINE_VPN - 3 * pid - 2 else 0 }

  function KernelStackTop(pid: nat): (top: nat)
    ensures top < TWO_64
  {
    if PidFits(pid) then TRAMPOLINE - pid * (KERNEL_STACK_SIZE + PAGE_SIZE) else 0
  }

  /** The area that `KernelStack::new` inserts. */
  function StackArea(pid: nat): MapArea {
    MapArea(StackStart(pid), StackStart(pid) + 2, map[], Framed, RW)
  }

  /** After the truncation to 39 bits the stack of `pid` is the two pages from `StackStart(pid)` on. */
  lemma StackPosition(pid: nat)
    requires PidFits(pid)
    ensures var (bottom, top) := KernelStackPosition(pid);
            && Floor(VirtAddrFrom(bottom)) == StackStart(pid) && Ceil(VirtAddrFrom(top)) == StackStart(pid) + 2
            && VirtAddrFrom(bottom) <= VirtAddrFrom(top) <= TRAMPOLINE_VPN * PAGE_SIZE
            && VirtAddrFrom(bottom) % PAGE_SIZE == 0 && top == KernelStackTop(pid)
  {
    var (bottom, top) := KernelStackPosition(pid);
    var a := StackStart(pid);
    assert bottom == (TWO_64 - TWO_39) + a * PAGE_SIZE;
    assert top == (TWO_64 - TWO_39) + (a + 2) * PAGE_SIZE;
    assert (TWO_64 - TWO_39) % TWO_39 == 0;
    assert VirtAddrFrom(bottom) == a * PAGE_SIZE;
    assert VirtAddrFrom(top) == (a + 2) * PAGE_SIZE;
  }

  /** Stacks of different processes do not overlap and a page stays free below each of them. */
  lemma StacksApart(p: nat, q: nat, v: nat)
    requires p != q && PidFits(p) && PidFits(q) && Covers(StackArea(p), v)
    ensures !Covers(StackArea(q), v) && v + 1 < VPN_LIMIT
    ensures !Covers(StackArea(q), StackStart(p) - 1) && !Covers(StackArea(p), StackStart(p) - 1)
  {}

  ghost predicate IsStack(a: MapArea, pid: nat) {
    a == StackArea(pid).(frames := a.frames)
  }

  ghost predicate HasStack(areas: seq<MapArea>, pid: nat) {
    exists i :: 5 <= i < |areas| && IsStack(areas[i], pid)
  }

  ghost function LivePids(tasks: map<nat, Task>): set<nat> {
    set id | id in tasks :: tasks[id].pid
  }

  // ---- the invariant, part by part ----

  /** Parents and children name each other, every chain of parents leads to `initproc`, and
      zombies have no children. */
  ghost predicate TreeOk(k: Kernel) {
    RootOk(k) && NamesOk(k) && ParentsOk(k) && ChildrenOk(k) && ListsOk(k)
  }

  ghost predicate RootOk(k: Kernel) {
    k.initproc in k.tasks && k.tasks[k.initproc].parent.None? && !k.tasks[k.initproc].status.Zombie?
  }

  ghost predicate NamesOk(k: Kernel) {
    forall id | id in k.tasks :: k.initproc <= id < k.nextId
  }

  ghost predicate ParentsOk(k: Kernel) {
    forall id {:trigger ParentOk(k, id)} | id in k.tasks && id != k.initproc :: ParentOk(k, id)
  }

  ghost predicate ChildrenOk(k: Kernel) {
    forall p, i | p in k.tasks && 0 <= i < |k.tasks[p].children| :: ChildOk(k, p, k.tasks[p].children[i])
  }

  ghost predicate ListsOk(k: Kernel) {
    forall p | p in k.tasks ::
        Distinct(k.tasks[p].children) && (k.tasks[p].status.Zombie? ==> k.tasks[p].children == [])
  }

  ghost predicate ParentOk(k: Kernel, id: nat)
    requires id in k.tasks
  {
    && k.tasks[id].parent.Some?
    && var p := k.tasks[id].parent.value;
       p in k.tasks && p < id && id in k.tasks[p].children
  }

  ghost predicate ChildOk(k: Kernel, p: nat, c: nat) {
    c in k.tasks && k.tasks[c].parent == Some(p)
  }

  ghost predicate Distinct(s: seq<nat>) {
    forall i, j | 0 <= i < j < |s| :: s[i] != s[j]
  }

  /** The processor runs the running task; the queue holds each ready task once. */
  ghost predicate SchedOk(k: Kernel) { QueueOk(k) && ReadyQueued(k) && CurrentOk(k) }

  ghost predicate QueueOk(k: Kernel) {
    Distinct(k.queue) && forall i | 0 <= i < |k.queue| :: k.queue[i] in k.tasks && k.tasks[k.queue[i]].status.Ready?
  }

  ghost predicate ReadyQueued(k: Kernel) {
    forall id | id in k.tasks && k.tasks[id].status.Ready? :: id in k.queue
  }

  ghost predicate CurrentOk(k: Kernel) {
    && (k.current.Some? ==> k.current.value in k.tasks && k.tasks[k.current.value].status.Running?)
    && (forall id | id in k.tasks && k.tasks[id].status.Running? :: k.current == Some(id))
  }

  /** Identifiers in use are distinct, and are those handed out and not recycled. */
  ghost predicate PidsOk(l: Layout, k: Kernel) {
    PidSetOk(k.pids, LivePids(k.tasks)) && PidsDistinct(k.tasks) && 2 * k.pids.current <= l.hi - l.lo
  }

  ghost predicate PidSetOk(p: Pids, live: set<nat>) {
    && Distinct(p.recycled) && (forall i | 0 <= i < |p.recycled| :: p.recycled[i] < p.current)
    && live == Pages(0, p.current) - Elements(p.recycled)
  }

  ghost predicate PidsDistinct(tasks: map<nat, Task>) {
    forall a, b | a in tasks && b in tasks && tasks[a].pid == tasks[b].pid :: a == b
  }

  /** Kernel space is the sections followed by the stacks of the processes that exist. */
  ghost predicate StacksOk(l: Layout, k: Kernel) {
    StackList(l, k.kspace.areas, LivePids(k.tasks))
  }

  ghost predicate StackList(l: Layout, areas: seq<MapArea>, live: set<nat>) {
    && |areas| >= 5 && areas[..5] == l.sections
    && (forall i | 5 <= i < |areas| :: StackOfOne(areas[i], live))
    && (forall pid | pid in live :: HasStack(areas, pid))
  }

  ghost predicate StackOfOne(a: MapArea, live: set<nat>) {
    exists pid :: pid in live && IsStack(a, pid)
  }

  /** All areas of a user space are framed and open to user mode, except the last: the trap context. */
  ghost predicate UserShape(areas: seq<MapArea>) {
    && |areas| > 0 && AllFramed(areas)
    && (forall i | 0 <= i < |areas| - 1 :: areas[i].perm.u)
    && var a := areas[|areas| - 1]; a == MapArea(TRAP_CONTEXT_VPN, TRAMPOLINE_VPN, a.frames, Framed, RW)
  }

  /** Words of the trap context that name the kernel: its page table, stack and handler. */
  ghost predicate TrapContextOk(l: Layout, mem: Memory, kroot: nat, t: Task) {
    && Entry(mem, t.trapCxPpn, 34) == Token(kroot)
    && Entry(mem, t.trapCxPpn, 35) == KernelStackTop(t.pid)
    && Entry(mem, t.trapCxPpn, 36) == l.trapHandler
  }

  /** The trap context page of the task's own space is where the task says. */
  ghost predicate TrapPageOk(t: Task) {
    && UserShape(t.space.areas)
    && var a := t.space.areas[|t.space.areas| - 1];
       TRAP_CONTEXT_VPN in a.frames && a.frames[TRAP_CONTEXT_VPN] == t.trapCxPpn
  }

  /** The memory of one task. The table of a zombie is still a table, but stale. */
  ghost predicate TaskMemoryOk(l: Layout, mem: Memory, kroot: nat, t: Task) {
    if t.status.Zombie? then t.space.areas == [] && TableOk(mem, t.space.table)
    else SpaceOk(mem, t.space, l.tramp) && TrapPageOk(t) && TrapContextOk(l, mem, kroot, t)
  }

  ghost predicate MemoryOk(l: Layout, k: Kernel) {
    && SpaceOk(k.phys.mem, k.kspace, l.tramp)
    && (forall id {:trigger TaskMemoryOk(l, k.phys.mem, k.kspace.table.root, k.tasks[id])} | id in k.tasks ::
          TaskMemoryOk(l, k.phys.mem, k.kspace.table.root, k.tasks[id]))
  }

  ghost function Owners(k: Kernel): set<Owner> {
    {KernelSpace} + set id | id in k.tasks :: TaskSpace(id)
  }

  ghost function OwnedBy(k: Kernel, o: Owner): set<nat> {
    match o
    case KernelSpace => Owned(k.kspace)
    case TaskSpace(id) => if id in k.tasks then Owned(k.tasks[id].space) else {}
  }

  ghost function BookOf(k: Kernel): Book {
    Book(k.phys.free, map o | o in Owners(k) :: OwnedBy(k, o))
  }

  /** The invariant of the kernel between two steps. */
  ghost predicate Inv(l: Layout, k: Kernel) {
    && LayoutOk(l) && TreeOk(k) && SchedOk(k) && PidsOk(l, k) && StacksOk(l, k)
    && MemoryOk(l, k) && Balanced(BookOf(k), Pool(l))
  }
}
