/** Reaping a zombie in `sys_waitpid`: its identifier, kernel stack and page table are given back
    (os/src/syscall/process.rs, os/src/task/pid.rs). */
module KernelReap {
  import opened Address
  import opened PhysicalMemory
  import opened PageTableEntries
  import opened FrameAllocation
  import opened TableModel
  import opened SpaceModel
  import opened MemorySets
  import opened SpaceCopies
  import opened UserBuffers
  import opened KernelAccess
  import opened Ledger
  import opened KernelModel
  import opened KernelSteps
  import opened KernelMemory
  import opened KernelFork

  function Victim(k: Kernel, e: Event): nat
    requires e.Reap? && HasCurrent(k) && e.index < |CurrentTask(k).children|
  {
    CurrentTask(k).children[e.index]
  }

  // ---- the exit code ----

  /** The frame behind an address of an area is a data frame, and `translate` finds it. */
  lemma AreaPageFrame(mem: Memory, s: Space, tramp: nat, va: nat)
    requires SpaceOk(mem, s, tramp) && AllFramed(s.areas) && InSomeArea(s.areas, Floor(va))
    ensures var f := Location(mem, s.table.root, va).0;
            && f in DataFrames(s.areas) && f in Owned(s) && f !in s.table.roles
            && Translate(mem, s.table.root, Floor(va)).Some?
                && PtePpn(Translate(mem, s.table.root, Floor(va)).value) == f
  {
    hide TableOk, AreasOk, LeafPte, PtePpn, DataFrames, Translate, Floor;
    var i :| 0 <= i < |s.areas| && Covers(s.areas[i], Floor(va));
    FramedPage(mem, s, tramp, i, Floor(va));
  }

  /** The frame behind an address of user memory is not the trap context. */
  lemma UserPageFrame(l: Layout, mem: Memory, kroot: nat, t: Task, va: nat)
    requires TaskMemoryOk(l, mem, kroot, t) && !t.status.Zombie? && UserPage(t.space, Floor(va))
    ensures var f := Location(mem, t.space.table.root, va).0;
            f in Owned(t.space) && f != t.trapCxPpn && f !in t.space.table.roles
  {
    hide TableOk, AreasOk, TrapContextOk, TrapPageOk, LeafPte, PtePpn, DataFrames, Translate, Floor, AllFramed,
         InjectiveFrames;
    var s, v := t.space, Floor(va);
    var i :| 0 <= i < |s.areas| && Covers(s.areas[i], v) && s.areas[i].perm.u;
    TrapArea(t, i);
    FramedPage(mem, s, l.tramp, i, v);
    AreasParts(s, l.tramp);
    assert i != |s.areas| - 1;
  }

  /** Memory after the exit code has been stored in the page of the pointer. */
  function StoredCode(mem: Memory, root: nat, ptr: nat, code: int): Memory
    requires PageOffset(ptr) + 4 <= PAGE_SIZE
  {
    hide PtePpn, EntryOf, Floor;
    var p := Location(mem, root, VirtAddrFrom(ptr)).0;
    mem[p := PutBytes(FrameAt(mem, p), PageOffset(ptr), ExitCodeBytes(code))]
  }

  /** The kernel after the exit code has been stored. */
  function AfterStore(k: Kernel, e: Event): Kernel
    requires e.Reap? && HasCurrent(k) && e.index < |CurrentTask(k).children| && Victim(k, e) in k.tasks
    requires PageOffset(e.ptr) + 4 <= PAGE_SIZE
  {
    k.(phys := k.phys.(mem :=
        StoredCode(k.phys.mem, CurrentTask(k).space.table.root, e.ptr, k.tasks[Victim(k, e)].exitCode)))
  }

  ghost predicate ReapReady(k: Kernel, e: Event) {
    && e.Reap? && HasCurrent(k) && e.index < |CurrentTask(k).children| && Victim(k, e) in k.tasks
    && PointerOk(CurrentTask(k).space, e.ptr)
  }

  /** Through a pointer into a page of an area, four bytes before its end or more, the store goes to the
      frame of that page. */
  lemma StoreLands(l: Layout, k: Kernel, ptr: nat, code: int)
    requires LayoutOk(l) && ResourcesOk(l, k) && SchedOk(k) && HasCurrent(k)
    requires InSomeArea(CurrentTask(k).space.areas, Floor(VirtAddrFrom(ptr))) && PageOffset(ptr) + 4 <= PAGE_SIZE
    ensures var root := CurrentTask(k).space.table.root;
            StoreExitCode(k.phys.mem, k.kspace.table.root, root, ptr, code)
                == Some(StoredCode(k.phys.mem, root, ptr, code))
  {
    hide SchedOk, TaskMemoryOk, SpaceOk, TrapPageOk, DataFrames, PutBytes, FrameAt, ExitCodeBytes, PidsOk, StacksOk,
         Balanced, BookOf, VirtAddrFrom, Floor, InSomeArea, MemoryOk, LayoutOk, StoreBytes, Owned, Translate, PtePpn,
         Pool, EntryOf, PageOffset, AllFramed;
    CurrentLive(l, k);
    BookFacts(l, k);
    var t := CurrentTask(k);
    AreaPageFrame(k.phys.mem, t.space, l.tramp, VirtAddrFrom(ptr));
    SameOffset(ptr);
    var f := Location(k.phys.mem, t.space.table.root, VirtAddrFrom(ptr)).0;
    PoolReached(l, k, f, true);
    assert f > 0 by { PoolEdge(l, f); }
    StoreInPage(k.phys.mem, k.phys.mem, k.kspace.table.root, f, PageOffset(ptr), ExitCodeBytes(code));
  }

  lemma UserIsArea(s: Space, v: nat)
    requires UserPage(s, v)
    ensures InSomeArea(s.areas, v)
  {}

  lemma SameOffset(ptr: nat)
    ensures PageOffset(VirtAddrFrom(ptr)) == PageOffset(ptr)
  {}

  lemma StoreKeepsResources(l: Layout, k: Kernel, e: Event)
    requires ResourcesOk(l, k) && SchedOk(k) && ReapReady(k, e)
    ensures ResourcesOk(l, AfterStore(k, e))
  {
    hide SchedOk, TaskMemoryOk, SpaceOk, TrapPageOk, DataFrames, Location, PutBytes, FrameAt, ExitCodeBytes, PidsOk,
         StacksOk, Balanced, BookOf, VirtAddrFrom, Floor, UserPage, MemoryOk;
    CurrentLive(l, k);
    var t, va := CurrentTask(k), VirtAddrFrom(e.ptr);
    UserPageFrame(l, k.phys.mem, k.kspace.table.root, t, va);
    var f := Location(k.phys.mem, t.space.table.root, va).0;
    var frame := PutBytes(FrameAt(k.phys.mem, f), PageOffset(e.ptr), ExitCodeBytes(k.tasks[Victim(k, e)].exitCode));
    DataWriteKeepsTask(l, k.phys.mem, k.kspace.table.root, t, f, frame);
    WriteKeepsResources(l, k, AfterStore(k, e), k.current.value, f, frame);
  }

  // ---- the stack ----

  /** The first area that begins where the stack of `pid` begins is that stack. */
  lemma StackFound(l: Layout, areas: seq<MapArea>, live: set<nat>, pid: nat)
    requires LayoutOk(l) && StackList(l, areas, live) && pid in live
    requires forall p | p in live :: 2 * p <= l.hi - l.lo
    ensures var n := FirstStart(areas, StackStart(pid)); 5 <= n < |areas| && IsStack(areas[n], pid)
  {
    var n := FirstStart(areas, StackStart(pid));
    assert HasStack(areas, pid);
    var i :| 5 <= i < |areas| && IsStack(areas[i], pid);
    assert n <= i;
    forall j | 0 <= j < 5 ensures areas[j].start != StackStart(pid) {
      assert areas[j] == areas[..5][j] == l.sections[j];
      assert AreaShape(l.sections[j]);
    }
    assert StackOfOne(areas[n], live);
    var p :| p in live && IsStack(areas[n], p);
  }

  lemma OtherStacksStay(areas: seq<MapArea>, n: nat, pid: nat, p: nat)
    requires n < |areas| && 5 <= n && IsStack(areas[n], pid) && HasStack(areas, p) && p != pid && PidFits(p)
    requires PidFits(pid)
    ensures HasStack(Without(areas, n), p)
  {
    hide StackArea;
    var areas' := Without(areas, n);
    var i :| 5 <= i < |areas| && IsStack(areas[i], p);
    if i == n {
      SameStack(areas[n], p, pid);
    }
    var j := if i < n then i else i - 1;
    assert areas'[j] == areas[i];
    assert IsStack(areas'[j], p);
  }

  lemma RemainingStack(areas: seq<MapArea>, live: set<nat>, n: nat, pid: nat, i: nat)
    requires n < |areas| && IsStack(areas[n], pid) && DisjointAreas(areas)
    requires i < |areas| && i != n && StackOfOne(areas[i], live)
    ensures StackOfOne(areas[i], live - {pid})
  {
    hide StackArea, DisjointAreas;
    var p :| p in live && IsStack(areas[i], p);
    if p == pid {
      OneStackEach(areas, n, i, pid);
    }
    assert p in live - {pid} && IsStack(areas[i], p);
  }

  /** One stack less: the list of stacks stays exact. */
  lemma StackListShrinks(l: Layout, areas: seq<MapArea>, live: set<nat>, n: nat, pid: nat)
    requires StackList(l, areas, live) && 5 <= n < |areas| && IsStack(areas[n], pid) && DisjointAreas(areas)
    requires PidFits(pid)
    requires forall p | p in live :: PidFits(p)
    ensures StackList(l, Without(areas, n), live - {pid})
  {
    hide IsStack, PidFits, DisjointAreas, StackOfOne, HasStack;
    var areas' := Without(areas, n);
    assert areas'[..5] == areas[..5];
    forall i | 5 <= i < |areas'| ensures StackOfOne(areas'[i], live - {pid}) {
      assert areas'[i] == areas[Moved(n, i)];
      RemainingStack(areas, live, n, pid, Moved(n, i));
    }
    forall p | p in live - {pid} ensures HasStack(areas', p) {
      OtherStacksStay(areas, n, pid, p);
    }
  }

  lemma SameStack(a: MapArea, p: nat, q: nat)
    requires IsStack(a, p) && IsStack(a, q) && PidFits(p) 
    ensures PidFits(q) ==> p == q
  {}

  lemma OneStackEach(areas: seq<MapArea>, i: nat, j: nat, pid: nat)
    requires DisjointAreas(areas) && i < |areas| && j < |areas| && IsStack(areas[i], pid) && IsStack(areas[j], pid)
    ensures i == j
  {
    assert Covers(areas[i], StackStart(pid)) && Covers(areas[j], StackStart(pid));
  }

  // ---- the step ----

  /** The step after the exit code has been stored, as `k` sees it. */
  ghost predicate Dropped(l: Layout, k: Kernel, e: Event, k': Kernel) {
    && e.Reap? && HasCurrent(k) && e.index < |CurrentTask(k).children|
    && var z := Victim(k, e);
       && z in k.tasks && z != k.current.value && k.tasks[z].status.Zombie?
       && var n := FirstStart(k.kspace.areas, StackStart(k.tasks[z].pid));
          && n < |k.kspace.areas| && Removed(k.phys, k.kspace, e.removed, e.kspace, n)
          && SpaceOk(e.removed.mem, e.kspace, l.tramp)
          && k' == k.(tasks := AfterReap(k, e.index), kspace := e.kspace, pids := PidDealloc(k.pids, k.tasks[z].pid),
                      phys := e.removed.(free := e.removed.free + Owned(k.tasks[z].space)))
  }

  lemma StoreThenDrop(l: Layout, k: Kernel, e: Event, k': Kernel)
    requires LayoutOk(l) && ResourcesOk(l, k) && SchedOk(k) && e.Reap? && ReapStep(l, k, e, k')
    ensures ReapReady(k, e) && Dropped(l, AfterStore(k, e), e, k')
  {
    hide LayoutOk, ResourcesOk, SchedOk, UserPage, Removed, SpaceOk, StoreExitCode, StoredCode, Owned, FirstStart,
         StackStart, PageOffset, Floor;
    UserIsArea(CurrentTask(k).space, Floor(VirtAddrFrom(e.ptr)));
    StoreLands(l, k, e.ptr, k.tasks[Victim(k, e)].exitCode);
  }

  lemma ReapLivePids(k: Kernel, i: nat)
    requires HasCurrent(k) && i < |CurrentTask(k).children| && PidsDistinct(k.tasks)
    requires CurrentTask(k).children[i] in k.tasks && CurrentTask(k).children[i] != k.current.value
    ensures LivePids(AfterReap(k, i)) == LivePids(k.tasks) - {k.tasks[CurrentTask(k).children[i]].pid}
    ensures PidsDistinct(AfterReap(k, i))
  {
    hide RemoveAt;
    var z, tasks' := CurrentTask(k).children[i], AfterReap(k, i);
    assert tasks'.Keys == k.tasks.Keys - {z} && forall id | id in tasks' :: tasks'[id].pid == k.tasks[id].pid;
    forall p | p in LivePids(k.tasks) && p != k.tasks[z].pid ensures p in LivePids(tasks') {
      var id :| id in k.tasks && k.tasks[id].pid == p;
      assert tasks'[id].pid == p;
    }
  }

  lemma DropKeepsPids(l: Layout, k: Kernel, e: Event, k': Kernel)
    requires LayoutOk(l) && PidsOk(l, k) && StacksOk(l, k) && AreasOk(k.kspace, l.tramp) && Dropped(l, k, e, k')
    ensures PidsOk(l, k') && StacksOk(l, k')
  {
    hide SpaceOk, SpaceShrunk, Owned, LivePids, StackList, LayoutOk, PidSetOk, AfterReap, Without, StackStart;
    var z := Victim(k, e);
    var live, pid := LivePids(k.tasks), k.tasks[z].pid;
    assert pid in live by { PidLive(k.tasks, z); }
    ReapLivePids(k, e.index);
    PidDeallocOk(k.pids, live, pid);
    LivePidsBounded(l, k);
    StackFound(l, k.kspace.areas, live, pid);
    assert DisjointAreas(k.kspace.areas) by { AreasParts(k.kspace, l.tramp); }
    StackListShrinks(l, k.kspace.areas, live, FirstStart(k.kspace.areas, StackStart(pid)), pid);
  }

  lemma PidLive(tasks: map<nat, Task>, id: nat)
    requires id in tasks
    ensures tasks[id].pid in LivePids(tasks)
  {}

  lemma LivePidsBounded(l: Layout, k: Kernel)
    requires LayoutOk(l) && PidsOk(l, k)
    ensures forall p | p in LivePids(k.tasks) :: 2 * p <= l.hi - l.lo && PidFits(p)
  {
    hide LivePids, Elements, LayoutOk;
    forall p | p in LivePids(k.tasks) ensures 2 * p <= l.hi - l.lo && PidFits(p) {
      assert p in Pages(0, k.pids.current);
      MemoryBoundsPids(l, p);
    }
  }

  lemma DropKeepsMemory(l: Layout, k: Kernel, e: Event, k': Kernel)
    requires MemoryOk(l, k) && Balanced(BookOf(k), Pool(l)) && Dropped(l, k, e, k')
    ensures MemoryOk(l, k')
  {
    hide Balanced, BookOf, AreasOk, TableOk, TaskMemoryOk, Owned, FrameAt, StackStart, FirstStart, Without, RemoveAt;
    BookFacts(l, k);
    NodesOwned(k.kspace);
    forall id | id in k'.tasks ensures TaskMemoryOk(l, k'.phys.mem, k'.kspace.table.root, k'.tasks[id]) {
      assert SameOn(k.phys.mem, k'.phys.mem, Owned(k.tasks[id].space));
      TaskFrame(l, k.phys.mem, k'.phys.mem, k.kspace.table.root, k.tasks[id]);
      SameTaskMemory(l, k'.phys.mem, k.kspace.table.root, k.tasks[id], k'.tasks[id]);
    }
  }

  lemma DropBooks(l: Layout, k: Kernel, e: Event, k': Kernel)
    requires Balanced(BookOf(k), Pool(l)) && Dropped(l, k, e, k')
    ensures Balanced(BookOf(k'), Pool(l))
  {
    hide Balanced, Owned, SpaceOk, FrameAt, StackStart, FirstStart, Without, RemoveAt;
    var z := Victim(k, e);
    var b, freed, held := BookOf(k), Owned(k.kspace) - Owned(e.kspace), Owned(k.tasks[z].space);
    assert KernelSpace in Owners(k) && TaskSpace(z) in Owners(k);
    var b1 := Give(b, KernelSpace, freed);
    GiveBalanced(b, Pool(l), KernelSpace, freed);
    var b2 := Give(b1, TaskSpace(z), held);
    GiveBalanced(b1, Pool(l), TaskSpace(z), held);
    var b3 := Leave(b2, TaskSpace(z));
    LeaveBalanced(b2, Pool(l), TaskSpace(z));
    assert Owners(k') == Owners(k) - {TaskSpace(z)};
    forall o | o in BookOf(k').own ensures o in b3.own && BookOf(k').own[o] == b3.own[o] {
      match o
      case KernelSpace =>
        assert b3.own[o] == Owned(k.kspace) - freed == Owned(e.kspace);
      case TaskSpace(id) =>
        assert id in k'.tasks;
    }
    assert BookOf(k') == b3;
  }

  /** Reaping gives everything the zombie held back and nothing else. */
  lemma ReapKeepsResources(l: Layout, k: Kernel, e: Event, k': Kernel)
    requires LayoutOk(l) && ResourcesOk(l, k) && SchedOk(k) && e.Reap? && ReapStep(l, k, e, k')
    ensures ResourcesOk(l, k')
  {
    hide LayoutOk, PidsOk, StacksOk, TaskMemoryOk, TableOk, AreasOk, Balanced, BookOf, SchedOk, ReapStep, Dropped,
         UserPage, StoredCode, Floor, VirtAddrFrom;
    StoreThenDrop(l, k, e, k');
    StoreKeepsResources(l, k, e);
    DropKeepsPids(l, AfterStore(k, e), e, k');
    DropKeepsMemory(l, AfterStore(k, e), e, k');
    DropBooks(l, AfterStore(k, e), e, k');
  }
}
