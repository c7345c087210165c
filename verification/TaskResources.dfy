/** Resources of a task outside its control block: its kernel stack, its image and its trap
    context (os/src/task/pid.rs, os/src/task/task.rs, os/src/trap/context.rs). */
module TaskResources {
  import opened Address
  import opened PhysicalMemory
  import opened PageTableEntries
  import opened FrameAllocation
  import opened TableModel
  import opened PageTables
  import opened SpaceModel
  import opened MemorySets
  import opened ElfLoading
  import opened KernelAccess
  import opened KernelModel
  import opened KernelSteps
  import opened KernelFork
  import opened StepFacts

  /** `KernelStack::new` */
  method NewKernelStack(ram: Ram, kernelSpace: MemorySet, pid: nat, ghost tramp: nat) returns (ok: bool)
    requires kernelSpace.Valid(ram, tramp) && PidFits(pid) && Apart(kernelSpace.areas, StackArea(pid))
    modifies ram, ram.frames, kernelSpace, kernelSpace.table
    ensures ram.Valid() && ram.Pool() == old(ram.Pool())
    ensures !ok ==> ram.View().free == {}
    ensures ok ==>
              Pushed(old(ram.View()), old(kernelSpace.View()), ram.View(), kernelSpace.View(), StackArea(pid), None,
                  tramp)
    ensures Spent(old(ram.View().free), ram.View().free, STACK_COST)
  {
    hide SpaceOk, Owned, Apart, Pushed, Floor, Ceil, VirtAddrFrom, Spent, AreaCost, StackFrameAllocator.Free;
    StackPosition(pid);
    StackCosts(pid);
    var (bottom, top) := KernelStackPosition(pid);
    ok := kernelSpace.InsertFramedArea(ram, VirtAddrFrom(bottom), VirtAddrFrom(top), RW, tramp);
    SpentMore(old(ram.View().free), ram.View().free, AreaCost(StackArea(pid)), STACK_COST);
  }

  /** The most frames that a kernel stack takes: two pages in at most two blocks. */
  const STACK_COST: nat := 6

  lemma StackCosts(pid: nat)
    ensures AreaCost(StackArea(pid)) <= STACK_COST
  {
    var s := StackStart(pid);
    assert (s + 1) / 512 <= s / 512 + 1;
  }

  /** `KernelStack::drop` */
  method DropKernelStack(ram: Ram, kernelSpace: MemorySet, pid: nat, ghost tramp: nat)
    requires kernelSpace.Valid(ram, tramp) && Owned(kernelSpace.View()) <= ram.Pool() && PidFits(pid)
    requires FirstStart(kernelSpace.areas, StackStart(pid)) < |kernelSpace.areas|
    modifies ram, ram.frames, kernelSpace, kernelSpace.table
    ensures ram.Pool() == old(ram.Pool()) && ram.Valid() && SpaceOk(ram.mem, kernelSpace.View(), tramp)
    ensures Removed(old(ram.View()), old(kernelSpace.View()), ram.View(), kernelSpace.View(),
                    FirstStart(old(kernelSpace.areas), StackStart(pid)))
  {
    hide SpaceOk, Owned, Removed, FirstStart, StackStart, Floor, Ceil, VirtAddrFrom, PidFits;
    StackPosition(pid);
    var (bottom, _) := KernelStackPosition(pid);
    kernelSpace.RemoveAreaWithStartVpn(ram, Floor(VirtAddrFrom(bottom)), tramp);
  }

  /** `fork` sets the kernel stack of the child, `sys_fork` its result. */
  method SetForkContext(ram: Ram, cx: nat, pid: nat)
    requires PidFits(pid)
    modifies ram
    ensures ram.mem == ForkContext(old(ram.mem), cx, KernelStackTop(pid))
  {
    hide SetEntry, KernelStackTop;
    StackPosition(pid);
    ram.mem := SetEntry(ram.mem, cx, 35, KernelStackPosition(pid).1);
    ram.mem := SetEntry(ram.mem, cx, 10, 0);
  }

  /** Write `app_init_context` to a trap context page. */
  method InitContext(ram: Ram, cx: nat, entry: nat, sp: nat, sstatus: nat, kroot: nat, pid: nat, trapHandler: nat)
    requires entry < TWO_64 && sp < TWO_64 && sstatus < TWO_64 && kroot < TWO_44 && trapHandler < TWO_64
    requires PidFits(pid)
    modifies ram
    ensures ram.mem == old(ram.mem)[cx := ContextPage(FrameAt(old(ram.mem), cx), entry, sp, sstatus,
                                                      kroot, KernelStackTop(pid), trapHandler)]
  {
    hide StoreWords, KernelStackTop;
    StackPosition(pid);
    ram.mem := ram.mem[cx := ContextPage(FrameAt(ram.mem, cx), entry, sp, sstatus, kroot,
                                         KernelStackPosition(pid).1, trapHandler)];
  }

  /** The address space of an application, its stack pointer and its trap context page. */
  method LoadImage(ram: Ram, segs: seq<Segment>, tramp: nat) returns (ms: MemorySet?, sp: nat, cx: nat)
    requires ram.Valid() && Loadable(segs) && tramp < TWO_44
    modifies ram, ram.frames
    ensures ram.Valid() && ram.Pool() == old(ram.Pool()) && (ms == null ==> ram.View().free == {})
    ensures ms != null ==>
              && fresh(ms) && fresh(ms.table) && Loaded(old(ram.View()), ram.View(), ms.View(), Plan(segs), tramp)
              && cx == TrapCxPpn(ms.View()) && sp == StackTop(segs) < TWO_64
                  && ram.View().free <= old(ram.View().free)
    ensures Spent(old(ram.View().free), ram.View().free, ImageCost(segs))
  {
    hide Loadable, Loaded, Plan, Spent, ImageCost, StackFrameAllocator.Free, StackFrameAllocator.Valid,
         StackFrameAllocator.Pool, SpaceOk, Owned, StackTop, TrapCxPpn, PtePpn, Floor, VirtAddrFrom, Translate, Pool;
    cx := 0;
    ms, sp := FromElf(ram, segs, tramp);
    if ms == null {
      return;
    }
    LoadedFacts(old(ram.View()), ram.View(), ms.View(), segs, tramp);
    TrapCxFound(ram.mem, ms.View(), tramp);
    var pte := ms.table.TranslateIn(ram, Floor(VirtAddrFrom(TRAP_CONTEXT)));
    cx := PtePpn(pte.value);
  }

  /** Store an exit code through `translated_refmut`, with the kernel table `kroot` active. Not ok
      stands for a panic. */
  method StoreCode(ram: Ram, kroot: nat, table: PageTable, ptr: nat, code: int) returns (ok: bool)
    modifies ram
    ensures var stored := StoreExitCode(old(ram.mem), kroot, table.rootPpn, ptr, code);
            ok == stored.Some? && ram.mem == if ok then stored.value else old(ram.mem)
  {
    hide PtePpn, Translate, Floor, VirtAddrFrom, StoreBytes;
    var va := VirtAddrFrom(ptr);
    var pte := table.TranslateIn(ram, Floor(va));
    if pte.None? {
      return false;
    }
    var pa := PtePpn(pte.value) * PAGE_SIZE + PageOffset(va);
    if pa == 0 {
      return false;
    }
    var stored := StoreBytes(ram.mem, ram.mem, kroot, pa, ExitCodeBytes(code));
    if stored.None? {
      return false;
    }
    ram.mem := stored.value;
    ok := true;
  }
}
