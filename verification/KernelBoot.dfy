/** How the kernel starts: the sections of its image and all of memory in kernel space, then
    `initproc` as the first task (os/src/mm/memory_set.rs, os/src/mm/frame_allocator.rs,
    os/src/task/task.rs, os/src/task/mod.rs, os/src/linker-qemu.ld). Every run begins in the state that
    `Boot` leaves. */
module KernelBoot {
  import opened Address
  import opened PhysicalMemory
  import opened PageTableEntries
  import opened FrameAllocation
  import opened TableModel
  import opened SpaceModel
  import opened MemorySets
  import opened SpaceCopies
  import opened ElfLoading
  import opened Ledger
  import opened KernelModel
  import opened KernelSteps
  import opened KernelMemory
  import opened KernelFork
  import opened KernelExec
  import opened KernelSafety
  import opened KernelProcesses
  import opened StepFacts
  import opened TaskResources
  import opened ProcessControl

  /** The symbols of the linker script, and the address of `trap_handler`. */
  datatype Linker = Linker(stext: nat, strampoline: nat, etext: nat, srodata: nat, erodata: nat, sdata: nat, edata: nat,
                           sbss: nat, ebss: nat, ekernel: nat, trapHandler: nat)

  const MEMORY_END: nat := 0x8080_0000

  /** Sections lie one after the other on page boundaries, with the trampoline page in `.text`. */
  predicate LinkerOk(k: Linker) {
    && 0 < k.stext <= k.strampoline < k.etext <= k.srodata <= k.erodata <= k.sdata <= k.edata <= k.sbss <= k.ebss
    && k.ebss <= k.ekernel <= MEMORY_END && k.trapHandler < TWO_64
    && k.stext % PAGE_SIZE == 0 && k.strampoline % PAGE_SIZE == 0 && k.etext % PAGE_SIZE == 0
    && k.srodata % PAGE_SIZE == 0 && k.erodata % PAGE_SIZE == 0 && k.sdata % PAGE_SIZE == 0
    && k.edata % PAGE_SIZE == 0 && k.sbss % PAGE_SIZE == 0 && k.ebss % PAGE_SIZE == 0 && k.ekernel % PAGE_SIZE == 0
  }

  const R_ONLY := Permission(true, false, false, false)

  /** `MapArea::new` of an identity-mapped range. */
  function Section(start: nat, end: nat, perm: Permission): MapArea {
    MapArea(Floor(VirtAddrFrom(start)), Ceil(VirtAddrFrom(end)), map[], Identical, perm)
  }

  function Sections(k: Linker): seq<MapArea> {
    [Section(k.stext, k.etext, RX), Section(k.srodata, k.erodata, R_ONLY), Section(k.sdata, k.edata, RW),
     Section(k.sbss, k.ebss, RW), Section(k.ekernel, MEMORY_END, RW)]
  }

  function LayoutOf(k: Linker): Layout {
    Layout(Ceil(k.ekernel), Floor(MEMORY_END), Floor(k.strampoline), Sections(k), k.trapHandler)
  }

  lemma SectionPages(start: nat, end: nat, perm: Permission)
    requires start <= end <= MEMORY_END && start % PAGE_SIZE == 0 && end % PAGE_SIZE == 0
    ensures Section(start, end, perm) == MapArea(start / PAGE_SIZE, end / PAGE_SIZE, map[], Identical, perm)
  {}

  /** The linker script and the board give a layout as the kernel needs it. */
  lemma LayoutIsOk(k: Linker)
    requires LinkerOk(k)
    ensures LayoutOk(LayoutOf(k)) && LayoutOf(k).tramp < TWO_44
    ensures var l := LayoutOf(k);
            && l.lo * 0x1000 == k.ekernel && l.hi * 0x1000 == 0x8080_0000 && l.tramp * 0x1000 == k.strampoline
            && l.trapHandler == k.trapHandler
  {
    hide Section, DisjointAreas, Floor, Ceil, VirtAddrFrom;
    SectionPages(k.stext, k.etext, RX);
    SectionPages(k.srodata, k.erodata, R_ONLY);
    SectionPages(k.sdata, k.edata, RW);
    SectionPages(k.sbss, k.ebss, RW);
    SectionPages(k.ekernel, MEMORY_END, RW);
    PageOf(k.ekernel);
    PageOf(k.strampoline);
    PageOf(MEMORY_END);
    Ascending(Sections(k));
  }

  lemma PageOf(a: nat)
    requires a % PAGE_SIZE == 0
    ensures Floor(a) == Ceil(a) == a / PAGE_SIZE
  {}

  /** Areas one after the other are disjoint. */
  lemma Ascending(areas: seq<MapArea>)
    requires forall i, j | 0 <= i < j < |areas| :: areas[i].end <= areas[j].start
    ensures DisjointAreas(areas)
  {}

  ghost function SectionPlan(l: Layout): seq<Planned> {
    seq(|l.sections|, i requires 0 <= i < |l.sections| => Planned(l.sections[i], None))
  }

  lemma SectionPlanOk(l: Layout)
    requires LayoutOk(l)
    ensures PlanOk(SectionPlan(l))
  {
    var plan := SectionPlan(l);
    forall i | 0 <= i < |plan| ensures plan[i].area.frames == map[]
        && plan[i].area.start <= plan[i].area.end <= TRAMPOLINE_VPN {
      assert AreaShape(l.sections[i]);
    }
  }

  lemma SectionAreas(l: Layout)
    ensures PlanAreas(SectionPlan(l)) == l.sections
  {
    hide PlanOk;
  }

  /** The most frames that the kernel takes until `initproc` is ready. */
  function BootCost(k: Linker, segs: seq<Segment>): nat { 3 + AreasCost(Sections(k)) + ImageCost(segs) + STACK_COST }

  /** `BASE_ADDRESS` of the linker script. */
  const BASE_ADDRESS: nat := 0x8020_0000

  /** An identity-mapped section above the base address takes at most six table nodes. */
  lemma SectionCost(start: nat, end: nat, perm: Permission)
    requires BASE_ADDRESS <= start <= end <= MEMORY_END && start % PAGE_SIZE == 0 && end % PAGE_SIZE == 0
    ensures AreaCost(Section(start, end, perm)) <= 6
  {
    hide Section;
    SectionPages(start, end, perm);
  }

  /** On the board the kernel itself takes at most 39 frames, so it starts whenever the image of
      `initproc` leaves that many. */
  lemma BootBudget(k: Linker, segs: seq<Segment>)
    requires LinkerOk(k) && k.stext >= BASE_ADDRESS
    ensures BootCost(k, segs) <= 39 + ImageCost(segs)
  {
    hide Section, AreaCost, ImageCost;
    SectionCost(k.stext, k.etext, RX);
    SectionCost(k.srodata, k.erodata, R_ONLY);
    SectionCost(k.sdata, k.edata, RW);
    SectionCost(k.sbss, k.ebss, RW);
    SectionCost(k.ekernel, MEMORY_END, RW);
    var s := Sections(k);
    assert s[..0] == [] && s[..5] == s;
    hide AreasCost;
    for n := 0 to 5
      invariant AreasCost(s[..n]) <= 6 * n
    {
      CostOfMore(s, n);
    }
  }

  /** `MemorySet::new_kernel`: null stands for the panic when memory runs out. */
  method NewKernel(ram: Ram, k: Linker) returns (ms: MemorySet?)
    requires ram.Valid() && LinkerOk(k)
    modifies ram, ram.frames
    ensures ram.Valid() && ram.Pool() == old(ram.Pool()) && (ms == null ==> ram.View().free == {})
    ensures ms != null ==> fresh(ms) && fresh(ms.table) && ms.Valid(ram, LayoutOf(k).tramp)
    ensures ms != null ==> Loaded(old(ram.View()), ram.View(), ms.View(), SectionPlan(LayoutOf(k)), LayoutOf(k).tramp)
    ensures Spent(old(ram.View().free), ram.View().free, 3 + AreasCost(Sections(k)))
  {
    hide SpaceOk, Owned, Loading, PlanOk, LayoutOk, LinkerOk, Section, Built, StackFrameAllocator.Free,
         StackFrameAllocator.Valid, StackFrameAllocator.Pool, Spent, AreasCost;
    SectionAreas(LayoutOf(k));
    assert Sections(k)[..0] == [];
    LayoutIsOk(k);
    SectionPlanOk(LayoutOf(k));
    ghost var ph0, plan := ram.View(), SectionPlan(LayoutOf(k));
    var tramp := Floor(k.strampoline);
    ms := MemorySet.NewWithTrampoline(ram, tramp);
    SpentMore(ph0.free, ram.View().free, 3, 3 + AreasCost(Sections(k)));
    if ms == null {
      return;
    }
    NothingLoaded(ph0, ram.View(), ms.View(), plan, tramp);
    var ok := PushPlanned(ram, ms, Section(k.stext, k.etext, RX), None, ph0, plan, tramp);
    if ok {
      ok := PushPlanned(ram, ms, Section(k.srodata, k.erodata, R_ONLY), None, ph0, plan, tramp);
    }
    if ok {
      ok := PushPlanned(ram, ms, Section(k.sdata, k.edata, RW), None, ph0, plan, tramp);
    }
    if ok {
      ok := PushPlanned(ram, ms, Section(k.sbss, k.ebss, RW), None, ph0, plan, tramp);
    }
    if ok {
      ok := PushPlanned(ram, ms, Section(k.ekernel, MEMORY_END, RW), None, ph0, plan, tramp);
    }
    if !ok {
      return null;
    }
  }

  // ---- the first state ----

  /** Kernel space after `new_kernel`, the image of `initproc`, and kernel space with its stack. */
  datatype Start = Start(kernel: Phys, sections: Space, loaded: Phys, image: Space, stacked: Phys, kspace: Space)

  ghost predicate Prepared(l: Layout, ph: Phys, b: Start, segs: seq<Segment>) {
    && LayoutOk(l) && ph.free == Pool(l) && Loadable(segs)
    && Loaded(ph, b.kernel, b.sections, SectionPlan(l), l.tramp)
    && Loaded(b.kernel, b.loaded, b.image, Plan(segs), l.tramp)
    && Pushed(b.loaded, b.sections, b.stacked, b.kspace, StackArea(0), None, l.tramp)
  }

  function InitTask(b: Start): Task { Task(0, Ready, b.image, TrapCxPpn(b.image), None, [], 0) }

  /** The state in which `run_tasks` begins: `initproc` is the only task, and ready. */
  function StartState(b: Start, page: Frame): Kernel {
    Kernel(Phys(b.stacked.mem[InitTask(b).trapCxPpn := page], b.stacked.free), b.kspace, Pids(1, []),
        map[0 := InitTask(b)], 1,
           [0], None, 0)
  }

  /** `new_kernel` leaves exactly the sections. */
  lemma SectionsInPlace(l: Layout, ph: Phys, ph': Phys, s: Space)
    requires LayoutOk(l) && Loaded(ph, ph', s, SectionPlan(l), l.tramp)
    ensures s.areas == l.sections
  {
    hide TableOk, DisjointAreas, AreasMapped, NothingElse, InjectiveFrames, DataFrames, SameOff, AreaLoaded;
    forall i | 0 <= i < |s.areas| ensures s.areas[i] == l.sections[i] {
      assert SameShape(SectionPlan(l)[i].area, s.areas[i]);
      assert AreaShape(l.sections[i]) && AreaShape(s.areas[i]);
    }
  }

  /** Who holds what at the start: kernel space, `initproc`, and the rest is free. */
  lemma StartSets(l: Layout, ph: Phys, b: Start, segs: seq<Segment>)
    requires Prepared(l, ph, b, segs)
    ensures Owned(b.kspace) <= Pool(l) && Owned(b.image) <= Pool(l) && Owned(b.kspace) !! Owned(b.image)
    ensures b.stacked.free == Pool(l) - Owned(b.kspace) - Owned(b.image)
    ensures SameOn(b.loaded.mem, b.stacked.mem, Owned(b.image))
    ensures SpaceOk(b.stacked.mem, b.kspace, l.tramp) && SpaceOk(b.loaded.mem, b.image, l.tramp)
  {
    hide LayoutOk, Pool, Loadable, SpaceOk, Owned, FrameAt, AreaLoaded, SectionPlan, Plan, SameShape, StackArea;
    NodesOwned(b.sections);
  }

  ghost predicate ContextReady(l: Layout, b: Start, segs: seq<Segment>, entry: nat, sstatus: nat) {
    && entry < TWO_64 && sstatus < TWO_64 && StackTop(segs) < TWO_64 && b.kspace.table.root < TWO_44
        && l.trapHandler < TWO_64
  }

  /** The page of the first trap context. */
  ghost function StartPage(l: Layout, b: Start, segs: seq<Segment>, entry: nat, sstatus: nat): Frame
    requires ContextReady(l, b, segs, entry, sstatus)
  {
    ContextPage(FrameAt(b.stacked.mem, InitTask(b).trapCxPpn), entry, StackTop(segs), sstatus, b.kspace.table.root,
                KernelStackTop(0), l.trapHandler)
  }

  lemma StartMemory(l: Layout, ph: Phys, b: Start, segs: seq<Segment>, entry: nat, sstatus: nat)
    requires Prepared(l, ph, b, segs) && ContextReady(l, b, segs, entry, sstatus)
    ensures MemoryOk(l, StartState(b, StartPage(l, b, segs, entry, sstatus)))
  {
    hide LayoutOk, Pool, Loadable, TableOk, AreasOk, Owned, FrameAt, Loaded, Pushed, SectionPlan, Plan, StackArea,
         ContextPage, KernelStackTop, StackTop, TrapCxPpn, TaskMemoryOk, TrapPageOk;
    StartSets(l, ph, b, segs);
    var t, page := InitTask(b), StartPage(l, b, segs, entry, sstatus);
    var cx := t.trapCxPpn;
    LoadedTrapPage(l, b.kernel, b.loaded, b.image, segs, t);
    NodesOwned(b.kspace);
    WriteElsewhere(b.stacked.mem, b.kspace.table, cx, page);
    FreshTaskMemory(l, b.kernel, b.loaded, b.image, segs, t, b.kspace.table.root, entry, sstatus);
    WriteRead(b.loaded.mem, cx, page);
    WriteRead(b.stacked.mem, cx, page);
    TaskFrame(l, b.loaded.mem[cx := page], b.stacked.mem[cx := page], b.kspace.table.root, t);
  }

  lemma StartBooks(l: Layout, ph: Phys, b: Start, segs: seq<Segment>, page: Frame)
    requires Prepared(l, ph, b, segs)
    ensures Balanced(BookOf(StartState(b, page)), Pool(l))
  {
    hide Prepared, Pool, Owned, TrapCxPpn, Balanced, BookOf;
    StartSets(l, ph, b, segs);
    var k := StartState(b, page);
    TwoHolders(Pool(l), Owned(b.kspace), Owned(b.image));
    OneTaskBook(k, InitTask(b));
  }

  lemma OneTaskBook(k: Kernel, t: Task)
    requires k.tasks == map[0 := t]
    ensures BookOf(k) == Book(k.phys.free, map[KernelSpace := Owned(k.kspace), TaskSpace(0) := Owned(t.space)])
  {
    hide Owned;
    assert Owners(k) == {KernelSpace, TaskSpace(0)};
  }

  lemma TwoHolders(pool: set<nat>, a: set<nat>, b: set<nat>)
    requires a <= pool && b <= pool && a !! b
    ensures Balanced(Book(pool - a - b, map[KernelSpace := a, TaskSpace(0) := b]), pool)
  {
    var own := map[KernelSpace := a, TaskSpace(0) := b];
    assert own[KernelSpace] == a && own[TaskSpace(0)] == b;
    forall p | p in pool && p !in pool - a - b ensures exists o :: o in own && p in own[o] {
      if p in a {
        assert p in own[KernelSpace];
      } else {
        assert p in own[TaskSpace(0)];
      }
    }
  }

  lemma StartStacks(l: Layout, ph: Phys, b: Start, segs: seq<Segment>, page: Frame)
    requires Prepared(l, ph, b, segs)
    ensures StacksOk(l, StartState(b, page)) && LivePids(StartState(b, page).tasks) == {0}
  {
    hide LayoutOk, Pool, Loadable, Loaded, SpaceOk, SpaceGrown, AreaLoaded, SectionPlan, Plan, StackArea, TrapCxPpn,
         StackList;
    SectionsInPlace(l, ph, b.kernel, b.sections);
    NoStacks(l);
    var n := |b.sections.areas|;
    assert b.kspace.areas == l.sections + [b.kspace.areas[n]];
    StackListGrows(l, l.sections, {}, b.kspace.areas[n], 0);
    assert {} + {0} == {0};
    var tasks := StartState(b, page).tasks;
    assert tasks[0].pid == 0;
    assert LivePids(tasks) == {0};
  }

  lemma NoStacks(l: Layout)
    requires LayoutOk(l)
    ensures StackList(l, l.sections, {})
  {
    assert l.sections[..5] == l.sections;
  }

  lemma StartPids(l: Layout, ph: Phys, b: Start, segs: seq<Segment>, page: Frame)
    requires Prepared(l, ph, b, segs)
    ensures PidsOk(l, StartState(b, page))
  {
    hide Pool, Loadable, TableOk, AreasOk, Loaded, Pushed, SectionPlan, Plan, StackArea, TrapCxPpn, Owned, HasStack,
         SameOn;
    StartSets(l, ph, b, segs);
    StartStacks(l, ph, b, segs, page);
    assert forall p | 0 <= p < 1 :: HasStack(b.kspace.areas, p) && PidFits(p);
    StacksBoundPids(l, b.kspace, l.tramp, 1);
    assert Pages(0, 1) - Elements([]) == {0};
  }

  /** The invariant holds when the kernel starts. */
  lemma StartInv(l: Layout, ph: Phys, b: Start, segs: seq<Segment>, entry: nat, sstatus: nat)
    requires Prepared(l, ph, b, segs) && ContextReady(l, b, segs, entry, sstatus)
    ensures Inv(l, StartState(b, StartPage(l, b, segs, entry, sstatus)))
  {
    hide LayoutOk, Loadable, Loaded, Pushed, MemoryOk, PidsOk, StacksOk, Balanced, BookOf, Pool, TrapCxPpn, StartPage;
    var page := StartPage(l, b, segs, entry, sstatus);
    StartMemory(l, ph, b, segs, entry, sstatus);
    StartBooks(l, ph, b, segs, page);
    StartStacks(l, ph, b, segs, page);
    StartPids(l, ph, b, segs, page);
  }

  /** The state that `Boot` leaves for this program as `initproc`. */
  ghost predicate StartedWith(l: Layout, k: Kernel, segs: seq<Segment>, entry: nat, sstatus: nat) {
    exists ph, b ::
      Prepared(l, ph, b, segs) && ContextReady(l, b, segs, entry, sstatus)
          && k == StartState(b, StartPage(l, b, segs, entry, sstatus))
  }

  ghost predicate Started(l: Layout, k: Kernel) {
    exists segs, entry, sstatus :: StartedWith(l, k, segs, entry, sstatus)
  }

  /** Every state of every run of the kernel, from its start on, is sound; and the forks so far are
      the reaps so far and the tasks there are besides `initproc`. */
  lemma ReachableInv(l: Layout, states: seq<Kernel>, events: seq<Event>, n: nat)
    requires Run(l, states, events) && Started(l, states[0]) && n < |states|
    ensures Inv(l, states[n])
    ensures Forks(events[..n]) == Reaps(events[..n]) + |states[n].tasks| - 1
  {
    hide Inv, Next, Prepared, ContextReady, StartPage;
    var segs, entry, sstatus :| StartedWith(l, states[0], segs, entry, sstatus);
    var ph, b :|
      Prepared(l, ph, b, segs) && ContextReady(l, b, segs, entry, sstatus)
          && states[0] == StartState(b, StartPage(l, b, segs, entry, sstatus));
    StartInv(l, ph, b, segs, entry, sstatus);
    RunKeepsInv(l, states, events, n);
    ProcessesConserved(l, states, events, n);
    assert |states[0].tasks| == 1;
  }

  /** Loading an application leaves kernel space alone and its stack has room. */
  lemma FirstStackReady(l: Layout, ph: Phys, kernel: Phys, sections: Space, loaded: Phys, image: Space,
                        segs: seq<Segment>)
    requires LayoutOk(l) && Loaded(ph, kernel, sections, SectionPlan(l), l.tramp) && Owned(sections) !! kernel.free
    requires Loaded(kernel, loaded, image, Plan(segs), l.tramp)
    ensures SpaceOk(loaded.mem, sections, l.tramp) && Owned(sections) !! loaded.free
    ensures PidFits(0) && Apart(sections.areas, StackArea(0)) && sections.table.root < TWO_44
  {
    BuiltApart(kernel, loaded, image, sections, l.tramp);
    hide LayoutOk, StackList, Apart, StackArea, AreaLoaded, SpaceOk, Owned, SectionPlan, Plan, SameShape, SameOff;
  }

  /** The frames of the pool, kernel space, and the image and the kernel stack of `initproc`. */
  method Prepare(ram: Ram, k: Linker, segs: seq<Segment>)
    returns (kernelSpace: MemorySet?, image: MemorySet?, sp: nat, cx: nat, ghost ph: Phys, ghost b: Start)
    requires LinkerOk(k) && Loadable(segs) && ram.frames.recycled == []
    modifies ram, ram.frames
    ensures kernelSpace == null || image == null ==>
              ram.View().free == {} && LayoutOf(k).hi - LayoutOf(k).lo <= BootCost(k, segs)
    ensures kernelSpace != null && image != null ==>
              && fresh(kernelSpace) && fresh(kernelSpace.table) && fresh(image) && fresh(image.table)
              && kernelSpace != image && kernelSpace.table != image.table
              && ram.Valid() && ram.Pool() == Pool(LayoutOf(k)) && Prepared(LayoutOf(k), ph, b, segs)
              && b.stacked == ram.View() && b.kspace == kernelSpace.View() && b.image == image.View()
              && sp == StackTop(segs) < TWO_64 && cx == InitTask(b).trapCxPpn
                  && b.kspace.table.root == kernelSpace.table.rootPpn < TWO_44
  {
    hide LinkerOk, LayoutOk, Loadable, Loaded, Pushed, SectionPlan, Plan, SpaceOk, Owned, StackFrameAllocator.Free,
         StackFrameAllocator.Valid, StackFrameAllocator.Pool, StackArea, StackTop, TrapCxPpn, PidFits, Apart, Floor,
         Ceil, Spent, ImageCost, AreasCost, Sections, Pages;
    ghost var l, kernelCost := LayoutOf(k), 3 + AreasCost(Sections(k));
    LayoutIsOk(k);
    LayoutBounds(l);
    PagesCount(l.lo, l.hi);
    image, sp, cx := null, 0, 0;
    ram.frames.Init(Ceil(k.ekernel), Floor(MEMORY_END));
    ph := ram.View();
    b := Start(ph, Space(Table(0, [], map[], map[]), []), ph, Space(Table(0, [], map[], map[]), []), ph,
        Space(Table(0, [], map[], map[]), []));
    var tramp := Floor(k.strampoline);
    kernelSpace := NewKernel(ram, k);
    if kernelSpace == null {
      SpentAll(ph.free, kernelCost);
      return;
    }
    b := b.(kernel := ram.View(), sections := kernelSpace.View());
    image, sp, cx := LoadImage(ram, segs, tramp);
    SpentThen(ph.free, b.kernel.free, ram.View().free, kernelCost, ImageCost(segs), kernelCost + ImageCost(segs));
    if image == null {
      return;
    }
    b := b.(loaded := ram.View(), image := image.View());
    FirstStackReady(l, ph, b.kernel, b.sections, b.loaded, b.image, segs);
    var ok := NewKernelStack(ram, kernelSpace, 0, tramp);
    if !ok {
      kernelSpace := null;
      SpentThen(ph.free, b.loaded.free, ram.View().free, kernelCost + ImageCost(segs), STACK_COST, BootCost(k, segs));
      return;
    }
    b := b.(stacked := ram.View(), kspace := kernelSpace.View());
  }

  lemma LayoutBounds(l: Layout)
    requires LayoutOk(l)
    ensures l.lo <= l.hi <= TWO_44 && l.tramp < TWO_44 && l.trapHandler < TWO_64
  {}

  /** The first identifier, and `initproc` in the ready queue. */
  method FirstPid() returns (pids: PidAllocator, pid: nat, manager: TaskManager)
    ensures fresh(pids) && fresh(manager) && pid == 0 && pids.View() == Pids(1, []) && manager.readyQueue == [0]
  {
    pids := new PidAllocator();
    pid := pids.Alloc();
    manager := new TaskManager();
    manager.Add(0);
  }

  /** `init_frame_allocator`, `new_kernel`, `TaskControlBlock::new` for `initproc` and
      `add_initproc`. Null stands for the panic when memory runs out. */
  method Boot(ram: Ram, k: Linker, init: App, sstatus: nat) returns (sys: System?)
    requires LinkerOk(k) && Loadable(init.segs) && init.entry < TWO_64 && sstatus < TWO_64 && ram.frames.recycled == []
    modifies ram, ram.frames
    ensures sys == null ==> ram.View().free == {} && LayoutOf(k).hi - LayoutOf(k).lo <= BootCost(k, init.segs)
    ensures sys != null ==>
              && fresh(sys) && sys.Valid() && sys.layout == LayoutOf(k)
              && StartedWith(LayoutOf(k), sys.View(), init.segs, init.entry, sstatus)
              && sys.View().current.None? && sys.View().queue == [sys.initproc]
                  && sys.View().tasks.Keys == {sys.initproc}
  {
    hide LinkerOk, LayoutOk, Loadable, Loaded, Pushed, SectionPlan, Plan, Pool, Inv, Prepared, SpaceOk, Owned,
         StackFrameAllocator.Free, StackFrameAllocator.Valid, StackFrameAllocator.Pool, StackArea, StackTop,
         TrapCxPpn, Apart, ContextPage, MemorySet.View, Next, KernelStackTop, FrameAt, Floor, Ceil, BootCost;
    ghost var l := LayoutOf(k);
    LayoutIsOk(k);
    LayoutBounds(l);
    var kernelSpace, image, sp, cx;
    ghost var ph, b;
    kernelSpace, image, sp, cx, ph, b := Prepare(ram, k, init.segs);
    if kernelSpace == null || image == null {
      return null;
    }
    InitContext(ram, cx, init.entry, sp, sstatus, kernelSpace.table.rootPpn, 0, k.trapHandler);
    StartInv(l, ph, b, init.segs, init.entry, sstatus);
    var pids, pid, manager := FirstPid();
    sys := new System(l, Floor(k.strampoline), k.trapHandler, ram, kernelSpace, pids, manager,
        Tcb(pid, Ready, image, cx, None, [], 0));
  }
}
