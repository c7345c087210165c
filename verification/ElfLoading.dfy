/** `MemorySet::from_elf` after the headers have been decoded: the LOAD segments of an
    application, its stack and its trap context (os/src/mm/memory_set.rs). */
module ElfLoading {
  import opened Address
  import opened PhysicalMemory
  import opened PageTableEntries
  import opened FrameAllocation
  import opened TableModel
  import opened HardwareWalk
  import opened SpaceModel
  import opened MemorySets
  import opened SpaceCopies

  /** A LOAD program header and the file bytes it names. */
  datatype Segment = Segment(vaddr: nat, memsz: nat, data: seq<Byte>, r: bool, w: bool, x: bool)

  function SegmentStart(sg: Segment): nat { Floor(VirtAddrFrom(sg.vaddr)) }

  function SegmentEnd(sg: Segment): nat { Ceil(VirtAddrFrom(sg.vaddr + sg.memsz)) }

  /** The page after the last segment in the list, as `max_end_vpn` of the source. */
  function MaxEnd(segs: seq<Segment>): nat {
    if segs == [] then 0 else SegmentEnd(segs[|segs| - 1])
  }

  /** An image the loader can load: every segment has pages, enough for its file bytes, and no two of the
      segments, the stack behind the last segment and the trap context share a page. */
  predicate Loadable(segs: seq<Segment>) {
    && MaxEnd(segs) + 3 <= TRAP_CONTEXT_VPN
    && (forall i | 0 <= i < |segs| :: SegmentFits(segs[i]) && BesideStack(segs[i], MaxEnd(segs)))
    && (forall i, j | 0 <= i < j < |segs| :: Beside(segs[i], segs[j]))
  }

  predicate SegmentFits(sg: Segment) {
    && SegmentStart(sg) < SegmentEnd(sg) <= TRAP_CONTEXT_VPN
    && |sg.data| <= (SegmentEnd(sg) - SegmentStart(sg)) * PAGE_SIZE
  }

  predicate Beside(a: Segment, b: Segment) {
    SegmentEnd(a) <= SegmentStart(b) || SegmentEnd(b) <= SegmentStart(a)
  }

  /** The segment does not meet the two pages of a stack that begins one page after page `m`. */
  predicate BesideStack(sg: Segment, m: nat) {
    SegmentEnd(sg) <= m + 1 || m + 3 <= SegmentStart(sg)
  }

  datatype Planned = Planned(area: MapArea, data: Option<seq<Byte>>)

  function SegmentPlan(sg: Segment): Planned {
    Planned(MapArea(SegmentStart(sg), SegmentEnd(sg), map[], Framed, Permission(sg.r, sg.w, sg.x, true)), Some(sg.data))
  }

  function StackBottom(segs: seq<Segment>): nat { MaxEnd(segs) * PAGE_SIZE + PAGE_SIZE }

  function StackTop(segs: seq<Segment>): nat { StackBottom(segs) + USER_STACK_SIZE }

  function StackPlan(segs: seq<Segment>): Planned {
    Planned(MapArea(Floor(VirtAddrFrom(StackBottom(segs))), Ceil(VirtAddrFrom(StackTop(segs))), map[], Framed,
                    Permission(true, true, false, true)), None)
  }

  function TrapPlan(): Planned {
    Planned(MapArea(Floor(VirtAddrFrom(TRAP_CONTEXT)), Ceil(VirtAddrFrom(TRAMPOLINE)), map[], Framed, RW), None)
  }

  /** The areas of an application in the order in which they are pushed. */
  function Plan(segs: seq<Segment>): seq<Planned> {
    seq(|segs|, i requires 0 <= i < |segs| => SegmentPlan(segs[i])) + [StackPlan(segs), TrapPlan()]
  }

  function PlanAreas(plan: seq<Planned>): (areas: seq<MapArea>)
    ensures |areas| == |plan| && forall i | 0 <= i < |plan| :: areas[i] == plan[i].area
  {
    seq(|plan|, i requires 0 <= i < |plan| => plan[i].area)
  }

  /** The most frames that the space of an application takes. */
  function ImageCost(segs: seq<Segment>): nat { 3 + AreasCost(PlanAreas(Plan(segs))) }

  /** The areas can be pushed one after the other. */
  ghost predicate PlanOk(plan: seq<Planned>) {
    && (forall i | 0 <= i < |plan| ::
          var a := plan[i].area;
          && a.frames == map[] && a.start <= a.end <= TRAMPOLINE_VPN
          && (plan[i].data.Some? ==>
                a.kind.Framed? && a.start < a.end && |plan[i].data.value| <= (a.end - a.start) * PAGE_SIZE))
    && (forall i, j, v: nat | 0 <= i < |plan| && 0 <= j < |plan| && Covers(plan[i].area, v)
          && Covers(plan[j].area, v) :: i == j)
  }

  /** The first `n` areas of the plan are in place, with their bytes. */
  ghost predicate Loading(ph0: Phys, ph: Phys, s: Space, plan: seq<Planned>, tramp: nat) {
    && Built(ph0, ph, s, tramp) && |s.areas| <= |plan|
    && (forall i | 0 <= i < |s.areas| ::
          SameShape(plan[i].area, s.areas[i]) && AreaLoaded(ph.mem, s.areas[i], plan[i].data))
  }

  /** `s` is a new space made of the planned areas. */
  ghost predicate Loaded(ph: Phys, ph': Phys, s: Space, plan: seq<Planned>, tramp: nat) {
    Loading(ph, ph', s, plan, tramp) && |s.areas| == |plan|
  }

  lemma StackPageNumbers(m: nat)
    requires m + 3 <= TRAP_CONTEXT_VPN
    ensures Floor(VirtAddrFrom(m * PAGE_SIZE + PAGE_SIZE)) == m + 1
    ensures Ceil(VirtAddrFrom(m * PAGE_SIZE + PAGE_SIZE + USER_STACK_SIZE)) == m + 3
  {}

  lemma StackPages(segs: seq<Segment>)
    requires Loadable(segs)
    ensures var a := StackPlan(segs).area; a.start == MaxEnd(segs) + 1 && a.end == MaxEnd(segs) + 3 <= TRAP_CONTEXT_VPN
    ensures var a := TrapPlan().area; a.start == TRAP_CONTEXT_VPN && a.end == TRAMPOLINE_VPN
    ensures StackTop(segs) == (MaxEnd(segs) + 3) * PAGE_SIZE
  {
    hide MaxEnd, TrapPlan;
    TrapRange();
    StackPageNumbers(MaxEnd(segs));
  }

  lemma PlanSuffices(segs: seq<Segment>)
    requires Loadable(segs)
    ensures PlanOk(Plan(segs))
  {
    hide SegmentEnd, SegmentStart, MaxEnd, StackPlan, TrapPlan;
    StackPages(segs);
    StackShapes(segs);
    var plan, n := Plan(segs), |segs|;
    forall i | 0 <= i < |plan|
      ensures var a := plan[i].area;
              && a.frames == map[] && a.kind.Framed? && a.start < a.end <= TRAMPOLINE_VPN
              && (plan[i].data.Some? ==> |plan[i].data.value| <= (a.end - a.start) * PAGE_SIZE)
    {
      if i < n {
        assert SegmentFits(segs[i]);
      }
    }
    forall i, j, v: nat | 0 <= i < |plan| && 0 <= j < |plan| && Covers(plan[i].area, v) && Covers(plan[j].area, v)
      ensures i == j
    {
      if i < n {
        assert SegmentFits(segs[i]) && BesideStack(segs[i], MaxEnd(segs));
      }
      if j < n {
        assert SegmentFits(segs[j]) && BesideStack(segs[j], MaxEnd(segs));
      }
    }
  }

  /** Where the stack ends up if the last segment ends at page `m`. */
  lemma StackRange(m: nat)
    requires m <= TRAP_CONTEXT_VPN
    ensures var start := Floor(VirtAddrFrom(m * PAGE_SIZE + PAGE_SIZE));
            var end := Ceil(VirtAddrFrom(m * PAGE_SIZE + PAGE_SIZE + USER_STACK_SIZE));
            start <= end ==> m + 3 < VPN_LIMIT && start == m + 1 && end == m + 3
  {
    assert VirtAddrFrom(m * PAGE_SIZE + PAGE_SIZE) == (m + 1) * PAGE_SIZE;
    if m + 3 >= VPN_LIMIT {
      assert VirtAddrFrom(m * PAGE_SIZE + PAGE_SIZE + USER_STACK_SIZE) == (m + 3 - VPN_LIMIT) * PAGE_SIZE;
    } else {
      assert VirtAddrFrom(m * PAGE_SIZE + PAGE_SIZE + USER_STACK_SIZE) == (m + 3) * PAGE_SIZE;
    }
  }

  lemma AreasBeside(plan: seq<Planned>, i: nat, j: nat)
    requires PlanOk(plan) && i < |plan| && j < |plan| && i != j
    requires plan[i].area.start < plan[i].area.end && plan[j].area.start < plan[j].area.end
    ensures plan[i].area.end <= plan[j].area.start || plan[j].area.end <= plan[i].area.start
  {
    var a, b := plan[i].area, plan[j].area;
    var v := if a.start > b.start then a.start else b.start;
    assert !(Covers(a, v) && Covers(b, v));
  }

  lemma PlanNeeds(segs: seq<Segment>)
    requires PlanOk(Plan(segs))
    ensures Loadable(segs)
  {
    var plan, n, m := Plan(segs), |segs|, MaxEnd(segs);
    hide SegmentEnd, SegmentStart, PlanOk;
    TrapRange();
    forall i | 0 <= i < n ensures plan[i] == SegmentPlan(segs[i]) && SegmentFits(segs[i]) {
      PlannedShape(plan, i);
      AreasBeside(plan, i, n + 1);
    }
    StackRange(m);
    PlannedShape(plan, n);
    hide StackPlan, TrapPlan, MaxEnd;
    AreasBeside(plan, n, n + 1);
    forall i | 0 <= i < n ensures BesideStack(segs[i], m) {
      AreasBeside(plan, i, n);
    }
    forall i, j | 0 <= i < j < n ensures Beside(segs[i], segs[j]) {
      AreasBeside(plan, i, j);
    }
  }

  lemma PlannedShape(plan: seq<Planned>, i: nat)
    requires PlanOk(plan) && i < |plan|
    ensures var a := plan[i].area;
            && a.start <= a.end <= TRAMPOLINE_VPN
            && (plan[i].data.Some? ==> a.start < a.end && |plan[i].data.value| <= (a.end - a.start) * PAGE_SIZE)
  {}

  lemma TrapRange()
    ensures TrapPlan().area.start == TRAP_CONTEXT_VPN && TrapPlan().area.end == TRAMPOLINE_VPN
  {
    assert VirtAddrFrom(TRAP_CONTEXT) == TRAP_CONTEXT_VPN * PAGE_SIZE;
    assert VirtAddrFrom(TRAMPOLINE) == TRAMPOLINE_VPN * PAGE_SIZE;
    hide VirtAddrFrom;
  }

  /** Exactly the loadable images can be pushed area by area. */
  lemma PlanIsOk(segs: seq<Segment>)
    ensures PlanOk(Plan(segs)) <==> Loadable(segs)
  {
    hide PlanOk, Loadable;
    if Loadable(segs) {
      PlanSuffices(segs);
    }
    if PlanOk(Plan(segs)) {
      PlanNeeds(segs);
    }
  }

  lemma StackShapes(segs: seq<Segment>)
    ensures StackPlan(segs).data.None? && TrapPlan().data.None?
    ensures StackPlan(segs).area.frames == map[] && StackPlan(segs).area.kind.Framed?
    ensures TrapPlan().area.frames == map[] && TrapPlan().area.kind.Framed?
  {}

  /** The next planned area has no page in common with those in place. */
  lemma PlannedApart(ph0: Phys, ph: Phys, s: Space, plan: seq<Planned>, tramp: nat)
    requires PlanOk(plan) && Loading(ph0, ph, s, plan, tramp) && |s.areas| < |plan|
    ensures Apart(s.areas, plan[|s.areas|].area)
  {
    hide Built, AreaLoaded;
    var a := plan[|s.areas|].area;
    forall v: nat | Covers(a, v) ensures !InSomeArea(s.areas, v) {
      forall i | 0 <= i < |s.areas| ensures !Covers(s.areas[i], v) {
        assert SameShape(plan[i].area, s.areas[i]);
      }
    }
  }

  lemma PlannedPushed(ph0: Phys, ph: Phys, s: Space, ph': Phys, s': Space, plan: seq<Planned>, tramp: nat)
    requires Loading(ph0, ph, s, plan, tramp) && |s.areas| < |plan| && Owned(s) !! ph.free
    requires plan[|s.areas|].area.frames == map[]
    requires Pushed(ph, s, ph', s', plan[|s.areas|].area, plan[|s.areas|].data, tramp)
    ensures Loading(ph0, ph', s', plan, tramp) && |s'.areas| == |s.areas| + 1
  {
    hide SpaceOk, SpaceGrown, AreaLoaded, Owned, Built;
    BuiltThenGrown(ph0, ph, s, ph', s', tramp);
    assert forall i | 0 <= i < |s.areas| :: s'.areas[i] == s'.areas[..|s.areas|][i] == s.areas[i];
    forall i | 0 <= i < |s.areas| ensures AreaLoaded(ph'.mem, s.areas[i], plan[i].data) {
      StillLoaded(ph0, ph, s, ph', s', tramp, i, plan[i].data);
    }
  }

  lemma StillLoaded(ph0: Phys, ph: Phys, s: Space, ph': Phys, s': Space, tramp: nat, i: nat, data: Option<seq<Byte>>)
    requires Built(ph0, ph, s, tramp) && Owned(s) !! ph.free && SpaceGrown(ph, s, ph', s')
    requires i < |s.areas| && AreaLoaded(ph.mem, s.areas[i], data)
    ensures AreaLoaded(ph'.mem, s.areas[i], data)
  {
    hide SpaceGrown, Owned, Built, FrameAt, InitialPage;
    forall v | v in s.areas[i].frames
      ensures FrameAt(ph'.mem, s.areas[i].frames[v]) == FrameAt(ph.mem, s.areas[i].frames[v])
    {
      KeptData(ph0, ph, s, ph', s', tramp, i, v);
    }
  }

  /** Push the next area of the plan. */
  method PushPlanned(ram: Ram, ms: MemorySet, area: MapArea, data: Option<seq<Byte>>, ghost ph0: Phys,
                     ghost plan: seq<Planned>, ghost tramp: nat)
    returns (ok: bool)
    requires ms.Valid(ram, tramp) && PlanOk(plan) && Loading(ph0, ram.View(), ms.View(), plan, tramp)
    requires |ms.areas| < |plan| && plan[|ms.areas|] == Planned(area, data)
    modifies ms, ms.table, ram, ram.frames
    ensures ram.Valid() && ram.Pool() == old(ram.Pool())
    ensures !ok ==> ram.View().free == {}
    ensures ok ==>
              ms.Valid(ram, tramp) && Loading(ph0, ram.View(), ms.View(), plan, tramp)
                  && |ms.areas| == |old(ms.areas)| + 1
    ensures Spent(ph0.free, old(ram.View().free), 3 + AreasCost(PlanAreas(plan)[..|old(ms.areas)|]))
            ==> Spent(ph0.free, ram.View().free, 3 + AreasCost(PlanAreas(plan)[..|old(ms.areas)| + 1]))
                && Spent(ph0.free, ram.View().free, 3 + AreasCost(PlanAreas(plan)))
  {
    hide SpaceOk, Owned, Loading, Apart, Pushed, Spent, AreaCost, AreasCost, StackFrameAllocator.Free,
         StackFrameAllocator.Valid, StackFrameAllocator.Pool;
    ghost var ph, s := ram.View(), ms.View();
    PlannedApart(ph0, ph, s, plan, tramp);
    ok := ms.Push(ram, area, data, tramp);
    if Spent(ph0.free, ph.free, 3 + AreasCost(PlanAreas(plan)[..|s.areas|])) {
      assert area == PlanAreas(plan)[|s.areas|] == PlanAreas(plan)[|s.areas|].(frames := map[]);
      CostOfNext(ph0.free, ph.free, ram.View().free, PlanAreas(plan), |s.areas|);
    }
    if ok {
      PlannedPushed(ph0, ph, s, ram.View(), ms.View(), plan, tramp);
    }
  }

  /** `MemorySet::from_elf`: the space of an application and its initial stack pointer. Null
      stands for the panic when memory runs out. */
  method FromElf(ram: Ram, segs: seq<Segment>, tramp: nat) returns (ms: MemorySet?, userSp: nat)
    requires ram.Valid() && Loadable(segs) && tramp < TWO_44
    modifies ram, ram.frames
    ensures ram.Valid() && ram.Pool() == old(ram.Pool())
    ensures ms == null ==> ram.View().free == {}
    ensures ms != null ==> fresh(ms) && fresh(ms.table) && ms.Valid(ram, tramp)
    ensures ms != null ==> Loaded(old(ram.View()), ram.View(), ms.View(), Plan(segs), tramp) && userSp == StackTop(segs)
    ensures Spent(old(ram.View().free), ram.View().free, ImageCost(segs))
  {
    hide SpaceOk, Owned, Loading, PlanOk, Loadable, SegmentStart, SegmentEnd, Floor, Ceil, VirtAddrFrom, Built, Spent,
         AreasCost, PlanAreas, StackFrameAllocator.Free, StackFrameAllocator.Valid, StackFrameAllocator.Pool;
    ghost var ph0, plan := ram.View(), Plan(segs);
    PlanIsOk(segs);
    userSp := 0;
    ms := MemorySet.NewWithTrampoline(ram, tramp);
    SpentMore(ph0.free, ram.View().free, 3, ImageCost(segs));
    if ms == null {
      return;
    }
    assert PlanAreas(plan)[..0] == [];
    NothingLoaded(ph0, ram.View(), ms.View(), plan, tramp);
    var maxEndVpn := 0;
    var i := 0;
    while i < |segs|
      invariant 0 <= i <= |segs| && |ms.areas| == i && maxEndVpn == MaxEnd(segs[..i])
      invariant fresh(ms) && fresh(ms.table) && ram.Pool() == old(ram.Pool())
      invariant ms.Valid(ram, tramp) && Loading(ph0, ram.View(), ms.View(), plan, tramp)
      invariant Spent(ph0.free, ram.View().free, 3 + AreasCost(PlanAreas(plan)[..i]))
    {
      var sg := segs[i];
      var startVa, endVa := VirtAddrFrom(sg.vaddr), VirtAddrFrom(sg.vaddr + sg.memsz);
      var area := MapArea(Floor(startVa), Ceil(endVa), map[], Framed, Permission(sg.r, sg.w, sg.x, true));
      maxEndVpn := area.end;
      assert plan[i] == SegmentPlan(sg) == Planned(area, Some(sg.data)) by { SegmentPlanned(sg); }
      var ok := PushPlanned(ram, ms, area, Some(sg.data), ph0, plan, tramp);
      if !ok {
        return null, 0;
      }
      assert segs[..i + 1][i] == sg;
      i := i + 1;
    }
    assert segs[..i] == segs;
    var userStackBottom := maxEndVpn * PAGE_SIZE + PAGE_SIZE;
    userSp := userStackBottom + USER_STACK_SIZE;
    var stack := MapArea(Floor(VirtAddrFrom(userStackBottom)), Ceil(VirtAddrFrom(userSp)), map[], Framed,
                         Permission(true, true, false, true));
    var ok := PushPlanned(ram, ms, stack, None, ph0, plan, tramp);
    if !ok {
      return null, 0;
    }
    var trap := MapArea(Floor(VirtAddrFrom(TRAP_CONTEXT)), Ceil(VirtAddrFrom(TRAMPOLINE)), map[], Framed, RW);
    ok := PushPlanned(ram, ms, trap, None, ph0, plan, tramp);
    if !ok {
      return null, 0;
    }
  }

  lemma SegmentPlanned(sg: Segment)
    ensures SegmentPlan(sg) == Planned(MapArea(Floor(VirtAddrFrom(sg.vaddr)), Ceil(VirtAddrFrom(sg.vaddr + sg.memsz)),
                                               map[], Framed, Permission(sg.r, sg.w, sg.x, true)), Some(sg.data))
  {}

  lemma NothingLoaded(ph0: Phys, ph: Phys, s: Space, plan: seq<Planned>, tramp: nat)
    requires Built(ph0, ph, s, tramp) && s.areas == []
    ensures Loading(ph0, ph, s, plan, tramp)
  {}

  // ---- what the application sees ----

  /** The byte at a virtual address, through the page table. */
  function ReadVirtual(mem: Memory, root: nat, va: nat): Byte {
    FrameAt(mem, PtePpn(EntryOf(mem, root, Floor(va))))[PageOffset(va)]
  }

  /** Where the hardware lets an access through, that is the byte it finds. */
  lemma AccessReads(mem: Memory, t: Table, satp: nat, va: nat, acc: Access, priv: Privilege)
    requires TableOk(mem, t) && SatpMode(satp) == SV39 && SatpPpn(satp) == t.root
    requires Physical(mem, satp, va, acc, priv).Some?
    ensures var pa := Physical(mem, satp, va, acc, priv).value;
            FrameAt(mem, pa / 0x1000)[pa % 0x1000] == ReadVirtual(mem, t.root, va % 0x80_0000_0000)
  {
    hide TableOk, Physical, SatpMode, SatpPpn, LegalLeaf, Permits, Canonical, PtePpn, FrameAt, Translate;
    PhysicalAgrees(mem, t, satp, va, acc, priv);
    PageNumber(va);
    TranslateRefinesFlat(mem, t, Floor(VirtAddrFrom(va)));
    PageAligned(va);
  }

  lemma OverlayByte(data: seq<Byte>, k: nat)
    ensures Overlay(ZeroFrame(), Chunk(data, k / PAGE_SIZE))[k % PAGE_SIZE] == if k < |data| then data[k] else 0
  {
    var j, off := k / PAGE_SIZE, k % PAGE_SIZE;
    var chunk := Chunk(data, j);
    assert k == j * PAGE_SIZE + off;
    if off < |chunk| {
      assert chunk[off] == data[j * PAGE_SIZE + off];
    } else {
      assert Overlay(ZeroFrame(), chunk)[off] == ZeroFrame()[off];
    }
  }

  /** A byte of a page of a framed area, read through the page table. */
  lemma ReadThroughTable(mem: Memory, s: Space, tramp: nat, i: nat, va: nat)
    requires SpaceOk(mem, s, tramp) && i < |s.areas| && s.areas[i].kind.Framed? && Covers(s.areas[i], Floor(va))
    ensures Floor(va) in s.areas[i].frames
    ensures ReadVirtual(mem, s.table.root, va) == FrameAt(mem, s.areas[i].frames[Floor(va)])[PageOffset(va)]
    ensures Floor(va) in s.table.flat
    ensures s.table.flat[Floor(va)] == LeafPte(s.areas[i].frames[Floor(va)], s.areas[i].perm)
  {
    hide AreasOk, TableOk, FrameAt, LeafPte, PtePpn, Translate, Floor, PageOffset;
    FramedPage(mem, s, tramp, i, Floor(va));
    PageTranslates(mem, s, tramp, i, Floor(va));
  }

  /** Byte `k` of the memory of a segment, as its file has it: the file bytes followed by zeros. */
  function FileByte(sg: Segment, k: nat): Byte { if k < |sg.data| then sg.data[k] else 0 }

  /** Page `v` is open to user mode with the permissions of the segment's header. */
  predicate SegmentPage(flat: map<nat, nat>, sg: Segment, v: nat) {
    && v in flat && IsValid(flat[v]) && UserAccessible(flat[v])
    && Readable(flat[v]) == sg.r && Writable(flat[v]) == sg.w && Executable(flat[v]) == sg.x
  }

  /** What the loader leaves at the pages of a segment: the file bytes from the start of the first page on,
      then zeros, with the permissions of the header for user mode. */
  lemma SegmentReads(ph: Phys, ph': Phys, s: Space, segs: seq<Segment>, tramp: nat, i: nat, k: nat)
    requires Loadable(segs) && Loaded(ph, ph', s, Plan(segs), tramp)
    requires i < |segs| && k < (SegmentEnd(segs[i]) - SegmentStart(segs[i])) * PAGE_SIZE
    ensures ReadVirtual(ph'.mem, s.table.root, SegmentStart(segs[i]) * PAGE_SIZE + k) == FileByte(segs[i], k)
    ensures SegmentPage(s.table.flat, segs[i], SegmentStart(segs[i]) + k / PAGE_SIZE)
  {
    hide IsValid, UserAccessible, Readable, Writable, Executable, PtePpn, SpaceOk, FrameAt, LeafPte, EntryOf, Overlay,
         ZeroFrame, Chunk, SegmentStart, SegmentEnd, ReadVirtual, Loadable, Loaded, Plan, Floor, PageOffset;
    var sg, va := segs[i], SegmentStart(segs[i]) * PAGE_SIZE + k;
    SegmentArea(ph, ph', s, segs, tramp, i);
    InSegment(SegmentStart(sg), SegmentEnd(sg), k);
    ReadThroughTable(ph'.mem, s, tramp, i, va);
    FrameInRange(ph'.mem, s, tramp, i, Floor(va));
    LeafPteFields(s.areas[i].frames[Floor(va)], s.areas[i].perm);
    OverlayByte(sg.data, k);
  }

  lemma SegmentArea(ph: Phys, ph': Phys, s: Space, segs: seq<Segment>, tramp: nat, i: nat)
    requires Loadable(segs) && Loaded(ph, ph', s, Plan(segs), tramp) && i < |segs|
    ensures SpaceOk(ph'.mem, s, tramp) && i < |s.areas| && SegmentFits(segs[i])
    ensures SameShape(SegmentPlan(segs[i]).area, s.areas[i]) && AreaLoaded(ph'.mem, s.areas[i], Some(segs[i].data))
  {
    hide SpaceOk, AreaLoaded, SegmentStart, SegmentEnd, StackPlan, TrapPlan, SameShape;
    assert Plan(segs)[i] == SegmentPlan(segs[i]);
  }

  /** Address `k` of the segment lies in its pages. */
  predicate InPages(sg: Segment, k: nat) {
    PageOffset(VirtAddrFrom(sg.vaddr)) + k < (SegmentEnd(sg) - SegmentStart(sg)) * PAGE_SIZE
  }

  /** The application finds its bytes at their addresses exactly if shifting them by the offset of the
      segment in its first page makes no difference: the loader copies to the start of the page. In
      particular it does for a segment that begins at a page boundary. */
  lemma SegmentExact(ph: Phys, ph': Phys, s: Space, segs: seq<Segment>, tramp: nat, i: nat)
    requires Loadable(segs) && Loaded(ph, ph', s, Plan(segs), tramp) && i < |segs|
    ensures var sg := segs[i];
            var base, off := VirtAddrFrom(sg.vaddr), PageOffset(VirtAddrFrom(sg.vaddr));
            && ((forall k: nat | InPages(sg, k) :: ReadVirtual(ph'.mem, s.table.root, base + k) == FileByte(sg, k))
                <==> forall k: nat | InPages(sg, k) :: FileByte(sg, off + k) == FileByte(sg, k))
            && (off == 0 ==>
                  forall k: nat | InPages(sg, k) :: ReadVirtual(ph'.mem, s.table.root, base + k) == FileByte(sg, k))
  {
    hide ReadVirtual, FileByte, Loadable, Loaded, Plan, PageOffset, VirtAddrFrom, InPages;
    forall k: nat | InPages(segs[i], k)
      ensures var base := VirtAddrFrom(segs[i].vaddr);
              ReadVirtual(ph'.mem, s.table.root, base + k) == FileByte(segs[i], PageOffset(base) + k)
    {
      SegmentShifted(ph, ph', s, segs, tramp, i, k);
    }
  }

  lemma PageParts(a: nat)
    ensures a == Floor(a) * PAGE_SIZE + PageOffset(a)
  {}

  lemma SegmentShifted(ph: Phys, ph': Phys, s: Space, segs: seq<Segment>, tramp: nat, i: nat, k: nat)
    requires Loadable(segs) && Loaded(ph, ph', s, Plan(segs), tramp) && i < |segs| && InPages(segs[i], k)
    ensures var base := VirtAddrFrom(segs[i].vaddr);
            ReadVirtual(ph'.mem, s.table.root, base + k) == FileByte(segs[i], PageOffset(base) + k)
  {
    hide ReadVirtual, FileByte, Loadable, Loaded, Plan, SegmentEnd, PageOffset, VirtAddrFrom;
    var base := VirtAddrFrom(segs[i].vaddr);
    PageParts(base);
    SegmentReads(ph, ph', s, segs, tramp, i, PageOffset(base) + k);
  }

  // ---- over the program header ----

  /** The segment from its address `base`, modulo 2^39, on does not run out of the 39-bit address space. */
  predicate NoWrap(sg: Segment) { sg.vaddr % 0x80_0000_0000 + sg.memsz < 0x80_0000_0000 }

  /** Start and end of a segment in bytes and in pages. */
  lemma SegmentBounds(sg: Segment)
    requires NoWrap(sg)
    ensures var base := sg.vaddr % 0x80_0000_0000;
            && base == VirtAddrFrom(sg.vaddr) && SegmentStart(sg) * 0x1000 <= base < (SegmentStart(sg) + 1) * 0x1000
            && base + sg.memsz <= SegmentEnd(sg) * 0x1000 < base + sg.memsz + 0x1000
            && PageOffset(base) == base - SegmentStart(sg) * 0x1000
  {
    var base, n := sg.vaddr % TWO_39, sg.memsz;
    assert sg.vaddr == sg.vaddr / TWO_39 * TWO_39 + base;
    EndAddress(sg.vaddr / TWO_39, base, n);
  }

  lemma EndAddress(q: nat, base: nat, n: nat)
    requires base + n < TWO_39
    ensures VirtAddrFrom(q * TWO_39 + base + n) == base + n
  {}

  /** The pages of a segment are exactly those that hold an address of it, from its first page on. */
  lemma SegmentExtent(ph: Phys, ph': Phys, s: Space, segs: seq<Segment>, tramp: nat, i: nat, v: nat)
    requires Loadable(segs) && Loaded(ph, ph', s, Plan(segs), tramp) && i < |segs| && NoWrap(segs[i])
    ensures var base := segs[i].vaddr % 0x80_0000_0000;
            i < |s.areas| && (Covers(s.areas[i], v) <==> base < (v + 1) * 0x1000 && v * 0x1000 < base + segs[i].memsz)
  {
    hide Loadable, Loaded, Plan, SegmentStart, SegmentEnd, SpaceOk, AreaLoaded;
    SegmentArea(ph, ph', s, segs, tramp, i);
    SegmentBounds(segs[i]);
  }

  /** Every address of a segment is mapped with the permissions of its header, and if the segment begins at
      a page boundary it reads as the file bytes followed by zeros, up to `memsz`. */
  lemma SegmentMapped(ph: Phys, ph': Phys, s: Space, segs: seq<Segment>, tramp: nat, i: nat, a: nat)
    requires Loadable(segs) && Loaded(ph, ph', s, Plan(segs), tramp) && i < |segs| && NoWrap(segs[i])
    requires segs[i].vaddr % 0x80_0000_0000 <= a < segs[i].vaddr % 0x80_0000_0000 + segs[i].memsz
    ensures SegmentPage(s.table.flat, segs[i], a / 0x1000)
    ensures segs[i].vaddr % 0x1000 == 0 ==>
              var k := a - segs[i].vaddr % 0x80_0000_0000;
              ReadVirtual(ph'.mem, s.table.root, a) == if k < |segs[i].data| then segs[i].data[k] else 0
  {
    hide Loadable, Loaded, Plan, ReadVirtual, SegmentPage;
    var sg := segs[i];
    SegmentBounds(sg);
    PageAligned(sg.vaddr);
    hide SegmentStart, SegmentEnd, PageOffset, VirtAddrFrom;
    var m := SegmentStart(sg);
    var k := a - m * 0x1000;
    assert k / 0x1000 == a / 0x1000 - m;
    SegmentReads(ph, ph', s, segs, tramp, i, k);
  }

  lemma PageAligned(va: nat)
    ensures PageOffset(VirtAddrFrom(va)) == va % 0x1000
  {}

  /** The top of the stack: three pages above the end of the last segment, rounded up. */
  lemma StackAbove(segs: seq<Segment>)
    requires Loadable(segs)
    ensures segs == [] ==> StackTop(segs) == 0x3000
    ensures segs != [] && NoWrap(segs[|segs| - 1]) ==>
              var sg := segs[|segs| - 1];
              var end := sg.vaddr % 0x80_0000_0000 + sg.memsz;
              StackTop(segs) % 0x1000 == 0 && end + 0x3000 <= StackTop(segs) < end + 0x4000
  {
    StackPages(segs);
    if segs != [] && NoWrap(segs[|segs| - 1]) {
      SegmentBounds(segs[|segs| - 1]);
      hide SegmentStart, SegmentEnd, Loadable, StackTop;
    }
  }

  /** What the header permits, as far as an entry can say it: W without R is reserved. */
  predicate HeaderAllows(sg: Segment, acc: Access) {
    && (match acc case Load => sg.r case Store => sg.w case Fetch => sg.x)
    && (sg.r || sg.x) && (sg.w ==> sg.r)
  }

  /** What the hardware lets user mode do at the addresses of a segment: exactly what its header says. */
  lemma SegmentAccess(ph: Phys, ph': Phys, s: Space, segs: seq<Segment>, tramp: nat, satp: nat, i: nat, a: nat,
                      acc: Access)
    requires Loadable(segs) && Loaded(ph, ph', s, Plan(segs), tramp) && i < |segs| && NoWrap(segs[i])
    requires segs[i].vaddr % 0x80_0000_0000 <= a < segs[i].vaddr % 0x80_0000_0000 + segs[i].memsz
    requires SatpMode(satp) == SV39 && SatpPpn(satp) == s.table.root
    ensures Physical(ph'.mem, satp, a, acc, User).Some?
            <==> Canonical(a) && HeaderAllows(segs[i], acc)
  {
    hide Loadable, Loaded, Plan, SpaceOk, AreaLoaded, Physical, LeafPte, Canonical, SatpMode, SatpPpn, SegmentStart,
         SegmentEnd;
    SegmentArea(ph, ph', s, segs, tramp, i);
    SegmentExtent(ph, ph', s, segs, tramp, i, a / 0x1000);
    LowPage(a);
    PageTranslates(ph'.mem, s, tramp, i, a / 0x1000);
    FrameInRange(ph'.mem, s, tramp, i, a / 0x1000);
    TableOfSpace(ph'.mem, s, tramp);
    MappedAddress(ph'.mem, s.table, satp, a, PpnOf(s.areas[i], a / 0x1000), s.areas[i].perm, acc, User);
  }

  /** The stack is two pages of zeros that user mode may read and write but not execute. */
  lemma StackAccess(ph: Phys, ph': Phys, s: Space, segs: seq<Segment>, tramp: nat, satp: nat, a: nat, acc: Access)
    requires Loadable(segs) && Loaded(ph, ph', s, Plan(segs), tramp)
    requires StackTop(segs) - 0x2000 <= a < StackTop(segs)
    requires SatpMode(satp) == SV39 && SatpPpn(satp) == s.table.root
    ensures Physical(ph'.mem, satp, a, acc, User).Some? <==> Canonical(a) && !acc.Fetch?
    ensures ReadVirtual(ph'.mem, s.table.root, a) == 0
  {
    hide Loadable, SpaceOk, AreaLoaded, Physical, LeafPte, Canonical, SatpMode, SatpPpn, SegmentStart, SegmentEnd,
         ReadVirtual, MaxEnd;
    GuardPage(ph, ph', s, segs, tramp);
    StackPages(segs);
    var n := |segs|;
    assert Plan(segs)[n] == StackPlan(segs) && SameShape(Plan(segs)[n].area, s.areas[n]);
    LowPage(a);
    PageTranslates(ph'.mem, s, tramp, n, a / 0x1000);
    FrameInRange(ph'.mem, s, tramp, n, a / 0x1000);
    TableOfSpace(ph'.mem, s, tramp);
    MappedAddress(ph'.mem, s.table, satp, a, PpnOf(s.areas[n], a / 0x1000), s.areas[n].perm, acc, User);
  }

  lemma LowPage(a: nat)
    requires a < TWO_39
    ensures Floor(VirtAddrFrom(a)) == a / 0x1000
  {}

  lemma TableOfSpace(mem: Memory, s: Space, tramp: nat)
    requires SpaceOk(mem, s, tramp)
    ensures TableOk(mem, s.table)
  {}

  lemma FrameInRange(mem: Memory, s: Space, tramp: nat, i: nat, v: nat)
    requires SpaceOk(mem, s, tramp) && i < |s.areas| && Covers(s.areas[i], v)
    ensures PpnOf(s.areas[i], v) < TWO_44
  {
    hide TableOk, DisjointAreas, AreasMapped, NothingElse, InjectiveFrames, DataFrames, LeafPte;
    assert AreaShape(s.areas[i]);
  }

  lemma InSegment(m: nat, n: nat, k: nat)
    requires m < n && k < (n - m) * PAGE_SIZE
    ensures Floor(m * PAGE_SIZE + k) == m + k / PAGE_SIZE < n && PageOffset(m * PAGE_SIZE + k) == k % PAGE_SIZE
  {
    assert (m * PAGE_SIZE + k) / PAGE_SIZE == m + k / PAGE_SIZE;
  }

  /** The stack reads as zeros, and the page below it is not mapped, unless a segment that is not the last one
      in the list has it. */
  lemma GuardPage(ph: Phys, ph': Phys, s: Space, segs: seq<Segment>, tramp: nat)
    requires Loadable(segs) && Loaded(ph, ph', s, Plan(segs), tramp)
    ensures MaxEnd(segs) !in s.table.flat
            <==> forall i | 0 <= i < |segs| :: !(SegmentStart(segs[i]) <= MaxEnd(segs) < SegmentEnd(segs[i]))
    ensures forall va: nat | StackBottom(segs) <= va < StackTop(segs) :: ReadVirtual(ph'.mem, s.table.root, va) == 0
  {
    hide TableOk, FrameAt, SegmentEnd, SegmentStart, MaxEnd, AreaLoaded, DataFrames, ReadVirtual, Loadable;
    StackPages(segs);
    hide StackPlan, TrapPlan;
    var g, n := MaxEnd(segs), |segs|;
    forall i | 0 <= i < |s.areas| ensures Covers(s.areas[i], g) <==> i < n && Covers(SegmentPlan(segs[i]).area, g) {
      assert SameShape(Plan(segs)[i].area, s.areas[i]);
    }
    if MaxEnd(segs) in s.table.flat {
      assert InSomeArea(s.areas, g);
      var i :| 0 <= i < |s.areas| && Covers(s.areas[i], g);
    }
    if i :| 0 <= i < n && Covers(SegmentPlan(segs[i]).area, g) {
      assert Covers(s.areas[i], g);
    }
    forall va: nat | StackBottom(segs) <= va < StackTop(segs)
      ensures ReadVirtual(ph'.mem, s.table.root, va) == 0
    {
      assert Plan(segs)[n] == StackPlan(segs);
      StackReads(ph', s, tramp, n, va);
    }
  }

  lemma StackReads(ph': Phys, s: Space, tramp: nat, n: nat, va: nat)
    requires SpaceOk(ph'.mem, s, tramp) && n < |s.areas| && s.areas[n].kind.Framed?
    requires AreaLoaded(ph'.mem, s.areas[n], None)
    requires s.areas[n].start * PAGE_SIZE <= va < s.areas[n].end * PAGE_SIZE
    ensures ReadVirtual(ph'.mem, s.table.root, va) == 0
  {
    hide SpaceOk, FrameAt, LeafPte, EntryOf, ReadVirtual;
    assert Covers(s.areas[n], Floor(va));
    ReadThroughTable(ph'.mem, s, tramp, n, va);
  }
}
