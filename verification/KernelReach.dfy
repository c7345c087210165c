/** What the hardware lets each mode do, in every state of every run: through the tables of the live tasks
    and through the kernel's own (os/src/mm/memory_set.rs, os/src/trap/trap.S, os/src/linker-qemu.ld). An
    access that is not permitted is a fault. */
module KernelReach {
  import opened Address
  import opened PhysicalMemory
  import opened PageTableEntries
  import opened FrameAllocation
  import opened TableModel
  import opened HardwareWalk
  import opened SpaceModel
  import opened MemorySets
  import opened SpaceCopies
  import opened ElfLoading
  import opened UserBuffers
  import opened Ledger
  import opened KernelModel
  import opened KernelSteps
  import opened KernelMemory
  import opened KernelFork
  import opened KernelReap
  import opened KernelTheorems
  import opened KernelProcesses
  import opened KernelIsolation
  import opened StepFacts
  import opened KernelBoot

  /** The address space of a live task, or kernel space. */
  ghost predicate IsLiveSpace(k: Kernel, s: Space) {
    s == k.kspace || exists id :: id in k.tasks && !k.tasks[id].status.Zombie? && k.tasks[id].space == s
  }

  lemma LiveSpace(l: Layout, k: Kernel, s: Space)
    requires Inv(l, k) && IsLiveSpace(k, s)
    ensures SpaceOk(k.phys.mem, s, l.tramp) && TableOk(k.phys.mem, s.table) && AreasOk(s, l.tramp)
    ensures SatpMode(Token(s.table.root)) == SV39 && SatpPpn(Token(s.table.root)) == s.table.root
    ensures l.tramp < TWO_44
  {
    hide TreeOk, SchedOk, PidsOk, StacksOk, Balanced, BookOf, TableOk, AreasOk, TrapPageOk, TrapContextOk, LayoutOk,
         SatpMode, SatpPpn, SatpAsid, Token;
    TrampInRange(l);
    if s != k.kspace {
      var id :| id in k.tasks && !k.tasks[id].status.Zombie? && k.tasks[id].space == s;
      assert TaskMemoryOk(l, k.phys.mem, k.kspace.table.root, k.tasks[id]);
    }
    TableRoot(k.phys.mem, s.table);
    TokenFields(s.table.root);
  }

  /** The code of `__alltraps` and `__restore` stays under the program counter when `satp` is switched: in
      every live space supervisor mode, and only it, executes the trampoline frame at the same addresses,
      and nobody writes it there. */
  lemma TrampolineFetched(l: Layout, k: Kernel, s: Space, o: nat, acc: Access, priv: Privilege)
    requires Inv(l, k) && IsLiveSpace(k, s) && o < 0x1000
    ensures Physical(k.phys.mem, Token(s.table.root), 0xFFFF_FFFF_FFFF_F000 + o, acc, priv)
            == if priv.Supervisor? && !acc.Store? then Some(l.tramp * 0x1000 + o) else None
  {
    hide Inv, IsLiveSpace, Physical, Token, SatpMode, SatpPpn, TableOk, Floor, VirtAddrFrom, Canonical, LeafPte,
         PageOffset, ShapesOk, DisjointAreas, AreasMapped, NothingElse, InjectiveFrames, DataFrames;
    LiveSpace(l, k, s);
    TopPage(1, o);
    MappedAddress(k.phys.mem, s.table, Token(s.table.root), 0xFFFF_FFFF_FFFF_F000 + o, l.tramp, RX, acc, priv);
  }

  /** The `n`-th page from the top. */
  lemma TopPage(n: nat, o: nat)
    requires 1 <= n <= VPN_LIMIT / 2 && o < 0x1000
    ensures var va := TWO_64 - n * 0x1000 + o;
            Canonical(va) && Floor(VirtAddrFrom(va)) == VPN_LIMIT - n && PageOffset(va) == o
  {
    var va := TWO_64 - n * 0x1000 + o;
    assert va == (TWO_64 - TWO_39) + ((VPN_LIMIT - n) * 0x1000 + o);
    assert (TWO_64 - TWO_39) == 0x1FF_FFFF * TWO_39;
    assert VirtAddrFrom(va) == (VPN_LIMIT - n) * 0x1000 + o;
    assert va == (TWO_64 / 0x1000 - n) * 0x1000 + o;
  }

  /** The trap context page of a live task is data of supervisor mode, in the frame that the task names. */
  lemma ContextReached(l: Layout, k: Kernel, id: nat, o: nat, acc: Access, priv: Privilege)
    requires Inv(l, k) && id in k.tasks && !k.tasks[id].status.Zombie? && o < 0x1000
    ensures Physical(k.phys.mem, Token(k.tasks[id].space.table.root), 0xFFFF_FFFF_FFFF_E000 + o, acc, priv)
            == if priv.Supervisor? && !acc.Fetch? then Some(k.tasks[id].trapCxPpn * 0x1000 + o) else None
  {
    hide Inv, Physical, Token, SatpMode, SatpPpn, TableOk, Floor, VirtAddrFrom, Canonical, LeafPte, PageOffset,
         SpaceOk, AreasOk, TrapContextOk;
    var t := k.tasks[id];
    assert IsLiveSpace(k, t.space);
    LiveSpace(l, k, t.space);
    LiveTrapPage(l, k, id);
    var n := |t.space.areas| - 1;
    assert Covers(t.space.areas[n], TRAP_CONTEXT_VPN);
    PageTranslates(k.phys.mem, t.space, l.tramp, n, TRAP_CONTEXT_VPN);
    FrameInRange(k.phys.mem, t.space, l.tramp, n, TRAP_CONTEXT_VPN);
    TopPage(2, o);
    MappedAddress(k.phys.mem, t.space.table, Token(t.space.table.root), 0xFFFF_FFFF_FFFF_E000 + o, t.trapCxPpn, RW,
        acc, priv);
  }

  /** What any mode reaches in a live space besides the trampoline: exactly the pages of its areas, each with
      the accesses of the area, in the frame of the page. */
  lemma AreasReached(l: Layout, k: Kernel, s: Space, va: nat, acc: Access, priv: Privilege)
    requires Inv(l, k) && IsLiveSpace(k, s) && Floor(VirtAddrFrom(va)) != TRAMPOLINE_VPN
    ensures var v, pa := Floor(VirtAddrFrom(va)), Physical(k.phys.mem, Token(s.table.root), va, acc, priv);
            && (pa.Some? <==>
                  Canonical(va) && exists i ::
                      0 <= i < |s.areas| && Covers(s.areas[i], v) && Allows(s.areas[i].perm, acc, priv))
            && forall i | pa.Some? && 0 <= i < |s.areas| && Covers(s.areas[i], v) ::
                 pa.value == PpnOf(s.areas[i], v) * 0x1000 + va % 0x1000
  {
    hide Inv, IsLiveSpace, Physical, Token, SatpMode, SatpPpn, TableOk, Floor, VirtAddrFrom, Canonical, LeafPte,
         Allows, AreasOk, LegalLeaf, Permits, PtePpn;
    LiveSpace(l, k, s);
    var v := Floor(VirtAddrFrom(va));
    PhysicalAgrees(k.phys.mem, s.table, Token(s.table.root), va, acc, priv);
    forall i | 0 <= i < |s.areas| && Covers(s.areas[i], v)
      ensures Physical(k.phys.mem, Token(s.table.root), va, acc, priv)
              == if Canonical(va)
                  && Allows(s.areas[i].perm, acc, priv) then Some(PpnOf(s.areas[i], v) * 0x1000 + va % 0x1000)
                 else None
    {
      PageTranslates(k.phys.mem, s, l.tramp, i, v);
      FrameInRange(k.phys.mem, s, l.tramp, i, v);
      MappedAddress(k.phys.mem, s.table, Token(s.table.root), va, PpnOf(s.areas[i], v), s.areas[i].perm, acc, priv);
    }
    if !InSomeArea(s.areas, v) {
      Unmapped(s, l.tramp, v);
    }
  }

  lemma Unmapped(s: Space, tramp: nat, v: nat)
    requires AreasOk(s, tramp) && !InSomeArea(s.areas, v) && v != TRAMPOLINE_VPN
    ensures v !in s.table.flat
  {
    hide LeafPte, DataFrames, ShapesOk, DisjointAreas, AreasMapped, InjectiveFrames;
  }

  /** In user mode a task reaches nothing but the frames of its own areas. */
  lemma UserReach(l: Layout, k: Kernel, id: nat, va: nat, acc: Access)
    requires Inv(l, k) && id in k.tasks && !k.tasks[id].status.Zombie?
    ensures var s := k.tasks[id].space;
            var v, pa := Floor(VirtAddrFrom(va)), Physical(k.phys.mem, Token(s.table.root), va, acc, User);
            && (pa.Some? <==>
                  Canonical(va) && exists i ::
                      0 <= i < |s.areas| && Covers(s.areas[i], v) && Allows(s.areas[i].perm, acc, User))
            && (pa.Some? ==> pa.value / 0x1000 in DataFrames(s.areas) && pa.value / 0x1000 != k.tasks[id].trapCxPpn)
  {
    hide LayoutOk, TreeOk, SchedOk, PidsOk, StacksOk, Balanced, BookOf, Physical, Token, Floor, VirtAddrFrom,
         Canonical, Allows, SpaceOk, TrapPageOk, TrapContextOk, DataFrames;
    var t := k.tasks[id];
    assert IsLiveSpace(k, t.space);
    assert TaskMemoryOk(l, k.phys.mem, k.kspace.table.root, t);
    if Physical(k.phys.mem, Token(t.space.table.root), va, acc, User).Some? {
      UserReaches(l, k.phys.mem, k.kspace.table.root, t, va, acc);
    }
    if Floor(VirtAddrFrom(va)) == TRAMPOLINE_VPN {
      hide TaskMemoryOk, Inv, IsLiveSpace;
      AtTrampoline(l, k, t.space, va, acc);
    } else {
      AreasReached(l, k, t.space, va, acc, User);
    }
  }

  lemma AtTrampoline(l: Layout, k: Kernel, s: Space, va: nat, acc: Access)
    requires Inv(l, k) && IsLiveSpace(k, s) && Floor(VirtAddrFrom(va)) == TRAMPOLINE_VPN
    ensures Physical(k.phys.mem, Token(s.table.root), va, acc, User).None?
    ensures forall i | 0 <= i < |s.areas| :: !Covers(s.areas[i], Floor(VirtAddrFrom(va)))
  {
    hide Inv, IsLiveSpace, Physical, Token, SatpMode, SatpPpn, TableOk, Floor, VirtAddrFrom, Canonical, LeafPte,
         PageOffset, DisjointAreas, AreasMapped, NothingElse, InjectiveFrames, DataFrames;
    LiveSpace(l, k, s);
    MappedAddress(k.phys.mem, s.table, Token(s.table.root), va, l.tramp, RX, acc, User);
    forall i | 0 <= i < |s.areas| ensures !Covers(s.areas[i], Floor(VirtAddrFrom(va))) {
      assert AreaShape(s.areas[i]);
    }
  }

  // ---- what a store in user mode does ----

  /** The frame behind a page, as the walk finds it. */
  lemma FrameBehind(mem: Memory, s: Space, tramp: nat, v: nat)
    requires SpaceOk(mem, s, tramp) && AllFramed(s.areas) && v < VPN_LIMIT && tramp < TWO_44
    ensures var f := PtePpn(EntryOf(mem, s.table.root, v));
            && (InSomeArea(s.areas, v) ==> f in DataFrames(s.areas))
            && (!InSomeArea(s.areas, v) ==> f == if v == TRAMPOLINE_VPN then tramp else 0)
  {
    hide TableOk, AreasOk, LeafPte, PtePpn, DataFrames, Translate;
    TranslateRefinesFlat(mem, s.table, v);
    if InSomeArea(s.areas, v) {
      var i :| 0 <= i < |s.areas| && Covers(s.areas[i], v);
      FramedPage(mem, s, tramp, i, v);
      InData(s.areas, i, v);
    } else {
      OutsideAreas(s, tramp, v);
    }
  }

  /** Two pages of areas with the same frame are one page. */
  lemma OnePage(mem: Memory, s: Space, tramp: nat, v: nat, w: nat)
    requires SpaceOk(mem, s, tramp) && AllFramed(s.areas) && InSomeArea(s.areas, v) && InSomeArea(s.areas, w)
    requires PtePpn(EntryOf(mem, s.table.root, v)) == PtePpn(EntryOf(mem, s.table.root, w))
    ensures v == w
  {
    hide TableOk, AreasOk, LeafPte, PtePpn, DataFrames, Translate, AllFramed;
    var i :| 0 <= i < |s.areas| && Covers(s.areas[i], v);
    var j :| 0 <= j < |s.areas| && Covers(s.areas[j], w);
    assert s.areas[i].kind.Framed? && s.areas[j].kind.Framed? by { BothFramed(s.areas, i, j); }
    FramedPage(mem, s, tramp, i, v);
    FramedPage(mem, s, tramp, j, w);
    AreasParts(s, tramp);
  }

  lemma BothFramed(areas: seq<MapArea>, i: nat, j: nat)
    requires AllFramed(areas) && i < |areas| && j < |areas|
    ensures areas[i].kind.Framed? && areas[j].kind.Framed?
  {}

  /** Where the store goes, in terms of the running task's table. */
  lemma StoreLocation(l: Layout, k: Kernel, e: Event, k': Kernel)
    requires Inv(l, k) && e.UserStore? && UserStoreStep(k, e, k')
    ensures var (f, o) := Location(k.phys.mem, CurrentTask(k).space.table.root, VirtAddrFrom(e.va));
            && o == e.va % 0x1000 && k'.phys.mem == k.phys.mem[f := PutByte(FrameAt(k.phys.mem, f), o, e.value)]
            && f in DataFrames(CurrentTask(k).space.areas) && f != l.tramp && f > 0
            && UserPage(CurrentTask(k).space, Floor(VirtAddrFrom(e.va)))
    ensures CurrentTask(k).status.Running? && k'.tasks == k.tasks
    ensures forall id | id in k.tasks ::
              && (id != k.current.value ==>
                    Location(k.phys.mem, CurrentTask(k).space.table.root,
                        VirtAddrFrom(e.va)).0 !in Owned(k.tasks[id].space))
              && Location(k.phys.mem, CurrentTask(k).space.table.root,
                  VirtAddrFrom(e.va)).0 !in k.tasks[id].space.table.roles
  {
    hide Inv, Physical, Token, TableOk, SpaceOk, FrameAt, PutByte, DataFrames, Owned, Floor, VirtAddrFrom, PtePpn,
         UserPage, LegalLeaf, Permits, Canonical, SatpMode, SatpPpn, SatpAsid, TaskMemoryOk, Pool;
    var t := CurrentTask(k);
    CurrentHoldings(l, k);
    CurrentExists(l, k);
    TableRoot(k.phys.mem, t.space.table);
    TokenFields(t.space.table.root);
    PhysicalAgrees(k.phys.mem, t.space.table, CurrentSatp(k), e.va, Store, User);
    PageNumber(e.va);
    SameOffset(e.va);
    EntryIsFlat(k.phys.mem, t.space.table, Floor(VirtAddrFrom(e.va)));
    UserReaches(l, k.phys.mem, k.kspace.table.root, t, e.va, Store);
    FrameOf(PtePpn(t.space.table.flat[Floor(VirtAddrFrom(e.va))]), PageOffset(e.va));
    var f := UserStoreIsolated(l, k, e, k');
    var g := Location(k.phys.mem, t.space.table.root, VirtAddrFrom(e.va)).0;
    DataInPool(l, k, g);
    forall id | id in k.tasks ensures g !in k.tasks[id].space.table.roles
        && (id != k.current.value ==> g !in Owned(k.tasks[id].space)) {
      NodesOwned(k.tasks[id].space);
    }
  }

  lemma EntryIsFlat(mem: Memory, t: Table, v: nat)
    requires TableOk(mem, t) && v in t.flat && v < VPN_LIMIT
    ensures EntryOf(mem, t.root, v) == t.flat[v]
  {
    hide Translate;
    TranslateRefinesFlat(mem, t, v);
  }

  lemma DataInPool(l: Layout, k: Kernel, f: nat)
    requires Inv(l, k) && HasCurrent(k) && f in DataFrames(CurrentTask(k).space.areas)
    ensures f > 0 && f != l.tramp
    ensures forall id | id in k.tasks && id != k.current.value :: f !in Owned(k.tasks[id].space)
  {
    hide TreeOk, SchedOk, PidsOk, StacksOk, MemoryOk, Balanced, BookOf, Owned, DataFrames;
    BookFacts(l, k);
    NodesOwned(CurrentTask(k).space);
  }

  /** A store in user mode is read back where it was made, and no other byte of any live task's memory, its own or
      another's, changes. */
  lemma UserStoreReads(l: Layout, k: Kernel, e: Event, k': Kernel, id: nat, a: nat)
    requires Inv(l, k) && e.UserStore? && UserStoreStep(k, e, k')
    requires id in k.tasks && !k.tasks[id].status.Zombie? && a < 0x80_0000_0000
    ensures ReadVirtual(k'.phys.mem, k.tasks[id].space.table.root, a)
            == if k.current == Some(id) && a == e.va % 0x80_0000_0000 then e.value
               else ReadVirtual(k.phys.mem, k.tasks[id].space.table.root, a)
  {
    assert HasCurrent(k) by { hide Inv, Physical, Token, FrameAt, PutByte; }
    hide Inv, UserStoreStep, TableOk, SpaceOk, FrameAt, PutByte, DataFrames, Owned, Floor, VirtAddrFrom, PtePpn,
         UserPage, EntryOf, PageOffset, InSomeArea, TaskMemoryOk;
    StoreLocation(l, k, e, k');
    var t, s, va := CurrentTask(k), k.tasks[id].space, VirtAddrFrom(e.va);
    var (f, o) := Location(k.phys.mem, t.space.table.root, va);
    StoredByte(k.phys.mem, f, o, e.value, Location(k.phys.mem, s.table.root, a).0, PageOffset(a));
    LiveTask(l, k, id);
    assert SameOn(k.phys.mem, k'.phys.mem, s.table.roles.Keys) by { WriteRead(k.phys.mem, f, k'.phys.mem[f]); }
    TableFrame(k.phys.mem, k'.phys.mem, s.table) by { hide FrameAt; }
    SameEntry(k.phys.mem, k'.phys.mem, s.table, Floor(a));
    PageNumbers(a, e.va);
    FrameBehind(k.phys.mem, s, l.tramp, Floor(a));
    if k.current == Some(id) {
      UserIsArea(s, Floor(va));
      if InSomeArea(s.areas, Floor(a)) && Location(k.phys.mem, s.table.root, a).0 == f {
        OnePage(k.phys.mem, s, l.tramp, Floor(a), Floor(va));
      }
    } else {
      NodesOwned(s);
    }
  }

  lemma LiveTask(l: Layout, k: Kernel, id: nat)
    requires Inv(l, k) && id in k.tasks && !k.tasks[id].status.Zombie?
    ensures SpaceOk(k.phys.mem, k.tasks[id].space, l.tramp) && TableOk(k.phys.mem, k.tasks[id].space.table)
    ensures AllFramed(k.tasks[id].space.areas) && l.tramp < TWO_44
  {
    hide LayoutOk, TreeOk, SchedOk, PidsOk, StacksOk, Balanced, BookOf, TableOk, AreasOk, TrapContextOk;
    TrampInRange(l);
    assert TaskMemoryOk(l, k.phys.mem, k.kspace.table.root, k.tasks[id]);
  }

  lemma SameEntry(mem: Memory, mem': Memory, t: Table, v: nat)
    requires TableOk(mem, t) && SameOn(mem, mem', t.roles.Keys)
    ensures EntryOf(mem', t.root, v) == EntryOf(mem, t.root, v)
  {
    hide Translate, FindPte;
    TableFrame(mem, mem', t);
  }

  /** One byte of one frame is new. */
  lemma StoredByte(mem: Memory, f: nat, o: nat, b: Byte, g: nat, p: nat)
    requires o < PAGE_SIZE && p < PAGE_SIZE
    ensures FrameAt(mem[f := PutByte(FrameAt(mem, f), o, b)], g)[p] == if g == f
              && p == o then b else FrameAt(mem, g)[p]
  {
    WriteRead(mem, f, PutByte(FrameAt(mem, f), o, b));
  }

  lemma PageNumbers(a: nat, va: nat)
    requires a < 0x80_0000_0000
    ensures Floor(a) < VPN_LIMIT && PageOffset(a) == a % 0x1000
    ensures a == va % 0x80_0000_0000 <==> Floor(a) == Floor(VirtAddrFrom(va)) && a % 0x1000 == va % 0x1000
  {
    var r := va % 0x80_0000_0000;
    assert va % 0x1000 == r % 0x1000 by { PageAligned(va); }
    assert a == a / 0x1000 * 0x1000 + a % 0x1000 && r == r / 0x1000 * 0x1000 + r % 0x1000;
  }

  // ---- kernel space ----

  lemma SectionReached(l: Layout, k: Kernel, i: nat, pa: nat, acc: Access)
    requires Inv(l, k) && i < 5 && |l.sections| == 5 && Covers(l.sections[i], pa / 0x1000) && pa < 0x40_0000_0000
    requires l.sections[i].kind.Identical?
    ensures Physical(k.phys.mem, Token(k.kspace.table.root), pa, acc, Supervisor)
            == if Allows(l.sections[i].perm, acc, Supervisor) then Some(pa) else None
  {
    hide TreeOk, SchedOk, PidsOk, MemoryOk, Balanced, BookOf, LivePids, Physical, Token, SatpMode, SatpPpn, TableOk,
         LeafPte, Allows, LayoutOk, StackOfOne, HasStack, Floor, VirtAddrFrom, Canonical;
    assert k.kspace.areas[i] == k.kspace.areas[..5][i] == l.sections[i];
    LiveSpace(l, k, k.kspace);
    LowAddressPage(pa);
    PageTranslates(k.phys.mem, k.kspace, l.tramp, i, pa / 0x1000);
    FrameInRange(k.phys.mem, k.kspace, l.tramp, i, pa / 0x1000);
    MappedAddress(k.phys.mem, k.kspace.table, Token(k.kspace.table.root), pa, pa / 0x1000, l.sections[i].perm, acc,
        Supervisor);
  }

  lemma LowAddressPage(pa: nat)
    requires pa < 0x40_0000_0000
    ensures Canonical(pa) && Floor(VirtAddrFrom(pa)) == pa / 0x1000
    ensures pa / 0x1000 * PAGE_SIZE + PageOffset(pa) == pa
  {}

  /** The kernel finds its image and memory at their own addresses: it executes and reads `.text`, reads
      `.rodata`, and reads and writes `.data`, `.bss` and the memory after the image up to `MEMORY_END`. */
  lemma SectionsReached(lk: Linker, k: Kernel, pa: nat, acc: Access)
    requires LinkerOk(lk) && Inv(LayoutOf(lk), k)
    ensures var r := Physical(k.phys.mem, Token(k.kspace.table.root), pa, acc, Supervisor);
            && (lk.stext <= pa < lk.etext ==> r == if acc.Store? then None else Some(pa))
            && (lk.srodata <= pa < lk.erodata ==> r == if acc.Load? then Some(pa) else None)
            && (lk.sdata <= pa < lk.edata || lk.sbss <= pa < lk.ebss || lk.ekernel <= pa < 0x8080_0000 ==>
                  r == if acc.Fetch? then None else Some(pa))
  {
    hide Inv, Physical, Token, Section;
    SectionSpan(lk, pa);
    var l := LayoutOf(lk);
    if lk.stext <= pa < lk.etext {
      SectionReached(l, k, 0, pa, acc);
    } else if lk.srodata <= pa < lk.erodata {
      SectionReached(l, k, 1, pa, acc);
    } else if lk.sdata <= pa < lk.edata {
      SectionReached(l, k, 2, pa, acc);
    } else if lk.sbss <= pa < lk.ebss {
      SectionReached(l, k, 3, pa, acc);
    } else if lk.ekernel <= pa < 0x8080_0000 {
      SectionReached(l, k, 4, pa, acc);
    }
  }

  /** The pages of an aligned range are those of its addresses. */
  lemma SectionSpan(lk: Linker, pa: nat)
    requires LinkerOk(lk)
    ensures var ss := Sections(lk);
            && (lk.stext <= pa < lk.etext ==> Covers(ss[0], pa / 0x1000))
            && (lk.srodata <= pa < lk.erodata ==> Covers(ss[1], pa / 0x1000))
            && (lk.sdata <= pa < lk.edata ==> Covers(ss[2], pa / 0x1000))
            && (lk.sbss <= pa < lk.ebss ==> Covers(ss[3], pa / 0x1000))
            && (lk.ekernel <= pa < 0x8080_0000 ==> Covers(ss[4], pa / 0x1000))
            && forall i | 0 <= i < 5 :: ss[i].kind.Identical?
    ensures |Sections(lk)| == 5 && Sections(lk)[0].perm == RX && Sections(lk)[1].perm == R_ONLY
    ensures Sections(lk)[2].perm == Sections(lk)[3].perm == Sections(lk)[4].perm == RW
  {
    SectionPages(lk.stext, lk.etext, RX);
    SectionPages(lk.srodata, lk.erodata, R_ONLY);
    SectionPages(lk.sdata, lk.edata, RW);
    SectionPages(lk.sbss, lk.ebss, RW);
    SectionPages(lk.ekernel, MEMORY_END, RW);
    hide Section, Floor, Ceil, VirtAddrFrom;
  }

  /** The kernel stack of a task: two pages below its top that the kernel reads and writes, and below them one
      where every access is a fault. */
  lemma StackReached(l: Layout, k: Kernel, id: nat, d: nat, acc: Access)
    requires Inv(l, k) && id in k.tasks && 0 < d <= 0x3000
    ensures 0x3000 * k.tasks[id].pid + 0x4000 < 0x40_0000_0000
    ensures var va := 0xFFFF_FFFF_FFFF_F000 - 0x3000 * k.tasks[id].pid - d;
            Physical(k.phys.mem, Token(k.kspace.table.root), va, acc, Supervisor).Some?
            <==> d <= 0x2000 && !acc.Fetch?
  {
    hide Inv, Physical, Token, Allows, StackStart, PidFits;
    var p := k.tasks[id].pid;
    StackBounds(l, k, id);
    StackPage(p, d);
    var va := 0xFFFF_FFFF_FFFF_F000 - 0x3000 * p - d;
    var v := Floor(VirtAddrFrom(va));
    hide Floor, VirtAddrFrom;
    AreasReached(l, k, k.kspace, va, acc, Supervisor);
    if d <= 0x2000 {
      var i := StackCovers(l, k, p, v);
    } else {
      GuardUnmapped(l, k, p);
      NothingAt(l, k, v);
    }
  }

  lemma StackBounds(l: Layout, k: Kernel, id: nat)
    requires Inv(l, k) && id in k.tasks
    ensures var p := k.tasks[id].pid;
            p in LivePids(k.tasks) && PidFits(p) && StackStart(p) > 0 && 0x3000 * p + 0x4000 < 0x40_0000_0000
  {
    hide TreeOk, SchedOk, StacksOk, MemoryOk, Balanced, BookOf, LivePids, PidsOk;
    PidLive(k.tasks, id);
    LivePidsBounded(l, k);
    MemoryBoundsPids(l, k.tasks[id].pid);
  }

  lemma StackPage(p: nat, d: nat)
    requires PidFits(p) && 0 < d <= 0x3000 && StackStart(p) > 0 && 0x3000 * p + 0x4000 < 0x40_0000_0000
    ensures var va := 0xFFFF_FFFF_FFFF_F000 - 0x3000 * p - d;
            && Canonical(va) && Floor(VirtAddrFrom(va)) != TRAMPOLINE_VPN
            && Floor(VirtAddrFrom(va)) == if d <= 0x1000 then StackStart(p) + 1 else if d <= 0x2000 then StackStart(p)
                                          else StackStart(p) - 1
  {
    var n := if d <= 0x1000 then 3 * p + 2 else if d <= 0x2000 then 3 * p + 3 else 3 * p + 4;
    TopPage(n, n * 0x1000 - 0x1000 - 0x3000 * p - d);
  }

  /** A page of the stack is in one area, and the kernel may read and write it. */
  lemma StackCovers(l: Layout, k: Kernel, p: nat, v: nat) returns (i: nat)
    requires Inv(l, k) && p in LivePids(k.tasks) && StackStart(p) <= v < StackStart(p) + 2
    ensures i < |k.kspace.areas| && Covers(k.kspace.areas[i], v)
    ensures forall j, acc: Access | 0 <= j < |k.kspace.areas| && Covers(k.kspace.areas[j], v) ::
              Allows(k.kspace.areas[j].perm, acc, Supervisor) <==> !acc.Fetch?
  {
    hide LayoutOk, TreeOk, SchedOk, PidsOk, TaskMemoryOk, TableOk, Balanced, BookOf, LivePids, StackOfOne, StackStart,
         DataFrames, InjectiveFrames, AreasMapped, NothingElse, ShapesOk, LeafPte;
    assert HasStack(k.kspace.areas, p);
    i :| 5 <= i < |k.kspace.areas| && IsStack(k.kspace.areas[i], p);
    assert Covers(k.kspace.areas[i], v);
  }

  lemma NothingAt(l: Layout, k: Kernel, v: nat)
    requires Inv(l, k) && v !in k.kspace.table.flat
    ensures forall i | 0 <= i < |k.kspace.areas| :: !Covers(k.kspace.areas[i], v)
  {
    hide LayoutOk, TreeOk, SchedOk, PidsOk, StacksOk, TaskMemoryOk, TableOk, Balanced, BookOf, DataFrames,
         InjectiveFrames, NothingElse, ShapesOk, DisjointAreas, LeafPte;
  }

  /** No address of kernel space can both be written and executed. */
  lemma WriteXorExecute(lk: Linker, k: Kernel, va: nat)
    requires LinkerOk(lk) && Inv(LayoutOf(lk), k)
    ensures var satp := Token(k.kspace.table.root);
            !(Physical(k.phys.mem, satp, va, Store, Supervisor).Some?
                && Physical(k.phys.mem, satp, va, Fetch, Supervisor).Some?)
  {
    hide Inv, Physical, Token, Allows, Section, LayoutOk, LinkerOk, Floor, VirtAddrFrom;
    var l, v := LayoutOf(lk), Floor(VirtAddrFrom(va));
    if v == TRAMPOLINE_VPN {
      TrampolineClosed(l, k, va);
    } else {
      AreasReached(l, k, k.kspace, va, Store, Supervisor);
      AreasReached(l, k, k.kspace, va, Fetch, Supervisor);
      SectionSpan(lk, 0);
      forall i, j | 0 <= i < |k.kspace.areas| && 0 <= j < |k.kspace.areas| && Covers(k.kspace.areas[i], v)
          && Covers(k.kspace.areas[j], v)
        ensures !(Allows(k.kspace.areas[i].perm, Store, Supervisor)
                  && Allows(k.kspace.areas[j].perm, Fetch, Supervisor))
      {
        KernelPermissions(lk, k, i, j, v);
      }
    }
  }

  lemma TrampolineClosed(l: Layout, k: Kernel, va: nat)
    requires Inv(l, k) && Floor(VirtAddrFrom(va)) == TRAMPOLINE_VPN
    ensures Physical(k.phys.mem, Token(k.kspace.table.root), va, Store, Supervisor).None?
  {
    hide Inv, Physical, Token, SatpMode, SatpPpn, TableOk, Floor, VirtAddrFrom, Canonical, LeafPte, PageOffset,
         ShapesOk, DisjointAreas, AreasMapped, NothingElse, InjectiveFrames, DataFrames;
    LiveSpace(l, k, k.kspace);
    MappedAddress(k.phys.mem, k.kspace.table, Token(k.kspace.table.root), va, l.tramp, RX, Store, Supervisor);
  }

  lemma KernelPermissions(lk: Linker, k: Kernel, i: nat, j: nat, v: nat)
    requires Inv(LayoutOf(lk), k) && i < |k.kspace.areas| && j < |k.kspace.areas| && LinkerOk(lk)
    requires Covers(k.kspace.areas[i], v) && Covers(k.kspace.areas[j], v)
    ensures !(Allows(k.kspace.areas[i].perm, Store, Supervisor) && Allows(k.kspace.areas[j].perm, Fetch, Supervisor))
  {
    hide LayoutOk, TreeOk, SchedOk, PidsOk, TaskMemoryOk, TableOk, Balanced, BookOf, LivePids, StackStart, HasStack,
         DataFrames, InjectiveFrames, AreasMapped, NothingElse, ShapesOk, LeafPte, Section, LinkerOk;
    SectionSpan(lk, 0);
    if i < 5 {
      assert k.kspace.areas[i] == k.kspace.areas[..5][i] == Sections(lk)[i];
    } else {
      assert StackOfOne(k.kspace.areas[i], LivePids(k.tasks));
    }
  }

  /** The trampoline of every live space is the page of `strampoline`. */
  lemma TrampolineIsCode(lk: Linker, k: Kernel, s: Space, o: nat)
    requires LinkerOk(lk) && Inv(LayoutOf(lk), k) && IsLiveSpace(k, s) && o < 0x1000
    ensures Physical(k.phys.mem, Token(s.table.root), 0xFFFF_FFFF_FFFF_F000 + o, Fetch, Supervisor)
              == Some(lk.strampoline + o)
  {
    hide Inv, LinkerOk, IsLiveSpace, Physical, Token;
    LayoutIsOk(lk);
    TrampolineFetched(LayoutOf(lk), k, s, o, Fetch, Supervisor);
  }
}
