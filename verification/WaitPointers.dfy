/** Pointers that user mode hands to the kernel (os/src/syscall/process.rs, os/src/mm/page_table.rs).
    `translated_refmut` looks at no flag of the entry it finds and stores through the physical
    address, so the pointer of `sys_waitpid` decides which frames change; and a string ends where
    the kernel reads a zero byte or faults. */
module WaitPointers {
  import opened Address
  import opened PhysicalMemory
  import opened PageTableEntries
  import opened FrameAllocation
  import opened TableModel
  import opened SpaceModel
  import opened SpaceCopies
  import opened MemorySets
  import opened ElfLoading
  import opened UserBuffers
  import opened KernelAccess
  import opened Ledger
  import opened KernelModel
  import opened KernelSteps
  import opened KernelMemory
  import opened KernelFork
  import opened KernelReap
  import opened KernelTheorems
  import opened KernelProcesses
  import opened KernelIsolation

  // ---- what the kernel table lets the kernel reach ----

  /** The page of the trampoline can be read but not written. */
  lemma TrampolineReached(l: Layout, k: Kernel, store: bool)
    requires LayoutOk(l) && StacksOk(l, k) && MemoryOk(l, k)
    ensures KernelPage(k.phys.mem, k.kspace.table.root, l.tramp, store) == if store then None else Some(l.tramp)
  {
    hide TableOk, TaskMemoryOk, LivePids, DataFrames, InjectiveFrames, DisjointAreas, NothingElse, LeafPte,
         KernelPage;
    assert k.kspace.areas[0] == k.kspace.areas[..5][0] == l.sections[0];
    assert Covers(k.kspace.areas[0], l.tramp);
    MappedPage(k.phys.mem, k.kspace.table, l.tramp, l.tramp, RX, store);
  }

  /** Neither page 0 nor the page after the end of memory is mapped. */
  lemma EdgesUnmapped(l: Layout, k: Kernel, p: nat, store: bool)
    requires Inv(l, k) && (p == 0 || p == l.hi)
    ensures KernelPage(k.phys.mem, k.kspace.table.root, p, store) == None
  {
    hide TreeOk, SchedOk, StacksOk, TaskMemoryOk, TableOk, AreasOk, Balanced, BookOf, LivePids, PidsOk, StackStart,
         PidFits, KernelPage;
    KernelPages(l, k, p);
    LivePidsBounded(l, k);
    forall r | r in LivePids(k.tasks) ensures !Covers(StackArea(r), p) {
      MemoryBoundsPids(l, r);
    }
    assert !InSomeStack(LivePids(k.tasks), p);
    assert !InSomeArea(l.sections, p);
    UnmappedPage(k.phys.mem, k.kspace.table, p, store);
  }

  /** In every state of the kernel its table maps managed memory, but neither frame 0 nor, for stores,
      the trampoline. */
  lemma KernelReaches(l: Layout, k: Kernel, s: Space)
    requires Inv(l, k) && DataFrames(s.areas) <= Pool(l)
    ensures KernelSees(k.phys.mem, k.kspace.table.root, s, l.tramp)
  {
    hide TreeOk, SchedOk, PidsOk, StacksOk, MemoryOk, BookOf, DataFrames, KernelPage, LayoutOk, Balanced, Pool;
    forall f, store | f in DataFrames(s.areas)
      ensures KernelPage(k.phys.mem, k.kspace.table.root, f, store) == Some(f)
    {
      PoolReached(l, k, f, store);
    }
    forall store ensures KernelPage(k.phys.mem, k.kspace.table.root, 0, store) == None {
      EdgesUnmapped(l, k, 0, store);
    }
    TrampolineReached(l, k, true);
    TrampolineReached(l, k, false);
  }

  /** What the kernel relies on when it follows a pointer of the running task. */
  lemma KernelView(l: Layout, k: Kernel)
    requires Inv(l, k) && HasCurrent(k)
    ensures KernelSees(k.phys.mem, k.kspace.table.root, CurrentTask(k).space, l.tramp)
    ensures 0 < l.tramp < TWO_44 && DataFrames(CurrentTask(k).space.areas) <= Pool(l)
    ensures SpaceOk(k.phys.mem, CurrentTask(k).space, l.tramp) && TrapPageOk(CurrentTask(k))
    ensures AllFramed(CurrentTask(k).space.areas)
  {
    hide TreeOk, SchedOk, PidsOk, StacksOk, MemoryOk, BookOf, DataFrames, LayoutOk, SpaceOk, TrapPageOk, Balanced,
         AllFramed, Pool, Owned, TaskMemoryOk, KernelSees;
    TrampInRange(l);
    BookFacts(l, k);
    CurrentLive(l, k);
    NodesOwned(CurrentTask(k).space);
    KernelReaches(l, k, CurrentTask(k).space);
  }

  // ---- where the exit code goes ----

  /** Frame `f` holds a page that user mode may access. */
  ghost predicate UserFrame(s: Space, f: nat) {
    exists i, v :: 0 <= i < |s.areas| && s.areas[i].perm.u && v in s.areas[i].frames && s.areas[i].frames[v] == f
  }

  /** The only page of a user space that is out of reach of user mode is the trap context. */
  lemma AreaOfPage(t: Task, tramp: nat, i: nat, v: nat)
    requires TrapPageOk(t) && AreasOk(t.space, tramp) && i < |t.space.areas| && Covers(t.space.areas[i], v)
    ensures t.space.areas[i].perm.u <==> UserPage(t.space, v)
    ensures !t.space.areas[i].perm.u <==> v == TRAP_CONTEXT_VPN
  {
    hide LeafPte, DataFrames, InjectiveFrames, AreasMapped, NothingElse, ShapesOk;
    assert Covers(t.space.areas[|t.space.areas| - 1], TRAP_CONTEXT_VPN);
  }

  lemma ContextIsNoUserFrame(t: Task, tramp: nat)
    requires TrapPageOk(t) && AreasOk(t.space, tramp)
    ensures !UserFrame(t.space, t.trapCxPpn)
  {
    hide LeafPte, DataFrames, DisjointAreas, AreasMapped, NothingElse, ShapesOk;
  }

  /** The frame of byte `j` of a store to physical address `pa`. */
  function ByteFrame(pa: nat, j: nat): nat { Floor(pa + j) }

  /** All four bytes of the store go to memory that user mode may access. */
  ghost predicate StoreStays(mem: Memory, s: Space, ptr: nat) {
    var pa := TranslateVa(mem, s.table.root, ptr);
    pa.Some? && forall j: nat | j < 4 :: UserFrame(s, ByteFrame(pa.value, j))
  }

  /** The frame of the page of an area, and whether user mode may access it. */
  lemma AreaTarget(mem: Memory, t: Task, tramp: nat, ptr: nat)
    requires SpaceOk(mem, t.space, tramp) && TrapPageOk(t) && InSomeArea(t.space.areas, Floor(VirtAddrFrom(ptr)))
    ensures var pa, v := TranslateVa(mem, t.space.table.root, ptr), Floor(VirtAddrFrom(ptr));
            && pa.Some? && Floor(pa.value) in DataFrames(t.space.areas) && PageOffset(pa.value) == PageOffset(ptr)
            && (UserPage(t.space, v) <==> v != TRAP_CONTEXT_VPN)
            && (UserFrame(t.space, Floor(pa.value)) <==> UserPage(t.space, v))
            && (v == TRAP_CONTEXT_VPN ==> Floor(pa.value) == t.trapCxPpn)
  {
    hide LeafPte, PtePpn, Translate, TranslateVa, Floor, VirtAddrFrom, UserFrame, TrapPageOk, AreasOk, TableOk,
         UserPage, DataFrames, PageOffset;
    var v := Floor(VirtAddrFrom(ptr));
    var i :| 0 <= i < |t.space.areas| && Covers(t.space.areas[i], v);
    AreaOfPage(t, tramp, i, v);
    TrapArea(t, i);
    FramedPage(mem, t.space, tramp, i, v);
    PaParts(mem, t.space.table.root, ptr);
    SameOffset(ptr);
    if v == TRAP_CONTEXT_VPN {
      LastIsContext(t, tramp, i);
      ContextIsNoUserFrame(t, tramp);
    } else {
      UserFrameOf(t.space, i, v);
    }
  }

  lemma LastIsContext(t: Task, tramp: nat, i: nat)
    requires TrapPageOk(t) && AreasOk(t.space, tramp) && i < |t.space.areas|
    requires Covers(t.space.areas[i], TRAP_CONTEXT_VPN)
    ensures TRAP_CONTEXT_VPN in t.space.areas[i].frames && t.space.areas[i].frames[TRAP_CONTEXT_VPN] == t.trapCxPpn
  {
    hide LeafPte, DataFrames, InjectiveFrames, AreasMapped, NothingElse, ShapesOk;
    assert Covers(t.space.areas[|t.space.areas| - 1], TRAP_CONTEXT_VPN);
  }

  lemma UserFrameOf(s: Space, i: nat, v: nat)
    requires i < |s.areas| && s.areas[i].perm.u && v in s.areas[i].frames
    ensures UserFrame(s, s.areas[i].frames[v])
  {}

  /** The frames of the four bytes from a physical address on. */
  lemma BytePages(pa: nat, j: nat)
    requires j < 4
    ensures Floor(pa + j) == if PageOffset(pa) + j < PAGE_SIZE then Floor(pa) else Floor(pa) + 1
    ensures pa == Floor(pa) * PAGE_SIZE + PageOffset(pa) && PageOffset(pa) < PAGE_SIZE
  {}

  /** A store that crosses a page boundary, on pages that the kernel maps to themselves or not at all:
      the tail of one frame and the head of the next. */
  lemma CrossingStore(mem: Memory, kroot: nat, f: nat, off: nat, bs: seq<Byte>)
    requires |bs| == 4 && off < PAGE_SIZE < off + 4 && 0 < f
    requires KernelPage(mem, kroot, f, true) == Some(f) && KernelPage(mem, kroot, f + 1, true) in {None, Some(f + 1)}
    ensures var n := PAGE_SIZE - off;
            StoreBytes(mem, mem, kroot, f * PAGE_SIZE + off, bs)
            == if KernelPage(mem, kroot, f + 1, true).None? then None
               else Some(mem[f := PutBytes(FrameAt(mem, f), off, bs[..n])]
                         [f + 1 := PutBytes(FrameAt(mem, f + 1), 0, bs[n..])])
  {
    hide KernelPage, FrameAt, PutBytes, StoreBytes;
    var n := PAGE_SIZE - off;
    var head, tail := bs[..n], bs[n..];
    assert bs == head + tail;
    StoreParts(mem, mem, kroot, f * PAGE_SIZE + off, head, tail);
    StoreInPage(mem, mem, kroot, f, off, head);
    var a := PutBytes(FrameAt(mem, f), off, head);
    WriteRead(mem, f, a);
    assert f * PAGE_SIZE + off + n == (f + 1) * PAGE_SIZE + 0;
    if KernelPage(mem, kroot, f + 1, true).None? {
      FirstByteFaults(mem, mem[f := a], kroot, f + 1, tail);
    } else {
      StoreInPage(mem, mem[f := a], kroot, f + 1, 0, tail);
    }
  }

  lemma FirstByteFaults(mem0: Memory, mem: Memory, kroot: nat, p: nat, bs: seq<Byte>)
    requires bs != [] && KernelPage(mem0, kroot, p, true) == None
    ensures StoreBytes(mem0, mem, kroot, p * PAGE_SIZE, bs) == None
  {
    hide KernelPage;
    assert Floor(p * PAGE_SIZE) == p;
  }

  /** The page after a data frame of the running task is managed memory, or not mapped at all. */
  lemma NextFrame(l: Layout, k: Kernel, f: nat)
    requires Inv(l, k) && f in Pool(l)
    ensures f > 0 && KernelPage(k.phys.mem, k.kspace.table.root, f, true) == Some(f)
    ensures KernelPage(k.phys.mem, k.kspace.table.root, f + 1, true) == if f + 1 < l.hi then Some(f + 1) else None
    ensures f + 1 < l.hi <==> f + 1 in Pool(l)
  {
    hide TreeOk, SchedOk, PidsOk, StacksOk, MemoryOk, Balanced, BookOf, LayoutOk, KernelPage, Pool;
    PoolEdge(l, f);
    PoolReached(l, k, f, true);
    if f + 1 < l.hi {
      PoolReached(l, k, f + 1, true);
    } else {
      EdgesUnmapped(l, k, f + 1, true);
    }
  }

  /** The store through a pointer into an area that crosses into the next frame. */
  lemma CrossingResult(l: Layout, k: Kernel, ptr: nat, code: int)
    requires Inv(l, k) && HasCurrent(k) && PageOffset(ptr) + 4 > PAGE_SIZE
    requires InSomeArea(CurrentTask(k).space.areas, Floor(VirtAddrFrom(ptr)))
    ensures var mem, pa := k.phys.mem, TranslateVa(k.phys.mem, CurrentTask(k).space.table.root, ptr);
            && pa.Some?
            && var f, n, bs := Floor(pa.value), PAGE_SIZE - PageOffset(ptr), ExitCodeBytes(code);
               && f in DataFrames(CurrentTask(k).space.areas) && 0 < n < 4
               && StoreExitCode(mem, k.kspace.table.root, CurrentTask(k).space.table.root, ptr, code)
                  == if f + 1 >= l.hi then None
                     else Some(mem[f := PutBytes(FrameAt(mem, f), PageOffset(ptr), bs[..n])]
                               [f + 1 := PutBytes(FrameAt(mem, f + 1), 0, bs[n..])])
  {
    hide Inv, SpaceOk, DataFrames, Floor, VirtAddrFrom, TrapPageOk, UserPage, UserFrame, TranslateVa, KernelSees,
         PutBytes, FrameAt, KernelPage, PageOffset, StoreBytes, ExitCodeBytes, Pool, InSomeArea;
    var t := CurrentTask(k);
    KernelView(l, k);
    AreaTarget(k.phys.mem, t, l.tramp, ptr);
    var pa := TranslateVa(k.phys.mem, t.space.table.root, ptr).value;
    NextFrame(l, k, Floor(pa));
    BytePages(pa, 0);
    CrossingStore(k.phys.mem, k.kspace.table.root, Floor(pa), PageOffset(pa), ExitCodeBytes(code));
  }

  /** Where the exit code goes, for every pointer. The store is made exactly when the page of the pointer
      belongs to the task and the four bytes do not run out of memory; otherwise the kernel panics.
      All four bytes stay in memory that user mode may access exactly when the page is one that user
      mode may access and they do not cross into a frame that user mode may not access. A pointer at
      least four bytes before the end of its page never crosses. */
  lemma WaitTarget(l: Layout, k: Kernel, ptr: nat, code: int)
    requires Inv(l, k) && HasCurrent(k)
    ensures var t, v, off := CurrentTask(k), Floor(VirtAddrFrom(ptr)), PageOffset(ptr);
            var pa := TranslateVa(k.phys.mem, t.space.table.root, ptr);
            && (InSomeArea(t.space.areas, v) ==> pa.Some?)
            && (StoreExitCode(k.phys.mem, k.kspace.table.root, t.space.table.root, ptr, code).Some?
                <==> InSomeArea(t.space.areas, v) && (off + 4 <= PAGE_SIZE || Floor(pa.value) + 1 < l.hi))
            && (StoreStays(k.phys.mem, t.space, ptr)
                <==> UserPage(t.space, v) && (off + 4 <= PAGE_SIZE || UserFrame(t.space, Floor(pa.value) + 1)))
            && (InSomeArea(t.space.areas, v) <==> UserPage(t.space, v) || v == TRAP_CONTEXT_VPN)
  {
    hide Inv, SpaceOk, DataFrames, Floor, VirtAddrFrom, TrapPageOk, UserPage, UserFrame, TranslateVa, KernelSees,
         StoreExitCode, PageOffset, InSomeArea, AllFramed, StoredCode, ResourcesOk, LayoutOk, SchedOk;
    var t, v := CurrentTask(k), Floor(VirtAddrFrom(ptr));
    KernelView(l, k);
    ContextCovered(t);
    if InSomeArea(t.space.areas, v) {
      AreaTarget(k.phys.mem, t, l.tramp, ptr);
      StaysInside(k.phys.mem, t.space, ptr);
      if PageOffset(ptr) + 4 <= PAGE_SIZE {
        StoreLands(l, k, ptr, code) by { InvParts(l, k); }
      } else {
        CrossingResult(l, k, ptr, code);
      }
    } else {
      if UserPage(t.space, v) {
        UserIsArea(t.space, v);
      }
      NoTarget(k.phys.mem, k.kspace.table.root, t.space, l.tramp, ptr, code);
    }
  }

  lemma InvParts(l: Layout, k: Kernel)
    requires Inv(l, k)
    ensures LayoutOk(l) && ResourcesOk(l, k) && SchedOk(k)
  {}

  lemma ContextCovered(t: Task)
    requires TrapPageOk(t)
    ensures InSomeArea(t.space.areas, TRAP_CONTEXT_VPN)
  {
    assert Covers(t.space.areas[|t.space.areas| - 1], TRAP_CONTEXT_VPN);
  }

  lemma StaysInside(mem: Memory, s: Space, ptr: nat)
    requires TranslateVa(mem, s.table.root, ptr).Some?
    requires PageOffset(TranslateVa(mem, s.table.root, ptr).value) == PageOffset(ptr)
    ensures var f := Floor(TranslateVa(mem, s.table.root, ptr).value);
            StoreStays(mem, s, ptr) <==> UserFrame(s, f) && (PageOffset(ptr) + 4 <= PAGE_SIZE || UserFrame(s, f + 1))
  {
    var pa := TranslateVa(mem, s.table.root, ptr).value;
    hide TranslateVa, UserFrame, PageOffset, Floor;
    forall j: nat | j < 4
      ensures ByteFrame(pa, j) == if PageOffset(pa) + j < PAGE_SIZE then Floor(pa) else Floor(pa) + 1
    {
      BytePages(pa, j);
    }
    assert StoreStays(mem, s, ptr) ==> UserFrame(s, ByteFrame(pa, 0)) && UserFrame(s, ByteFrame(pa, 3));
  }

  /** Outside the areas there is nothing to store to: the kernel panics. */
  lemma NoTarget(mem: Memory, kroot: nat, s: Space, tramp: nat, ptr: nat, code: int)
    requires SpaceOk(mem, s, tramp) && AllFramed(s.areas) && 0 < tramp < TWO_44 && KernelSees(mem, kroot, s, tramp)
    requires !InSomeArea(s.areas, Floor(VirtAddrFrom(ptr)))
    ensures StoreExitCode(mem, kroot, s.table.root, ptr, code) == None && !StoreStays(mem, s, ptr)
  {
    hide SpaceOk, AllFramed, InSomeArea, KernelSees, TranslateVa, Floor, VirtAddrFrom, Deref, UserFrame;
    RefmutOutside(mem, kroot, s, tramp, ptr, true);
    assert StoreExitCode(mem, kroot, s.table.root, ptr, code) == None by { hide FrameAt; }
    var pa := TranslateVa(mem, s.table.root, ptr);
    if StoreStays(mem, s, ptr) {
      assert UserFrame(s, ByteFrame(pa.value, 0));
      UserFrameIsData(s, Floor(pa.value));
      DataIsReached(mem, kroot, s, tramp, pa.value);
    }
  }

  lemma UserFrameIsData(s: Space, f: nat)
    requires UserFrame(s, f)
    ensures f in DataFrames(s.areas)
  {}

  lemma DataIsReached(mem: Memory, kroot: nat, s: Space, tramp: nat, pa: nat)
    requires KernelSees(mem, kroot, s, tramp) && Floor(pa) in DataFrames(s.areas)
    ensures Deref(mem, kroot, pa, true).Some?
  {
    hide DataFrames, KernelPage, Floor;
    assert KernelPage(mem, kroot, 0, true) == None && KernelPage(mem, kroot, Floor(pa), true) == Some(Floor(pa));
    FloorNull(pa);
  }

  /** What a crossing store does to others: the bytes after the page boundary go to the next physical frame,
      whoever holds it. Frames of another holder stay as they were exactly if those bytes happen to be there
      already. */
  lemma WaitCrossing(l: Layout, k: Kernel, ptr: nat, pa: nat, code: int, o: Owner)
    requires Inv(l, k) && HasCurrent(k) && PageOffset(ptr) + 4 > PAGE_SIZE
    requires UserPage(CurrentTask(k).space, Floor(VirtAddrFrom(ptr)))
    requires TranslateVa(k.phys.mem, CurrentTask(k).space.table.root, ptr) == Some(pa)
    requires o in Owners(k) && o != TaskSpace(k.current.value) && Floor(pa) + 1 in OwnedBy(k, o)
    ensures var mem, n := k.phys.mem, PAGE_SIZE - PageOffset(ptr);
            var stored := StoreExitCode(mem, k.kspace.table.root, CurrentTask(k).space.table.root, ptr, code);
            && stored.Some? && 0 < n < 4
            && (SameOn(mem, stored.value, OwnedBy(k, o)) <==>
                  FrameAt(mem, Floor(pa) + 1)[..4 - n] == ExitCodeBytes(code)[n..])
  {
    hide Inv, Floor, VirtAddrFrom, TranslateVa, StoreExitCode, PageOffset, FrameAt, UserPage, InSomeArea, Owned,
         ExitCodeBytes, PutBytes, SameOn, OwnedBy, DataFrames, Owners;
    UserIsArea(CurrentTask(k).space, Floor(VirtAddrFrom(ptr)));
    CrossingResult(l, k, ptr, code);
    OwnersApart(l, k, o);
    var mem, f := k.phys.mem, Floor(pa);
    var n, bs := PAGE_SIZE - PageOffset(ptr), ExitCodeBytes(code);
    NodesOwned(CurrentTask(k).space);
    HeadReplaced(FrameAt(mem, f + 1), bs[n..]);
    TwoWrites(mem, f, PutBytes(FrameAt(mem, f), PageOffset(ptr), bs[..n]), PutBytes(FrameAt(mem, f + 1), 0, bs[n..]),
        OwnedBy(k, o));
  }

  lemma TwoWrites(mem: Memory, f: nat, a: Frame, b: Frame, ps: set<nat>)
    requires f !in ps && f + 1 in ps
    ensures SameOn(mem, mem[f := a][f + 1 := b], ps) <==> b == FrameAt(mem, f + 1)
  {
    hide FrameAt;
    WriteRead(mem, f, a);
    WriteRead(mem[f := a], f + 1, b);
  }

  lemma HeadReplaced(g: Frame, bs: seq<Byte>)
    requires |bs| <= PAGE_SIZE
    ensures PutBytes(g, 0, bs) == g <==> g[..|bs|] == bs
  {
    var h := PutBytes(g, 0, bs);
    assert h[..|bs|] == bs;
    assert g == g[..|bs|] + g[|bs|..];
  }

  lemma OwnersApart(l: Layout, k: Kernel, o: Owner)
    requires Inv(l, k) && HasCurrent(k) && o in Owners(k) && o != TaskSpace(k.current.value)
    ensures OwnedBy(k, o) !! Owned(CurrentTask(k).space) && OwnedBy(k, o) <= Pool(l)
    ensures forall f | f in OwnedBy(k, o) :: f < l.hi
  {
    hide LayoutOk, TreeOk, SchedOk, PidsOk, StacksOk, MemoryOk, Balanced, BookOf, Owned;
    BookFacts(l, k);
  }

  // ---- pointers into the trap context ----

  lemma {:induction false} LittleEndianInjective(a: seq<Byte>, b: seq<Byte>)
    requires |a| == |b| && LittleEndian(a) == LittleEndian(b)
    ensures a == b
  {
    if a != [] {
      LittleEndianInjective(a[1..], b[1..]);
      assert a == [a[0]] + a[1..] && b == [b[0]] + b[1..];
    }
  }

  /** A word keeps its value exactly if each of its bytes does. */
  lemma WordKept(f: Frame, g: Frame, w: nat)
    requires w < 512
    ensures Word(f, w) == Word(g, w) <==> forall o | 8 * w <= o < 8 * w + 8 :: f[o] == g[o]
  {
    var a, b := f[8 * w..8 * w + 8], g[8 * w..8 * w + 8];
    if Word(f, w) == Word(g, w) {
      LittleEndianInjective(a, b);
      forall o | 8 * w <= o < 8 * w + 8 ensures f[o] == g[o] {
        assert f[o] == a[o - 8 * w] && g[o] == b[o - 8 * w];
      }
    }
    if forall o | 8 * w <= o < 8 * w + 8 :: f[o] == g[o] {
      assert a == b;
    }
  }

  /** The words of the kernel in a context page: 34, 35 and 36, which are bytes 272 to 295. */
  lemma KernelWordsKept(f: Frame, off: nat, bs: seq<Byte>)
    requires off + |bs| <= PAGE_SIZE
    ensures (forall w | 34 <= w < 37 :: Word(PutBytes(f, off, bs), w) == Word(f, w))
            <==> forall i | 0 <= i < |bs| && 272 <= off + i < 296 :: bs[i] == f[off + i]
  {
    var g := PutBytes(f, off, bs);
    forall w | 34 <= w < 37 ensures Word(g, w) == Word(f, w) <==> forall o | 8 * w <= o < 8 * w + 8 :: g[o] == f[o] {
      WordKept(g, f, w);
    }
    forall o | 0 <= o < PAGE_SIZE ensures g[o] == if off <= o < off + |bs| then bs[o - off] else f[o] {
      PutBytesRead(f, off, bs, o);
    }
    hide Word, PutBytes;
    if forall w | 34 <= w < 37 :: Word(g, w) == Word(f, w) {
      forall i | 0 <= i < |bs| && 272 <= off + i < 296 ensures bs[i] == f[off + i] {
        var w := (off + i) / 8;
        assert Word(g, w) == Word(f, w);
        assert g[off + i] == f[off + i];
      }
    }
    if forall i | 0 <= i < |bs| && 272 <= off + i < 296 :: bs[i] == f[off + i] {
      forall w | 34 <= w < 37 ensures Word(g, w) == Word(f, w) {
        forall o | 8 * w <= o < 8 * w + 8 ensures g[o] == f[o] {
          if off <= o < off + |bs| {
            assert bs[o - off] == f[off + (o - off)];
          }
        }
      }
    }
  }

  /** Why the condition is needed: any pointer into the task's own trap context is accepted, and
      afterwards the context names the kernel's table, the task's stack and the handler exactly if every byte of
      the exit code that falls on these three words is the byte already there. */
  lemma WaitIntoContext(l: Layout, k: Kernel, ptr: nat, code: int)
    requires Inv(l, k) && HasCurrent(k) && Floor(VirtAddrFrom(ptr)) == TRAP_CONTEXT_VPN
    requires PageOffset(ptr) + 4 <= PAGE_SIZE
    ensures var t, off := CurrentTask(k), PageOffset(ptr);
            var stored := StoreExitCode(k.phys.mem, k.kspace.table.root, t.space.table.root, ptr, code);
            && stored.Some? && !UserPage(t.space, TRAP_CONTEXT_VPN)
            && (TrapContextOk(l, stored.value, k.kspace.table.root, t)
                <==> forall i | 0 <= i < 4 && 272 <= off + i < 296 ::
                       ExitCodeBytes(code)[i] == FrameAt(k.phys.mem, t.trapCxPpn)[off + i])
  {
    hide Inv, SpaceOk, DataFrames, Floor, VirtAddrFrom, TrapPageOk, UserPage, UserFrame, TranslateVa, KernelSees,
         StoreExitCode, PageOffset, InSomeArea, AllFramed, ExitCodeBytes, PutBytes, FrameAt, Word, Token,
         KernelStackTop, TaskMemoryOk, LayoutOk, ResourcesOk, SchedOk;
    var t, mem := CurrentTask(k), k.phys.mem;
    KernelView(l, k);
    ContextCovered(t);
    AreaTarget(mem, t, l.tramp, ptr);
    StoreLands(l, k, ptr, code) by { InvParts(l, k); }
    SameLocation(mem, t.space.table.root, ptr);
    LiveTrapPage(l, k, k.current.value) by { CurrentHoldings(l, k); }
    var bs, off := ExitCodeBytes(code), PageOffset(ptr);
    var f := FrameAt(mem, t.trapCxPpn);
    WriteRead(mem, t.trapCxPpn, PutBytes(f, off, bs));
    KernelWordsKept(f, off, bs);
  }

  /** The frame of the physical address is that of the location. */
  lemma SameLocation(mem: Memory, root: nat, ptr: nat)
    requires TranslateVa(mem, root, ptr).Some?
    ensures Location(mem, root, VirtAddrFrom(ptr)).0 == Floor(TranslateVa(mem, root, ptr).value)
  {
    hide PtePpn, Floor, VirtAddrFrom;
    PaParts(mem, root, ptr);
  }

  // ---- strings end ----

  ghost predicate FrameBelow(areas: seq<MapArea>, n: nat, f: nat) {
    exists i, v: nat :: 0 <= i < |areas| && v < n && v in areas[i].frames && areas[i].frames[v] == f
  }

  lemma FrameOfPage(s: Space, tramp: nat, v: nat) returns (f: nat)
    requires AreasOk(s, tramp) && AllFramed(s.areas) && InSomeArea(s.areas, v)
    ensures f in DataFrames(s.areas) && FrameBelow(s.areas, v + 1, f) && !FrameBelow(s.areas, v, f)
  {
    hide AreasOk, DataFrames;
    var i :| 0 <= i < |s.areas| && Covers(s.areas[i], v);
    FramedPages(s, tramp, i);
    AreasParts(s, tramp);
    f := s.areas[i].frames[v];
  }

  /** If the first `n` pages all belong to areas, they hold `n` different frames. */
  lemma {:induction false} PagesHoldFrames(s: Space, tramp: nat, n: nat) returns (fs: set<nat>)
    requires AreasOk(s, tramp) && AllFramed(s.areas) && forall v: nat | v < n :: InSomeArea(s.areas, v)
    ensures fs <= DataFrames(s.areas) && |fs| == n && forall f | f in fs :: FrameBelow(s.areas, n, f)
  {
    hide AreasOk, DataFrames, InSomeArea, AllFramed;
    if n == 0 {
      fs := {};
    } else {
      var fs0 := PagesHoldFrames(s, tramp, n - 1);
      var f := FrameOfPage(s, tramp, n - 1);
      fs := fs0 + {f};
    }
  }

  /** There are more pages than frames: some page is in no area. */
  lemma SomePageUnmapped(l: Layout, mem: Memory, s: Space) returns (v: nat)
    requires LayoutOk(l) && SpaceOk(mem, s, l.tramp) && AllFramed(s.areas) && DataFrames(s.areas) <= Pool(l)
    ensures v <= MEMORY_END_PPN && !InSomeArea(s.areas, v)
  {
    hide AreasOk, DataFrames, InSomeArea, AllFramed;
    if forall w: nat | w < MEMORY_END_PPN + 1 :: InSomeArea(s.areas, w) {
      var fs := PagesHoldFrames(s, l.tramp, MEMORY_END_PPN + 1);
      PagesCount(l.lo, l.hi);
      SubsetSize(fs, Pool(l));
      assert false;
    }
    v :| v < MEMORY_END_PPN + 1 && !InSomeArea(s.areas, v);
  }

  /** Going on from any address leads, modulo 2^39, to any page. */
  lemma PageAhead(ptr: nat, v: nat) returns (b: nat)
    requires v < VPN_LIMIT
    ensures Floor(VirtAddrFrom(ptr + b)) == v
  {
    var q, r := ptr / TWO_39, ptr % TWO_39;
    b := v * PAGE_SIZE + TWO_39 - r;
    assert ptr == q * TWO_39 + r;
    Wrapped(q + 1, v);
  }

  lemma Wrapped(q: nat, v: nat)
    requires v < VPN_LIMIT
    ensures Floor(VirtAddrFrom(q * TWO_39 + v * PAGE_SIZE)) == v
  {
    assert VirtAddrFrom(q * TWO_39 + v * PAGE_SIZE) == v * PAGE_SIZE;
  }

  /** No string goes on for ever: from any address on, the kernel comes to a byte that it cannot read. */
  lemma StringEnds(l: Layout, k: Kernel, ptr: nat) returns (b: nat)
    requires Inv(l, k) && HasCurrent(k)
    ensures CharAt(k.phys.mem, k.kspace.table.root, CurrentTask(k).space.table.root, ptr, b) == None
  {
    hide Inv, SpaceOk, DataFrames, Floor, VirtAddrFrom, TrapPageOk, TranslateVa, KernelSees, InSomeArea, AllFramed,
         FrameAt, Deref, LayoutOk;
    KernelView(l, k);
    var s := CurrentTask(k).space;
    InvParts(l, k);
    var v := SomePageUnmapped(l, k.phys.mem, s);
    b := PageAhead(ptr, v);
    RefmutOutside(k.phys.mem, k.kspace.table.root, s, l.tramp, ptr + b, false);
  }

  // ---- what the kernel reads is what the task has there ----

  /** In every address that `translated_str` reads, the character is the byte that the task has there. */
  lemma CharIsByte(l: Layout, k: Kernel, ptr: nat, j: nat)
    requires Inv(l, k) && HasCurrent(k)
    ensures var root, c := CurrentTask(k).space.table.root, CharAt(k.phys.mem, k.kspace.table.root,
                                                                   CurrentTask(k).space.table.root, ptr, j);
            c.Some? ==> c.value == ReadVirtual(k.phys.mem, root, VirtAddrFrom(ptr + j))
  {
    hide Inv, SpaceOk, DataFrames, TrapPageOk, KernelSees, AllFramed, FrameAt, Deref, TranslateVa, LayoutOk, Floor,
         VirtAddrFrom, InSomeArea;
    KernelView(l, k);
    var s, va := CurrentTask(k).space, ptr + j;
    var v, pa := Floor(VirtAddrFrom(va)), TranslateVa(k.phys.mem, CurrentTask(k).space.table.root, va);
    if pa.Some? && Deref(k.phys.mem, k.kspace.table.root, pa.value, false).Some? {
      RefmutTarget(k.phys.mem, k.kspace.table.root, s, l.tramp, va, false);
      DerefInPlace(k.phys.mem, k.kspace.table.root, s, l.tramp, va);
      LocationOf(k.phys.mem, s.table.root, va);
    }
  }

  /** A load that gets through reaches the frame of the physical address. */
  lemma DerefInPlace(mem: Memory, kroot: nat, s: Space, tramp: nat, va: nat)
    requires SpaceOk(mem, s, tramp) && AllFramed(s.areas) && 0 < tramp < TWO_44 && KernelSees(mem, kroot, s, tramp)
    requires TranslateVa(mem, s.table.root, va).Some?
    requires Deref(mem, kroot, TranslateVa(mem, s.table.root, va).value, false).Some?
    ensures Deref(mem, kroot, TranslateVa(mem, s.table.root, va).value, false).value.0
            == Floor(TranslateVa(mem, s.table.root, va).value)
  {
    hide TableOk, AreasOk, DataFrames, Translate, TranslateVa, VirtAddrFrom, Floor, KernelPage, PageOffset, PtePpn;
    var v, pa := Floor(VirtAddrFrom(va)), TranslateVa(mem, s.table.root, va).value;
    RefmutTarget(mem, kroot, s, tramp, va, false);
    if !InSomeArea(s.areas, v) {
      TrampolineEntry(mem, s, tramp, va);
    }
  }

  lemma TrampolineEntry(mem: Memory, s: Space, tramp: nat, va: nat)
    requires SpaceOk(mem, s, tramp) && tramp < TWO_44 && Floor(VirtAddrFrom(va)) == TRAMPOLINE_VPN
    requires TranslateVa(mem, s.table.root, va).Some?
    ensures Floor(TranslateVa(mem, s.table.root, va).value) == tramp
  {
    hide TableOk, ShapesOk, DisjointAreas, AreasMapped, NothingElse, InjectiveFrames, DataFrames, LeafPte, PtePpn,
         TranslateVa, Translate, Floor, VirtAddrFrom;
    TranslateRefinesFlat(mem, s.table, TRAMPOLINE_VPN);
    LeafPteFields(tramp, RX);
    PaParts(mem, s.table.root, va);
  }

  /** Frame and offset of the physical address are those that `ReadVirtual` looks at. */
  lemma LocationOf(mem: Memory, root: nat, va: nat)
    requires TranslateVa(mem, root, va).Some?
    ensures var pa := TranslateVa(mem, root, va).value;
            FrameAt(mem, Floor(pa))[PageOffset(pa)] == ReadVirtual(mem, root, VirtAddrFrom(va))
  {
    hide PtePpn, Floor, VirtAddrFrom, PageOffset, FrameAt;
    PaParts(mem, root, va);
  }

  /** So the string that exec takes as a name is the one that the task has at its pointer, up to and with the
      zero byte. */
  lemma StringIsBytes(l: Layout, k: Kernel, ptr: nat, text: seq<Byte>, j: nat)
    requires Inv(l, k) && HasCurrent(k) && j <= |text|
    requires StringAt(k.phys.mem, k.kspace.table.root, CurrentTask(k).space.table.root, ptr, text)
    ensures ReadVirtual(k.phys.mem, CurrentTask(k).space.table.root, (ptr + j) % 0x80_0000_0000)
            == if j < |text| then text[j] else 0
  {
    hide Inv, CharAt, ReadVirtual;
    CharIsByte(l, k, ptr, j);
  }
}
