/** What a program finds when it begins: after an exec, and `initproc` after the start, its segments, its
    stack and its first registers are those of the file (os/src/mm/memory_set.rs, os/src/task/task.rs,
    os/src/trap/context.rs), through the hardware and in the state that the whole step leaves. */
module KernelPrograms {
  import opened Address
  import opened PhysicalMemory
  import opened PageTableEntries
  import opened FrameAllocation
  import opened TableModel
  import opened HardwareWalk
  import opened SpaceModel
  import opened MemorySets
  import opened SpaceCopies
  import opened ElfLoading
  import opened UserBuffers
  import opened Ledger
  import opened KernelModel
  import opened KernelSteps
  import opened KernelMemory
  import opened KernelExec
  import opened KernelReap
  import opened KernelSafety
  import opened KernelTheorems
  import opened KernelBoot

  /** At address `a` the space has the byte of the segment, if it begins at a page boundary, and lets user
      mode do what the header says. */
  ghost predicate SegmentAt(mem: Memory, s: Space, sg: Segment, a: nat) {
    && (sg.vaddr % 0x1000 == 0 ==>
          var k := a - sg.vaddr % 0x80_0000_0000;
          k >= 0 && ReadVirtual(mem, s.table.root, a) == if k < |sg.data| then sg.data[k] else 0)
    && forall acc: Access ::
         Physical(mem, Token(s.table.root), a, acc, User).Some? <==> Canonical(a) && HeaderAllows(sg, acc)
  }

  /** At address `a` the space has a zero byte that user mode may read and write. */
  ghost predicate StackAt(mem: Memory, s: Space, a: nat) {
    && ReadVirtual(mem, s.table.root, a) == 0
    && forall acc: Access :: Physical(mem, Token(s.table.root), a, acc, User).Some? <==> Canonical(a) && !acc.Fetch?
  }

  /** The task has the program in its space and in its trap context: every address of every segment, the two
      pages of the stack below `sp`, and the registers of `app_init_context`. */
  ghost predicate HasProgram(mem: Memory, t: Task, segs: seq<Segment>, entry: nat, sstatus: nat, kroot: nat,
                             handler: nat) {
    var sp := Entry(mem, t.trapCxPpn, 2);
    && (forall i, a: nat | 0 <= i < |segs| && NoWrap(segs[i])
                           && segs[i].vaddr % 0x80_0000_0000 <= a < segs[i].vaddr % 0x80_0000_0000 + segs[i].memsz ::
          SegmentAt(mem, t.space, segs[i], a))
    && (segs != [] && NoWrap(segs[|segs| - 1]) ==>
          var end := segs[|segs| - 1].vaddr % 0x80_0000_0000 + segs[|segs| - 1].memsz;
          sp % 0x1000 == 0 && end + 0x3000 <= sp < end + 0x4000)
    && sp == StackTop(segs) >= 0x3000 && (forall a: nat | sp - 0x2000 <= a < sp :: StackAt(mem, t.space, a))
    && (forall w: nat | w < 32 && w != 2 :: Entry(mem, t.trapCxPpn, w) == 0)
    && Entry(mem, t.trapCxPpn, 32) == UserStatus(sstatus) && Entry(mem, t.trapCxPpn, 33) == entry
    && Entry(mem, t.trapCxPpn, 34) == Token(kroot) && Entry(mem, t.trapCxPpn, 35) == KernelStackTop(t.pid)
    && Entry(mem, t.trapCxPpn, 36) == handler
  }

  // ---- from the loaded space to the state after the step ----

  /** A table whose nodes and data are the same in two memories gives the same bytes and the same accesses. */
  lemma SameSpace(mem: Memory, mem': Memory, s: Space, tramp: nat, satp: nat, va: nat, f: nat, acc: Access)
    requires SpaceOk(mem, s, tramp) && SameOn(mem, mem', s.table.roles.Keys + {f})
    requires f == Location(mem, s.table.root, va).0 && SatpMode(satp) == SV39 && SatpPpn(satp) == s.table.root
    ensures ReadVirtual(mem', s.table.root, va) == ReadVirtual(mem, s.table.root, va)
    ensures Physical(mem', satp, va, acc, User) == Physical(mem, satp, va, acc, User)
  {
    hide AreasOk, FrameAt, TableOk, PtePpn, Translate, Physical, SatpMode, SatpPpn;
    assert SameOn(mem, mem', s.table.roles.Keys);
    TableFrame(mem, mem', s.table);
    PhysicalAgrees(mem, s.table, satp, va, acc, User);
    PhysicalAgrees(mem', s.table, satp, va, acc, User);
    assert FrameAt(mem', f) == FrameAt(mem, f);
  }

  /** The image and the task that has it, in the memory after the step. */
  ghost predicate Installed(l: Layout, ph: Phys, ph': Phys, mem: Memory, kroot: nat, t: Task, segs: seq<Segment>) {
    && LayoutOk(l) && Loadable(segs) && Loaded(ph, ph', t.space, Plan(segs), l.tramp)
    && TaskMemoryOk(l, mem, kroot, t) && !t.status.Zombie? && SameOn(ph'.mem, mem, Owned(t.space) - {t.trapCxPpn})
    && t.trapCxPpn !in t.space.table.roles
  }

  /** At an address of a user page nothing has changed since the image was loaded. */
  lemma ImageKept(l: Layout, ph: Phys, ph': Phys, mem: Memory, kroot: nat, t: Task, segs: seq<Segment>, a: nat,
                  acc: Access)
    requires Installed(l, ph, ph', mem, kroot, t, segs) && UserPage(t.space, Floor(a))
    ensures ReadVirtual(mem, t.space.table.root, a) == ReadVirtual(ph'.mem, t.space.table.root, a)
    ensures Physical(mem, Token(t.space.table.root), a, acc, User)
              == Physical(ph'.mem, Token(t.space.table.root), a, acc, User)
    ensures SatpMode(Token(t.space.table.root)) == SV39 && SatpPpn(Token(t.space.table.root)) == t.space.table.root
  {
    hide LayoutOk, Loadable, Plan, AreaLoaded, UserPage, Physical, FrameAt, TrapPageOk, TrapContextOk, Token,
         SatpMode, SatpPpn, SatpAsid, ReadVirtual, TableOk, AreasOk, Floor, PtePpn, PageOffset, SameShape;
    var s := t.space;
    assert SpaceOk(mem, s, l.tramp) && SpaceOk(ph'.mem, s, l.tramp);
    TableRoot(mem, s.table);
    TokenFields(s.table.root);
    UserPageFrame(l, mem, kroot, t, a);
    NodesOwned(s);
    var f := Location(mem, s.table.root, a).0;
    SameSpace(mem, ph'.mem, s, l.tramp, Token(s.table.root), a, f, acc);
  }

  lemma SegmentUserPage(ph: Phys, ph': Phys, s: Space, segs: seq<Segment>, tramp: nat, i: nat, a: nat)
    requires Loadable(segs) && Loaded(ph, ph', s, Plan(segs), tramp) && i < |segs| && NoWrap(segs[i])
    requires segs[i].vaddr % 0x80_0000_0000 <= a < segs[i].vaddr % 0x80_0000_0000 + segs[i].memsz
    ensures UserPage(s, Floor(a))
  {
    hide Loadable, Loaded, Plan, SpaceOk, AreaLoaded, SegmentStart, SegmentEnd;
    SegmentArea(ph, ph', s, segs, tramp, i);
    SegmentExtent(ph, ph', s, segs, tramp, i, a / 0x1000);
    assert Covers(s.areas[i], Floor(a)) && s.areas[i].perm.u;
  }

  lemma StackUserPage(ph: Phys, ph': Phys, s: Space, segs: seq<Segment>, tramp: nat, a: nat)
    requires Loadable(segs) && Loaded(ph, ph', s, Plan(segs), tramp) && StackTop(segs) - 0x2000 <= a < StackTop(segs)
    ensures UserPage(s, Floor(a)) && StackTop(segs) >= 0x3000
  {
    hide SpaceOk, AreaLoaded, SegmentStart, SegmentEnd, MaxEnd, Loadable;
    StackPages(segs);
    var n := |segs|;
    assert Plan(segs)[n] == StackPlan(segs) && SameShape(Plan(segs)[n].area, s.areas[n]);
    assert Covers(s.areas[n], Floor(a)) && s.areas[n].perm.u;
  }

  lemma SegmentInstalled(l: Layout, ph: Phys, ph': Phys, mem: Memory, kroot: nat, t: Task, segs: seq<Segment>,
                         i: nat, a: nat)
    requires Installed(l, ph, ph', mem, kroot, t, segs) && i < |segs| && NoWrap(segs[i])
    requires segs[i].vaddr % 0x80_0000_0000 <= a < segs[i].vaddr % 0x80_0000_0000 + segs[i].memsz
    ensures SegmentAt(mem, t.space, segs[i], a)
  {
    hide Installed, ReadVirtual, Physical, Token, SatpMode, SatpPpn, Canonical, HeaderAllows, Loadable, Loaded, Plan,
         UserPage, Floor;
    var s := t.space;
    InstalledParts(l, ph, ph', mem, kroot, t, segs);
    SegmentUserPage(ph, ph', s, segs, l.tramp, i, a);
    SegmentMapped(ph, ph', s, segs, l.tramp, i, a);
    forall acc: Access
      ensures Physical(mem, Token(s.table.root), a, acc, User).Some? <==> Canonical(a) && HeaderAllows(segs[i], acc)
    {
      ImageKept(l, ph, ph', mem, kroot, t, segs, a, acc);
      SegmentAccess(ph, ph', s, segs, l.tramp, Token(s.table.root), i, a, acc);
    }
    ImageKept(l, ph, ph', mem, kroot, t, segs, a, Load);
  }

  lemma InstalledParts(l: Layout, ph: Phys, ph': Phys, mem: Memory, kroot: nat, t: Task, segs: seq<Segment>)
    requires Installed(l, ph, ph', mem, kroot, t, segs)
    ensures Loadable(segs) && Loaded(ph, ph', t.space, Plan(segs), l.tramp)
  {}

  lemma StackInstalled(l: Layout, ph: Phys, ph': Phys, mem: Memory, kroot: nat, t: Task, segs: seq<Segment>, a: nat)
    requires Installed(l, ph, ph', mem, kroot, t, segs) && StackTop(segs) - 0x2000 <= a < StackTop(segs)
    ensures StackAt(mem, t.space, a)
  {
    hide Installed, ReadVirtual, Physical, Token, SatpMode, SatpPpn, Canonical, Loadable, Loaded, Plan, UserPage,
         StackTop, Floor;
    var s := t.space;
    InstalledParts(l, ph, ph', mem, kroot, t, segs);
    StackUserPage(ph, ph', s, segs, l.tramp, a);
    forall acc: Access
      ensures Physical(mem, Token(s.table.root), a, acc, User).Some? <==> Canonical(a) && !acc.Fetch?
      ensures ReadVirtual(mem, s.table.root, a) == 0
    {
      ImageKept(l, ph, ph', mem, kroot, t, segs, a, acc);
      StackAccess(ph, ph', s, segs, l.tramp, Token(s.table.root), a, acc);
    }
    assert Physical(mem, Token(s.table.root), a, Load, User).Some? <==> Canonical(a);
  }

  /** All of it, if the context page is the one that `app_init_context` writes. */
  lemma ProgramInstalled(l: Layout, ph: Phys, ph': Phys, mem: Memory, kroot: nat, t: Task, segs: seq<Segment>, f: Frame,
                         entry: nat, sstatus: nat)
    requires Installed(l, ph, ph', mem, kroot, t, segs) && l.trapHandler < TWO_64 && kroot < TWO_44
    requires entry < TWO_64 && sstatus < TWO_64 && StackTop(segs) < TWO_64
    requires FrameAt(mem, t.trapCxPpn)
             == ContextPage(f, entry, StackTop(segs), sstatus, kroot, KernelStackTop(t.pid), l.trapHandler)
    ensures HasProgram(mem, t, segs, entry, sstatus, kroot, l.trapHandler)
  {
    hide Installed, Token, StackTop, KernelStackTop, ContextPage, SegmentAt, StackAt, NoWrap, Word, UserStatus,
         FrameAt;
    ContextPageWords(f, entry, StackTop(segs), sstatus, kroot, KernelStackTop(t.pid), l.trapHandler);
    InstalledParts(l, ph, ph', mem, kroot, t, segs);
    TopIsHigh(segs);
    StackAbove(segs);
    forall i, a: nat | 0 <= i < |segs| && NoWrap(segs[i])
                       && segs[i].vaddr % 0x80_0000_0000 <= a < segs[i].vaddr % 0x80_0000_0000 + segs[i].memsz
      ensures SegmentAt(mem, t.space, segs[i], a)
    {
      SegmentInstalled(l, ph, ph', mem, kroot, t, segs, i, a);
    }
    forall a: nat | StackTop(segs) - 0x2000 <= a < StackTop(segs) ensures StackAt(mem, t.space, a) {
      StackInstalled(l, ph, ph', mem, kroot, t, segs, a);
    }
  }

  lemma TopIsHigh(segs: seq<Segment>)
    requires Loadable(segs)
    ensures StackTop(segs) >= 0x3000
  {
    StackPages(segs);
  }

  // ---- the two ways in ----

  /** After an exec the running task has the new program. */
  lemma ExecInstalls(l: Layout, k: Kernel, e: Event, k': Kernel)
    requires Inv(l, k) && e.Exec? && ExecStep(l, k, e, k')
    ensures HasCurrent(k')
    ensures HasProgram(k'.phys.mem, CurrentTask(k'), e.segs, e.entry, e.sstatus, k'.kspace.table.root, l.trapHandler)
  {
    hide Inv, Loaded, Loadable, Plan, TaskMemoryOk, Owned, FrameAt, ContextPage, KernelStackTop, StackTop, HasProgram,
         LayoutOk;
    var cx := TrapCxPpn(e.space);
    NextKeepsInv(l, k, e, k') by { ExecNextIs(l, k, e, k'); }
    CurrentHoldings(l, k');
    LoadedTrapPage(l, k.phys, e.loaded, e.space, e.segs, CurrentTask(k'));
    WriteRead(e.loaded.mem, cx, k'.phys.mem[cx]);
    assert SameOn(e.loaded.mem, k'.phys.mem, Owned(e.space) - {cx});
    ProgramInstalled(l, k.phys, e.loaded, k'.phys.mem, k'.kspace.table.root, CurrentTask(k'), e.segs,
        FrameAt(e.loaded.mem, cx),
                     e.entry, e.sstatus);
  }

  lemma ExecNextIs(l: Layout, k: Kernel, e: Event, k': Kernel)
    requires e.Exec? && ExecStep(l, k, e, k')
    ensures Next(l, k, e, k')
  {
    hide ExecStep;
  }

  /** In the state that `Boot` leaves, `initproc` has its program. */
  lemma StartInstalls(l: Layout, k: Kernel, segs: seq<Segment>, entry: nat, sstatus: nat)
    requires StartedWith(l, k, segs, entry, sstatus)
    ensures Inv(l, k) && k.initproc in k.tasks
    ensures HasProgram(k.phys.mem, k.tasks[k.initproc], segs, entry, sstatus, k.kspace.table.root, l.trapHandler)
  {
    var ph, b :|
      Prepared(l, ph, b, segs) && ContextReady(l, b, segs, entry, sstatus)
          && k == StartState(b, StartPage(l, b, segs, entry, sstatus));
    hide LayoutOk, Loadable, Loaded, Pushed, Plan, SectionPlan, TaskMemoryOk, Owned, FrameAt, ContextPage,
         KernelStackTop, StackTop, HasProgram, TrapCxPpn, Inv, StackArea;
    var t, cx, page := InitTask(b), InitTask(b).trapCxPpn, StartPage(l, b, segs, entry, sstatus);
    StartInv(l, ph, b, segs, entry, sstatus);
    StartTask(l, k, t);
    StartSets(l, ph, b, segs);
    LoadedTrapPage(l, b.kernel, b.loaded, b.image, segs, t);
    WriteRead(b.stacked.mem, cx, page);
    assert SameOn(b.loaded.mem, k.phys.mem, Owned(b.image) - {cx});
    ProgramInstalled(l, b.kernel, b.loaded, k.phys.mem, k.kspace.table.root, t, segs, FrameAt(b.stacked.mem, cx),
        entry, sstatus);
  }

  lemma StartTask(l: Layout, k: Kernel, t: Task)
    requires Inv(l, k) && k.tasks == map[0 := t] && k.initproc == 0 && t.status.Ready?
    ensures LayoutOk(l) && TaskMemoryOk(l, k.phys.mem, k.kspace.table.root, t)
  {
    hide TreeOk, SchedOk, PidsOk, StacksOk, Balanced, BookOf, LayoutOk, SpaceOk, TrapPageOk, TrapContextOk;
    assert TaskMemoryOk(l, k.phys.mem, k.kspace.table.root, k.tasks[0]);
  }
}
