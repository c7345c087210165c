/** The memory side of the kernel invariant: how it looks from one address space, and the steps
    that write memory without moving frames between owners. */
module KernelMemory {
  import opened Address
  import opened PhysicalMemory
  import opened PageTableEntries
  import opened FrameAllocation
  import opened TableModel
  import opened HardwareWalk
  import opened SpaceModel
  import opened MemorySets
  import opened SpaceCopies
  import opened KernelAccess
  import opened UserBuffers
  import opened Ledger
  import opened KernelModel
  import opened KernelSteps

  /** The parts of the invariant that concern frames, identifiers and stacks. */
  ghost predicate ResourcesOk(l: Layout, k: Kernel) {
    PidsOk(l, k) && StacksOk(l, k) && MemoryOk(l, k) && Balanced(BookOf(k), Pool(l))
  }

  // ---- one task ----

  /** The trap context page of a live task is one of its data frames. */
  lemma TrapPageOwned(l: Layout, mem: Memory, kroot: nat, t: Task)
    requires TaskMemoryOk(l, mem, kroot, t) && !t.status.Zombie?
    ensures t.trapCxPpn in DataFrames(t.space.areas) && t.trapCxPpn in Owned(t.space)
    ensures t.trapCxPpn !in t.space.table.roles
    ensures t.trapCxPpn < TWO_44
  {
    InData(t.space.areas, |t.space.areas| - 1, TRAP_CONTEXT_VPN);
    hide SpaceOk, DataFrames, TrapContextOk;
  }

  /** A task depends on its own frames only. */
  lemma TaskFrame(l: Layout, mem: Memory, mem': Memory, kroot: nat, t: Task)
    requires TaskMemoryOk(l, mem, kroot, t) && SameOn(mem, mem', Owned(t.space))
    ensures TaskMemoryOk(l, mem', kroot, t)
  {
    if !t.status.Zombie? {
      TrapPageOwned(l, mem, kroot, t);
    }
    hide TableOk, AreasOk, DataFrames, Word, FrameAt, TrapPageOk;
    TableFrame(mem, mem', t.space.table);
  }

  /** The running task is live and its memory is in order. */
  lemma CurrentLive(l: Layout, k: Kernel)
    requires MemoryOk(l, k) && SchedOk(k) && HasCurrent(k)
    ensures var t := CurrentTask(k);
            && t.status.Running? && TaskMemoryOk(l, k.phys.mem, k.kspace.table.root, t)
            && SpaceOk(k.phys.mem, t.space, l.tramp) && TrapPageOk(t) && AllFramed(t.space.areas)
            && DataFrames(t.space.areas) !! t.space.table.roles.Keys
  {
    assert TaskMemoryOk(l, k.phys.mem, k.kspace.table.root, CurrentTask(k));
    hide SpaceOk, DataFrames;
  }

  // ---- the books ----

  /** What balanced books say about the holders of frames. */
  lemma BookFacts(l: Layout, k: Kernel)
    requires Balanced(BookOf(k), Pool(l))
    ensures k.phys.free <= Pool(l) && Owned(k.kspace) <= Pool(l) && Owned(k.kspace) !! k.phys.free
    ensures forall id | id in k.tasks ::
              Owned(k.tasks[id].space) <= Pool(l) && Owned(k.tasks[id].space) !! k.phys.free
              && Owned(k.tasks[id].space) !! Owned(k.kspace)
    ensures forall a, b | a in k.tasks && b in k.tasks && a != b :: Owned(k.tasks[a].space) !! Owned(k.tasks[b].space)
  {
    hide Owned;
    var b := BookOf(k);
    assert KernelSpace in b.own && b.own[KernelSpace] == Owned(k.kspace);
    forall id | id in k.tasks ensures TaskSpace(id) in b.own && b.own[TaskSpace(id)] == Owned(k.tasks[id].space) {
      assert TaskSpace(id) in Owners(k);
    }
  }

  /** Same holders of the same frames: same books. */
  lemma SameBooks(k: Kernel, k': Kernel)
    requires k'.phys.free == k.phys.free && Owned(k'.kspace) == Owned(k.kspace) && k'.tasks.Keys == k.tasks.Keys
    requires forall id | id in k.tasks :: Owned(k'.tasks[id].space) == Owned(k.tasks[id].space)
    ensures BookOf(k') == BookOf(k)
  {
    hide Owned;
    assert Owners(k') == Owners(k);
  }

  // ---- steps that only schedule ----

  /** Same tasks up to status and links, with the same zombies; same memory. */
  ghost predicate SameResources(k: Kernel, k': Kernel) {
    && k'.phys == k.phys && k'.kspace == k.kspace && k'.pids == k.pids && k'.tasks.Keys == k.tasks.Keys
    && forall id | id in k.tasks ::
         && k'.tasks[id].pid == k.tasks[id].pid && k'.tasks[id].space == k.tasks[id].space
         && k'.tasks[id].trapCxPpn == k.tasks[id].trapCxPpn
         && (k'.tasks[id].status.Zombie? <==> k.tasks[id].status.Zombie?)
  }

  lemma SamePids(tasks: map<nat, Task>, tasks': map<nat, Task>)
    requires tasks'.Keys == tasks.Keys && forall id | id in tasks :: tasks'[id].pid == tasks[id].pid
    ensures LivePids(tasks') == LivePids(tasks)
  {
    forall p | p in LivePids(tasks) ensures p in LivePids(tasks') {
      var id :| id in tasks && tasks[id].pid == p;
      assert tasks'[id].pid == p;
    }
  }

  lemma SameTaskMemory(l: Layout, mem: Memory, kroot: nat, t: Task, t': Task)
    requires TaskMemoryOk(l, mem, kroot, t)
    requires t'.pid == t.pid && t'.space == t.space && t'.trapCxPpn == t.trapCxPpn
    requires (t'.status.Zombie? <==> t.status.Zombie?)
    ensures TaskMemoryOk(l, mem, kroot, t')
  {
    hide SpaceOk, TableOk, UserShape, Entry;
  }

  /** Identifiers and stacks depend on the identifiers of the tasks only. */
  lemma SameKeepsPids(l: Layout, k: Kernel, k': Kernel)
    requires PidsOk(l, k) && StacksOk(l, k)
    requires k'.pids == k.pids && k'.kspace.areas == k.kspace.areas && k'.tasks.Keys == k.tasks.Keys
    requires forall id | id in k.tasks :: k'.tasks[id].pid == k.tasks[id].pid
    ensures PidsOk(l, k') && StacksOk(l, k')
  {
    hide LivePids, StackList, PidSetOk;
    SamePids(k.tasks, k'.tasks);
  }

  lemma SameKeepsMemory(l: Layout, k: Kernel, k': Kernel)
    requires MemoryOk(l, k) && SameResources(k, k')
    ensures MemoryOk(l, k')
  {
    hide SpaceOk, TaskMemoryOk;
    forall id | id in k'.tasks ensures TaskMemoryOk(l, k'.phys.mem, k'.kspace.table.root, k'.tasks[id]) {
      SameTaskMemory(l, k.phys.mem, k.kspace.table.root, k.tasks[id], k'.tasks[id]);
    }
  }

  lemma SameKeepsResources(l: Layout, k: Kernel, k': Kernel)
    requires ResourcesOk(l, k) && SameResources(k, k')
    ensures ResourcesOk(l, k')
  {
    hide PidsOk, StacksOk, MemoryOk, Balanced, Owned, BookOf;
    SameKeepsPids(l, k, k');
    SameKeepsMemory(l, k, k');
    SameBooks(k, k');
  }

  // ---- steps that write to one frame of the running task ----

  lemma WriteKeepsMemory(l: Layout, k: Kernel, k': Kernel, c: nat, f: nat, frame: Frame)
    requires MemoryOk(l, k) && Balanced(BookOf(k), Pool(l)) && c in k.tasks && f in Owned(k.tasks[c].space)
    requires k' == k.(phys := k.phys.(mem := k.phys.mem[f := frame]))
    requires TaskMemoryOk(l, k'.phys.mem, k.kspace.table.root, k.tasks[c])
    ensures MemoryOk(l, k')
  {
    hide TaskMemoryOk, Balanced, Owned, BookOf, FrameAt, AreasOk, TableOk;
    BookFacts(l, k);
    WriteRead(k.phys.mem, f, frame);
    forall id | id in k'.tasks ensures TaskMemoryOk(l, k'.phys.mem, k'.kspace.table.root, k'.tasks[id]) {
      if id != c {
        TaskFrame(l, k.phys.mem, k'.phys.mem, k.kspace.table.root, k.tasks[id]);
      }
    }
    NodesOwned(k.kspace);
    WriteElsewhere(k.phys.mem, k.kspace.table, f, frame);
  }

  /** Task `c` wrote to a frame of its own and its memory is still in order. */
  lemma WriteKeepsResources(l: Layout, k: Kernel, k': Kernel, c: nat, f: nat, frame: Frame)
    requires ResourcesOk(l, k) && c in k.tasks && f in Owned(k.tasks[c].space)
    requires k' == k.(phys := k.phys.(mem := k.phys.mem[f := frame]))
    requires TaskMemoryOk(l, k'.phys.mem, k.kspace.table.root, k.tasks[c])
    ensures ResourcesOk(l, k')
  {
    hide PidsOk, StacksOk, MemoryOk, TaskMemoryOk, Balanced, Owned, BookOf;
    SameKeepsPids(l, k, k');
    WriteKeepsMemory(l, k, k', c, f, frame);
    SameBooks(k, k');
  }

  /** Kernel code reaches every frame of the pool at its own address. */
  lemma PoolReached(l: Layout, k: Kernel, p: nat, store: bool)
    requires LayoutOk(l) && StacksOk(l, k) && MemoryOk(l, k) && p in Pool(l)
    ensures KernelPage(k.phys.mem, k.kspace.table.root, p, store) == Some(p)
  {
    hide TableOk, TaskMemoryOk, LivePids, DataFrames, InjectiveFrames, DisjointAreas, NothingElse, LeafPte,
         KernelPage;
    assert k.kspace.areas[4] == k.kspace.areas[..5][4] == l.sections[4];
    assert Covers(k.kspace.areas[4], p);
    MappedPage(k.phys.mem, k.kspace.table, p, p, RW, store);
  }

  lemma PoolEdge(l: Layout, f: nat)
    requires LayoutOk(l) && f in Pool(l)
    ensures f > 0 && (if f + 1 < l.hi then f + 1 in Pool(l) else f + 1 == l.hi && f + 1 !in Pool(l))
  {}

  lemma NodesOwned(s: Space)
    ensures s.table.roles.Keys <= Owned(s) && DataFrames(s.areas) <= Owned(s)
  {}

  /** A user-mode leaf of a live space belongs to an area other than the trap context: its frame
      is a data frame, no table node and not the trap context page. */
  lemma UserLeaf(l: Layout, mem: Memory, kroot: nat, t: Task, v: nat)
    requires TaskMemoryOk(l, mem, kroot, t) && !t.status.Zombie? && LayoutOk(l)
    requires v in t.space.table.flat && UserAccessible(t.space.table.flat[v])
    ensures PtePpn(t.space.table.flat[v]) in DataFrames(t.space.areas)
    ensures PtePpn(t.space.table.flat[v]) != t.trapCxPpn && PtePpn(t.space.table.flat[v]) !in t.space.table.roles
    ensures UserPage(t.space, v)
  {
    hide TableOk, AreasOk, TrapContextOk, UserShape, LeafPte, PtePpn, DataFrames, UserAccessible, LayoutOk;
    assert l.tramp < TWO_44 by { TrampInRange(l); }
    NotTrampoline(t.space, l.tramp, v);
    var i :| 0 <= i < |t.space.areas| && Covers(t.space.areas[i], v);
    UserLeafIn(l, mem, t, v, i);
  }

  lemma TrampInRange(l: Layout)
    requires LayoutOk(l)
    ensures 0 < l.tramp < TWO_44
  {}

  /** The last area is the trap context and is closed to user mode. */
  lemma TrapArea(t: Task, i: nat)
    requires TrapPageOk(t) && i < |t.space.areas|
    ensures t.space.areas[i].kind.Framed?
    ensures var a := t.space.areas[|t.space.areas| - 1];
            !a.perm.u && TRAP_CONTEXT_VPN in a.frames && a.frames[TRAP_CONTEXT_VPN] == t.trapCxPpn
  {}

  lemma UserLeafIn(l: Layout, mem: Memory, t: Task, v: nat, i: nat)
    requires SpaceOk(mem, t.space, l.tramp) && TrapPageOk(t)
    requires i < |t.space.areas| && Covers(t.space.areas[i], v)
    requires v in t.space.table.flat && UserAccessible(t.space.table.flat[v])
    ensures var f := PtePpn(t.space.table.flat[v]);
            f in DataFrames(t.space.areas) && f != t.trapCxPpn && f !in t.space.table.roles && UserPage(t.space, v)
  {
    hide TableOk, AreasOk, LeafPte, PtePpn, DataFrames, UserAccessible, Translate, TrapPageOk, InjectiveFrames,
         AllFramed;
    var s := t.space;
    TrapArea(t, i);
    FramedPages(s, l.tramp, i);
    PageTranslates(mem, s, l.tramp, i, v);
    LeafPteFields(s.areas[i].frames[v], s.areas[i].perm);
    AreasParts(s, l.tramp);
    assert i != |s.areas| - 1;
  }

  lemma NotTrampoline(s: Space, tramp: nat, v: nat)
    requires AreasOk(s, tramp) && tramp < TWO_44 && v in s.table.flat && UserAccessible(s.table.flat[v])
    ensures InSomeArea(s.areas, v)
  {
    hide LeafPte, UserAccessible, ShapesOk, DisjointAreas, AreasMapped, InjectiveFrames, DataFrames;
    LeafPteFields(tramp, RX);
  }

  /** A write to a data frame other than the trap context page leaves the task's memory in order. */
  lemma DataWriteKeepsTask(l: Layout, mem: Memory, kroot: nat, t: Task, f: nat, frame: Frame)
    requires TaskMemoryOk(l, mem, kroot, t) && !t.status.Zombie?
    requires f != t.trapCxPpn && f !in t.space.table.roles
    ensures TaskMemoryOk(l, mem[f := frame], kroot, t)
  {
    hide TableOk, AreasOk, Word, FrameAt, TrapPageOk;
    WriteRead(mem, f, frame);
    WriteElsewhere(mem, t.space.table, f, frame);
  }

  /** What user mode reaches through the table of a live task is a data frame of the task: no table node
      and not the trap context page. */
  lemma UserReaches(l: Layout, mem: Memory, kroot: nat, t: Task, va: nat, acc: Access)
    requires TaskMemoryOk(l, mem, kroot, t) && !t.status.Zombie? && LayoutOk(l)
    requires Physical(mem, Token(t.space.table.root), va, acc, User).Some?
    ensures var f := Physical(mem, Token(t.space.table.root), va, acc, User).value / 0x1000;
            f in DataFrames(t.space.areas) && f != t.trapCxPpn && f !in t.space.table.roles
    ensures UserPage(t.space, Floor(VirtAddrFrom(va)))
  {
    var v := Floor(VirtAddrFrom(va));
    TableRoot(mem, t.space.table);
    TokenFields(t.space.table.root);
    hide LayoutOk, TableOk, AreasOk, DataFrames, PtePpn, Floor, VirtAddrFrom, TrapContextOk, TrapPageOk, Physical,
         Token, LegalLeaf, Permits, SatpMode, SatpPpn, SatpAsid, Canonical;
    PhysicalAgrees(mem, t.space.table, Token(t.space.table.root), va, acc, User);
    PermitsUser(t.space.table.flat[v], acc);
    UserLeaf(l, mem, kroot, t, v);
    FrameOf(PtePpn(t.space.table.flat[v]), PageOffset(va));
  }

  lemma TableRoot(mem: Memory, t: Table)
    requires TableOk(mem, t)
    ensures t.root < TWO_44
  {}

  lemma PermitsUser(pte: nat, acc: Access)
    requires Permits(pte, acc, User)
    ensures UserAccessible(pte)
  {
    FieldsAgree();
  }

  lemma FrameOf(f: nat, off: nat)
    requires off < PAGE_SIZE
    ensures (f * PAGE_SIZE + off) / 0x1000 == f && (f * PAGE_SIZE + off) % 0x1000 == off
  {}

  lemma UserStoreKeepsResources(l: Layout, k: Kernel, e: Event, k': Kernel)
    requires LayoutOk(l) && ResourcesOk(l, k) && SchedOk(k) && e.UserStore? && UserStoreStep(k, e, k')
    ensures ResourcesOk(l, k')
  {
    var t, pa := CurrentTask(k), Physical(k.phys.mem, CurrentSatp(k), e.va, Store, User).value;
    CurrentLive(l, k);
    hide LayoutOk, ResourcesOk, SpaceOk, Physical, DataFrames, FrameAt, PutByte, SchedOk, TrapContextOk, TrapPageOk,
         Token;
    UserReaches(l, k.phys.mem, k.kspace.table.root, t, e.va, Store);
    var f, frame := pa / 0x1000, PutByte(FrameAt(k.phys.mem, pa / 0x1000), pa % 0x1000, e.value);
    DataWriteKeepsTask(l, k.phys.mem, k.kspace.table.root, t, f, frame);
    WriteKeepsResources(l, k, k', k.current.value, f, frame);
  }

  lemma SaveWordKeepsTask(l: Layout, mem: Memory, kroot: nat, t: Task, i: nat, w: nat)
    requires TaskMemoryOk(l, mem, kroot, t) && !t.status.Zombie? && i < 34 && w < TWO_64
    ensures TaskMemoryOk(l, SetEntry(mem, t.trapCxPpn, i, w), kroot, t)
  {
    SetEntryRead(mem, t.trapCxPpn, i, w);
    WriteElsewhere(mem, t.space.table, t.trapCxPpn, PutWord(FrameAt(mem, t.trapCxPpn), i, w));
    hide TableOk, AreasOk, Entry, FrameAt, TrapPageOk, PutWord;
  }

  lemma SaveWordKeepsResources(l: Layout, k: Kernel, e: Event, k': Kernel)
    requires ResourcesOk(l, k) && SchedOk(k) && e.SaveWord? && SaveWordStep(k, e, k')
    ensures ResourcesOk(l, k')
  {
    var t := CurrentTask(k);
    hide ResourcesOk, TaskMemoryOk, FrameAt, PutWord, SchedOk;
    SaveWordKeepsTask(l, k.phys.mem, k.kspace.table.root, t, e.i, e.w);
    WriteKeepsResources(l, k, k', k.current.value, t.trapCxPpn, PutWord(FrameAt(k.phys.mem, t.trapCxPpn), e.i, e.w));
  }
}
