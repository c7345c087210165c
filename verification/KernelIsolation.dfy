/** What a task finds when it runs again: its memory and its registers as it left them, whatever
    the other tasks did in the meantime. */
module KernelIsolation {
  import opened Address
  import opened PhysicalMemory
  import opened PageTableEntries
  import opened FrameAllocation
  import opened TableModel
  import opened HardwareWalk
  import opened SpaceModel
  import opened MemorySets
  import opened SpaceCopies
  import opened ElfLoading
  import opened UserBuffers
  import opened KernelAccess
  import opened Ledger
  import opened KernelModel
  import opened KernelSteps
  import opened KernelMemory
  import opened KernelFork
  import opened KernelExec
  import opened KernelReap
  import opened KernelSafety
  import opened KernelTheorems
  import opened KernelProcesses
  import opened StepFacts

  /** The task has the same address space, the same trap context page and the same bytes in all of
      its frames. */
  ghost predicate Untouched(k: Kernel, k': Kernel, id: nat)
    requires id in k.tasks
  {
    && id in k'.tasks && k'.tasks[id].space == k.tasks[id].space && k'.tasks[id].trapCxPpn == k.tasks[id].trapCxPpn
    && k'.tasks[id].pid == k.tasks[id].pid && !k'.tasks[id].status.Zombie?
    && SameOn(k.phys.mem, k'.phys.mem, Owned(k.tasks[id].space))
  }

  /** One frame that the task does not own is overwritten. */
  lemma WrittenElsewhere(mem: Memory, f: nat, frame: Frame, owned: set<nat>)
    requires f !in owned
    ensures SameOn(mem, mem[f := frame], owned)
  {
    WriteRead(mem, f, frame);
  }

  lemma ForkUntouched(l: Layout, k: Kernel, e: Event, k': Kernel, id: nat)
    requires Inv(l, k) && e.Fork? && ForkStep(l, k, e, k') && id in k.tasks && !k.tasks[id].status.Zombie?
    ensures Untouched(k, k', id)
  {
    hide LayoutOk, RootOk, ParentsOk, ChildrenOk, ListsOk, SchedOk, PidsOk, StacksOk, MemoryOk, Balanced, BookOf,
         SameOn, Owned, TrapPageOk, FrameAt, Copied, Pushed, ForkContext, TrapCxPpn, KernelStackTop, StackArea,
         PidAlloc, ForkSets, SpaceOk;
    BookFacts(l, k);
    ForkTakes(l, k, e, k');
    ForkTrapPage(l, k, e, k');
    ForkOthers(l, k, e, k', Owned(k.tasks[id].space));
  }

  lemma ExecUntouched(l: Layout, k: Kernel, e: Event, k': Kernel, id: nat)
    requires Inv(l, k) && e.Exec? && ExecStep(l, k, e, k') && id in k.tasks && !k.tasks[id].status.Zombie?
    requires k.current != Some(id)
    ensures Untouched(k, k', id)
  {
    hide LayoutOk, TreeOk, SchedOk, PidsOk, StacksOk, MemoryOk, Balanced, BookOf, SameOn, Owned, FrameAt, Loaded,
         Loadable, Plan, TrapCxPpn, KernelStackTop, ContextPage, StackTop;
    BookFacts(l, k);
    ExecOthers(l, k, e, k', Owned(k.tasks[id].space));
  }

  /** Memory after a reaping: the stored code, and changed nodes of kernel space. */
  lemma ReapMemory(l: Layout, k: Kernel, e: Event, k': Kernel, f: nat)
    requires Inv(l, k) && e.Reap? && ReapStep(l, k, e, k')
    requires f == Location(k.phys.mem, CurrentTask(k).space.table.root, VirtAddrFrom(e.ptr)).0
    ensures ReapReady(k, e) && SameOff(AfterStore(k, e).phys.mem, k'.phys.mem, k.kspace.table.roles.Keys)
    ensures f in Owned(CurrentTask(k).space) && f != CurrentTask(k).trapCxPpn && f !in CurrentTask(k).space.table.roles
    ensures k.kspace.table.roles.Keys !! Owned(CurrentTask(k).space)
  {
    assert HasCurrent(k) && PointerOk(CurrentTask(k).space, e.ptr);
    hide LayoutOk, TreeOk, SchedOk, PidsOk, StacksOk, MemoryOk, Balanced, BookOf, Owned, FrameAt, TaskMemoryOk,
         SpaceOk, TrapPageOk, FirstStart, StackStart, UserPage, Location, StoredCode, DataFrames, Floor, VirtAddrFrom,
         Without, RemoveAt, ReapStep, PageOffset;
    CurrentHoldings(l, k);
    UserPageFrame(l, k.phys.mem, k.kspace.table.root, CurrentTask(k),
        VirtAddrFrom(e.ptr)) by { StoreThenDrop(l, k, e, k'); }
    StoreThenDrop(l, k, e, k');
  }

  lemma ReapUntouched(l: Layout, k: Kernel, e: Event, k': Kernel, id: nat)
    requires Inv(l, k) && e.Reap? && ReapStep(l, k, e, k') && id in k.tasks && !k.tasks[id].status.Zombie?
    requires k.current != Some(id)
    ensures Untouched(k, k', id)
  {
    hide LayoutOk, TreeOk, SchedOk, PidsOk, StacksOk, MemoryOk, Balanced, BookOf, Owned, FrameAt, TaskMemoryOk,
         SpaceOk, TrapPageOk, FirstStart, StackStart, UserPage, Location, PutBytes, ExitCodeBytes, DataFrames, Floor,
         VirtAddrFrom, Removed, RemoveAt, StoreExitCode, PageOffset;
    BookFacts(l, k);
    var t, z := CurrentTask(k), Victim(k, e);
    var f := Location(k.phys.mem, t.space.table.root, VirtAddrFrom(e.ptr)).0;
    ReapMemory(l, k, e, k', f);
    WrittenElsewhere(k.phys.mem, f,
        PutBytes(FrameAt(k.phys.mem, f), PageOffset(e.ptr), ExitCodeBytes(k.tasks[z].exitCode)),
            Owned(k.tasks[id].space));
    NodesOwned(k.kspace);
  }

  lemma UserStoreUntouched(l: Layout, k: Kernel, e: Event, k': Kernel, id: nat)
    requires Inv(l, k) && e.UserStore? && UserStoreStep(k, e, k') && id in k.tasks && !k.tasks[id].status.Zombie?
    requires k.current != Some(id)
    ensures Untouched(k, k', id)
  {
    hide Inv, Owned, FrameAt, Physical, PutByte, Token, DataFrames;
    var f := UserStoreIsolated(l, k, e, k');
  }

  lemma SaveWordUntouched(l: Layout, k: Kernel, e: Event, k': Kernel, id: nat)
    requires Inv(l, k) && e.SaveWord? && SaveWordStep(k, e, k') && id in k.tasks && !k.tasks[id].status.Zombie?
    requires k.current != Some(id)
    ensures Untouched(k, k', id)
  {
    hide LayoutOk, TreeOk, SchedOk, PidsOk, StacksOk, MemoryOk, Balanced, BookOf, Owned, FrameAt, TaskMemoryOk,
         SpaceOk, TrapPageOk, DataFrames, PutWord, Word;
    CurrentLive(l, k);
    BookFacts(l, k);
    TrapPageOwned(l, k.phys.mem, k.kspace.table.root, CurrentTask(k));
    SetEntryRead(k.phys.mem, CurrentTask(k).trapCxPpn, e.i, e.w);
  }

  /** The steps that leave memory alone. */
  lemma QuietUntouched(l: Layout, k: Kernel, e: Event, k': Kernel, id: nat)
    requires Next(l, k, e, k') && (e.Dispatch? || e.Yield? || e.Exit? || e.WaitFails?)
    requires id in k.tasks && !k.tasks[id].status.Zombie? && k.current != Some(id)
    ensures Untouched(k, k', id)
  {
    hide Owned, FrameAt, DataFrames, AnyZombie;
  }

  /** A step leaves every live task but the running one untouched. */
  lemma OthersUntouched(l: Layout, k: Kernel, e: Event, k': Kernel, id: nat)
    requires Inv(l, k) && Next(l, k, e, k') && id in k.tasks && !k.tasks[id].status.Zombie? && k.current != Some(id)
    ensures Untouched(k, k', id)
  {
    hide Inv, Untouched, DispatchStep, YieldStep, ExitStep, ForkStep, ExecStep, ReapStep, UserStoreStep, SaveWordStep,
         AnyZombie;
    match e
    case Fork(_, _, _, _) => ForkUntouched(l, k, e, k', id);
    case Exec(_, _, _, _, _) => ExecUntouched(l, k, e, k', id);
    case Reap(_, _, _, _) => ReapUntouched(l, k, e, k', id);
    case UserStore(_, _) => UserStoreUntouched(l, k, e, k', id);
    case SaveWord(_, _) => SaveWordUntouched(l, k, e, k', id);
    case _ => QuietUntouched(l, k, e, k', id);
  }

  lemma UntouchedTwice(k: Kernel, k1: Kernel, k2: Kernel, id: nat)
    requires id in k.tasks && Untouched(k, k1, id) && Untouched(k1, k2, id)
    ensures Untouched(k, k2, id)
  {
    hide Owned, FrameAt;
  }

  /** Over any part of a run in which a task does not run, nobody touches it. */
  lemma {:induction false} SuspendedUntouched(l: Layout, states: seq<Kernel>, events: seq<Event>, i: nat, j: nat,
                                              id: nat)
    requires Run(l, states, events) && Inv(l, states[0]) && i <= j < |states|
    requires id in states[i].tasks && !states[i].tasks[id].status.Zombie?
    requires forall m | i <= m < j :: states[m].current != Some(id)
    ensures Untouched(states[i], states[j], id)
    decreases j
  {
    hide Inv, Next;
    if i < j {
      SuspendedUntouched(l, states, events, i, j - 1, id);
      RunKeepsInv(l, states, events, j - 1);
      OthersUntouched(l, states[j - 1], events[j - 1], states[j], id);
    }
  }

  /** The memory of the task as user mode sees it. */
  lemma UntouchedReads(l: Layout, k: Kernel, k': Kernel, id: nat)
    requires Inv(l, k) && id in k.tasks && !k.tasks[id].status.Zombie? && Untouched(k, k', id)
    ensures forall v: nat ::
              Translate(k'.phys.mem, k.tasks[id].space.table.root, v)
                  == Translate(k.phys.mem, k.tasks[id].space.table.root, v)
    ensures forall va: nat | InSomeArea(k.tasks[id].space.areas, Floor(va)) ::
              ReadVirtual(k'.phys.mem, k.tasks[id].space.table.root, va)
                  == ReadVirtual(k.phys.mem, k.tasks[id].space.table.root, va)
    ensures forall i: nat | i < 512 ::
              Entry(k'.phys.mem, k.tasks[id].trapCxPpn, i) == Entry(k.phys.mem, k.tasks[id].trapCxPpn, i)
  {
    hide LayoutOk, TreeOk, SchedOk, PidsOk, StacksOk, Balanced, BookOf, Owned, FrameAt, TableOk, AreasOk, DataFrames,
         Word, ReadVirtual, Translate, AllFramed, Floor, InSomeArea;
    var t := k.tasks[id];
    assert TaskMemoryOk(l, k.phys.mem, k.kspace.table.root, t);
    NodesOwned(t.space);
    TableFrame(k.phys.mem, k'.phys.mem, t.space.table);
    TrapPageOwned(l, k.phys.mem, k.kspace.table.root, t);
    forall va: nat | InSomeArea(t.space.areas, Floor(va))
      ensures ReadVirtual(k'.phys.mem, t.space.table.root, va) == ReadVirtual(k.phys.mem, t.space.table.root, va)
    {
      AreaReads(k.phys.mem, k'.phys.mem, t.space, l.tramp, va);
    }
  }

  lemma AreaReads(mem: Memory, mem': Memory, s: Space, tramp: nat, va: nat)
    requires SpaceOk(mem, s, tramp) && SpaceOk(mem', s, tramp) && AllFramed(s.areas) && InSomeArea(s.areas, Floor(va))
    requires SameOn(mem, mem', Owned(s))
    ensures ReadVirtual(mem', s.table.root, va) == ReadVirtual(mem, s.table.root, va)
  {
    hide SpaceOk, Owned, FrameAt, ReadVirtual, Translate, LeafPte, PtePpn, Floor, PageOffset;
    var i :| 0 <= i < |s.areas| && Covers(s.areas[i], Floor(va));
    FramedPage(mem, s, tramp, i, Floor(va));
    ReadThroughTable(mem, s, tramp, i, va);
    ReadThroughTable(mem', s, tramp, i, va);
  }

  // ---- fork, from the step to the child's first turn ----

  /** Page `Floor(va)` belongs to an area that is open to user mode: any area but the last. */
  lemma UserAreaOf(areas: seq<MapArea>, v: nat) returns (i: nat)
    requires UserShape(areas) && InSomeArea(areas[..|areas| - 1], v)
    ensures i < |areas| - 1 && Covers(areas[i], v) && areas[i].kind.Framed?
  {
    var j :| 0 <= j < |areas| - 1 && Covers(areas[..|areas| - 1][j], v);
    i := j;
  }

  /** After a fork the child reads what the parent reads. */
  lemma ForkReads(l: Layout, k: Kernel, e: Event, k': Kernel, va: nat)
    requires Inv(l, k) && e.Fork? && ForkStep(l, k, e, k') && Inv(l, k') && HasCurrent(k)
    requires k.nextId in k'.tasks && !k'.tasks[k.nextId].status.Zombie?
    requires UserShape(CurrentTask(k).space.areas)
    requires InSomeArea(CurrentTask(k).space.areas[..|CurrentTask(k).space.areas| - 1], Floor(va))
    ensures ReadVirtual(k'.phys.mem, k'.tasks[k.nextId].space.table.root, va)
            == ReadVirtual(k.phys.mem, CurrentTask(k).space.table.root, va)
  {
    hide Inv, Owned, FrameAt, SpaceOk, ReadVirtual, Floor, InSomeArea, UserShape, ForkStep, LeafPte, PageOffset,
         Entry, KernelStackTop, AllFramed, Pool, SameOn, TrapPageOk, TrapContextOk;
    var t, c := CurrentTask(k), k'.tasks[k.nextId];
    var i := UserAreaOf(t.space.areas, Floor(va));
    CurrentFacts(l, k);
    LiveTrapPage(l, k', k.nextId);
    ForkPreservesMeaning(l, k, e, k');
    assert SameShape(t.space.areas[i], c.space.areas[i]);
    assert PageCopied(k.phys.mem, k'.phys.mem, t.space.areas[i], c.space.areas[i], Floor(va));
    ReadThroughTable(k.phys.mem, t.space, l.tramp, i, va);
    ReadThroughTable(k'.phys.mem, c.space, l.tramp, i, va);
  }

  /** The new task is ready, and the running task can be read. */
  lemma ForkedTask(l: Layout, k: Kernel, e: Event, k': Kernel)
    requires Inv(l, k) && e.Fork? && ForkStep(l, k, e, k')
    ensures k.nextId in k'.tasks && k'.tasks[k.nextId].status.Ready? && UserShape(CurrentTask(k).space.areas)
    ensures k.current == k'.current && k'.current != Some(k.nextId)
  {
    hide LayoutOk, TreeOk, PidsOk, StacksOk, Balanced, BookOf, SpaceOk, Copied, Pushed, ForkContext, StackArea,
         KernelStackTop, TrapCxPpn, PidAlloc, QueueOk, ReadyQueued;
    InvNames(l, k);
    CurrentLive(l, k);
  }

  /** From the fork to its first turn, whatever else happens, the child keeps the memory of its parent
      at the fork, and its trap context is the parent's with result 0 and its own kernel stack. */
  lemma ChildStartsAsParent(l: Layout, states: seq<Kernel>, events: seq<Event>, i: nat, j: nat, va: nat, w: nat)
    requires Run(l, states, events) && Inv(l, states[0]) && i < j < |states| && events[i].Fork? && w < 512
    requires forall m | i < m < j :: states[m].current != Some(states[i].nextId)
    ensures HasCurrent(states[i]) && states[i].nextId in states[j].tasks
    ensures var p, c := CurrentTask(states[i]), states[j].tasks[states[i].nextId];
            |p.space.areas| > 0 && InSomeArea(p.space.areas[..|p.space.areas| - 1], Floor(va)) ==>
              ReadVirtual(states[j].phys.mem, c.space.table.root, va)
                  == ReadVirtual(states[i].phys.mem, p.space.table.root, va)
    ensures var p, c := CurrentTask(states[i]), states[j].tasks[states[i].nextId];
            Entry(states[j].phys.mem, c.trapCxPpn, w)
            == if w == 10 then 0 else if w == 35 then KernelStackTop(c.pid)
                else Entry(states[i].phys.mem, p.trapCxPpn, w)
  {
    hide Inv, ForkStep, InSomeArea, ReadVirtual, Entry, Translate, Owned, SameOn, Floor, SameShape, PageCopied,
         KernelStackTop;
    RunKeepsInv(l, states, events, i);
    RunKeepsInv(l, states, events, i + 1);
    var k, k' := states[i], states[i + 1];
    StepIsFork(l, k, events[i], k');
    ForkedTask(l, k, events[i], k');
    SuspendedUntouched(l, states, events, i + 1, j, k.nextId);
    UntouchedReads(l, k', states[j], k.nextId);
    ForkPreservesMeaning(l, k, events[i], k');
    var areas := CurrentTask(k).space.areas;
    if InSomeArea(areas[..|areas| - 1], Floor(va)) {
      ForkReads(l, k, events[i], k', va);
      ForkedAreas(areas, k'.tasks[k.nextId].space.areas, Floor(va));
    }
  }

  lemma StepIsFork(l: Layout, k: Kernel, e: Event, k': Kernel)
    requires e.Fork? && Next(l, k, e, k')
    ensures ForkStep(l, k, e, k') && HasCurrent(k)
  {
    hide Copied, Pushed, ForkContext, StackArea, KernelStackTop, TrapCxPpn, PidAlloc;
  }

  lemma ForkedAreas(areas: seq<MapArea>, areas': seq<MapArea>, v: nat)
    requires |areas'| == |areas| > 0 && InSomeArea(areas[..|areas| - 1], v)
    requires forall i | 0 <= i < |areas'| :: SameShape(areas[i], areas'[i])
    ensures InSomeArea(areas', v)
  {
    var j :| 0 <= j < |areas| - 1 && Covers(areas[..|areas| - 1][j], v);
    assert SameShape(areas[j], areas'[j]);
  }

  // ---- a system call that yields ----

  /** The running task yields and the step leaves its memory alone. */
  lemma YieldUntouched(l: Layout, k: Kernel, k': Kernel)
    requires Inv(l, k) && Next(l, k, Yield, k')
    ensures HasCurrent(k) && !CurrentTask(k).status.Zombie? && k'.current.None? && k.current.value in k'.tasks
    ensures k'.tasks[k.current.value].status.Ready? && Untouched(k, k', k.current.value)
  {
    hide LayoutOk, TreeOk, PidsOk, StacksOk, MemoryOk, Balanced, BookOf, Owned, QueueOk, ReadyQueued;
  }

  lemma DispatchUntouched(l: Layout, k: Kernel, k': Kernel)
    requires Next(l, k, Dispatch, k')
    ensures |k.queue| > 0 && k.queue[0] in k.tasks && k'.current == Some(k.queue[0]) && Untouched(k, k', k.queue[0])
  {
    hide Owned;
  }

  lemma SaveReads(l: Layout, k: Kernel, i: nat, v: nat, k': Kernel, w: nat)
    requires Next(l, k, SaveWord(i, v), k') && w < 512
    ensures HasCurrent(k) && k'.tasks == k.tasks
    ensures Entry(k'.phys.mem, CurrentTask(k).trapCxPpn, w) == if w == i then v
              else Entry(k.phys.mem, CurrentTask(k).trapCxPpn, w)
  {
    hide Entry, SetEntry;
    SetEntryRead(k.phys.mem, CurrentTask(k).trapCxPpn, i, v);
  }

  /** A task that yields by a system call comes back, whatever ran in between, to the trap context it
      left; the handler then sets the result 0, and nothing else differs. */
  lemma YieldReturnsZero(l: Layout, states: seq<Kernel>, events: seq<Event>, i: nat, j: nat, w: nat)
    requires Run(l, states, events) && Inv(l, states[0]) && i < j < |events| - 1 && w < 512
    requires events[i].Yield? && HasCurrent(states[i]) && events[j].Dispatch? && events[j + 1] == SaveWord(10, 0)
    requires |states[j].queue| > 0 && states[j].queue[0] == states[i].current.value
    requires forall m | i < m < j :: states[m].current != states[i].current
    ensures var id := states[i].current.value;
            && id in states[j + 2].tasks && states[j + 2].tasks[id].trapCxPpn == CurrentTask(states[i]).trapCxPpn
            && Entry(states[j + 2].phys.mem, CurrentTask(states[i]).trapCxPpn, w)
               == if w == 10 then 0 else Entry(states[i].phys.mem, CurrentTask(states[i]).trapCxPpn, w)
  {
    hide Inv, Next, Entry, Owned, SameOn, InSomeArea, ReadVirtual, Translate;
    var k, id := states[i], states[i].current.value;
    RunKeepsInv(l, states, events, i);
    YieldUntouched(l, k, states[i + 1]);
    SuspendedUntouched(l, states, events, i + 1, j, id);
    UntouchedTwice(k, states[i + 1], states[j], id);
    DispatchUntouched(l, states[j], states[j + 1]);
    UntouchedTwice(k, states[j], states[j + 1], id);
    UntouchedReads(l, k, states[j + 1], id);
    SaveReads(l, states[j + 1], 10, 0, states[j + 2], w);
  }

  // ---- waitpid, from the exit to the parent's memory ----

  /** The bytes that `PutBytes` leaves. */
  lemma PutBytesRead(f: Frame, off: nat, bs: seq<Byte>, o: nat)
    requires off + |bs| <= PAGE_SIZE && o < PAGE_SIZE
    ensures PutBytes(f, off, bs)[o] == if off <= o < off + |bs| then bs[o - off] else f[o]
  {}

  /** The frame behind the parent's pointer after the whole step. */
  lemma ReapFrame(l: Layout, k: Kernel, e: Event, k': Kernel, f: nat)
    requires Inv(l, k) && e.Reap? && ReapStep(l, k, e, k')
    requires f == Location(k.phys.mem, CurrentTask(k).space.table.root, VirtAddrFrom(e.ptr)).0
    ensures PageOffset(e.ptr) + 4 <= PAGE_SIZE
    ensures FrameAt(k'.phys.mem, f)
              == PutBytes(FrameAt(k.phys.mem, f), PageOffset(e.ptr), ExitCodeBytes(k.tasks[Victim(k, e)].exitCode))
    ensures SameOn(k.phys.mem, k'.phys.mem, Owned(CurrentTask(k).space) - {f})
    ensures f !in CurrentTask(k).space.table.roles && f != CurrentTask(k).trapCxPpn
  {
    assert HasCurrent(k) && PointerOk(CurrentTask(k).space, e.ptr);
    hide Inv, Owned, FrameAt, UserPage, Location, PutBytes, ExitCodeBytes, Floor, VirtAddrFrom, ReapStep, PageOffset;
    ReapMemory(l, k, e, k', f);
    WriteRead(k.phys.mem, f,
        PutBytes(FrameAt(k.phys.mem, f), PageOffset(e.ptr), ExitCodeBytes(k.tasks[Victim(k, e)].exitCode)));
  }

  /** The 32-bit number at an address, as user mode reads it through the table. */
  function ReadWord32(mem: Memory, root: nat, va: nat): nat {
    Four(ReadVirtual(mem, root, va), ReadVirtual(mem, root, va + 1), ReadVirtual(mem, root, va + 2),
         ReadVirtual(mem, root, va + 3))
  }

  /** The `i32` at the address is the code. */
  predicate ReadsCode(mem: Memory, root: nat, va: nat, code: int) {
    var n := ReadWord32(mem, root, va);
    && (n - code) % 0x1_0000_0000 == 0
    && (-0x8000_0000 <= code < 0x8000_0000 ==> code == if n < 0x8000_0000 then n else n - 0x1_0000_0000)
  }

  lemma ReapDeliversByte(l: Layout, k: Kernel, e: Event, k': Kernel, j: nat)
    requires Inv(l, k) && e.Reap? && ReapStep(l, k, e, k') && j < 4
    ensures ReadVirtual(k'.phys.mem, CurrentTask(k).space.table.root, VirtAddrFrom(e.ptr) + j)
            == ExitCodeBytes(k.tasks[Victim(k, e)].exitCode)[j]
  {
    hide LayoutOk, TreeOk, SchedOk, PidsOk, StacksOk, MemoryOk, Balanced, BookOf, Owned, FrameAt, AreasOk, TableOk,
         TrapPageOk, TrapContextOk, FirstStart, StackStart, UserPage, PutBytes, ExitCodeBytes, DataFrames,
         VirtAddrFrom, Without, RemoveAt, Removed, StoreExitCode, PtePpn, Translate, Floor, PageOffset;
    var t, va := CurrentTask(k), VirtAddrFrom(e.ptr);
    var f := Location(k.phys.mem, t.space.table.root, va).0;
    CurrentLive(l, k);
    ReapFrame(l, k, e, k', f);
    NodesOwned(t.space);
    TableFrame(k.phys.mem, k'.phys.mem, t.space.table);
    SameOffset(e.ptr);
    InPage(va, j);
    PutBytesRead(FrameAt(k.phys.mem, f), PageOffset(e.ptr), ExitCodeBytes(k.tasks[Victim(k, e)].exitCode),
        PageOffset(e.ptr) + j);
  }

  /** The parent reads the exit code of its child, as the `i32` at the address it gave. */
  lemma ReapDelivers(l: Layout, k: Kernel, e: Event, k': Kernel)
    requires Inv(l, k) && e.Reap? && ReapStep(l, k, e, k')
    ensures ReadsCode(k'.phys.mem, CurrentTask(k).space.table.root, VirtAddrFrom(e.ptr), k.tasks[Victim(k, e)].exitCode)
  {
    hide Inv, ReapStep, ReadVirtual, ExitCodeBytes, VirtAddrFrom, ReadsCode;
    ReapedExists(l, k, e, k');
    var root, va, code := CurrentTask(k).space.table.root, VirtAddrFrom(e.ptr), k.tasks[Victim(k, e)].exitCode;
    ReapDeliversByte(l, k, e, k', 0);
    ReapDeliversByte(l, k, e, k', 1);
    ReapDeliversByte(l, k, e, k', 2);
    ReapDeliversByte(l, k, e, k', 3);
    assert va + 0 == va;
    CodeOfBytes(k'.phys.mem, root, va, code);
  }

  lemma CodeOfBytes(mem: Memory, root: nat, va: nat, code: int)
    requires var b := ExitCodeBytes(code);
             && ReadVirtual(mem, root, va) == b[0] && ReadVirtual(mem, root, va + 1) == b[1]
             && ReadVirtual(mem, root, va + 2) == b[2] && ReadVirtual(mem, root, va + 3) == b[3]
    ensures ReadsCode(mem, root, va, code)
  {
    hide ReadVirtual, ExitCodeBytes;
  }

  /** Over any run: the code a task exits with is what the task that reaps it finds in its memory. */
  lemma ExitCodeDelivered(l: Layout, states: seq<Kernel>, events: seq<Event>, i: nat, j: nat)
    requires Run(l, states, events) && Inv(l, states[0]) && i < j < |events|
    requires events[i].Exit? && HasCurrent(states[i]) && ReapsTask(states[j], events[j], states[i].current.value)
    ensures HasCurrent(states[j])
    ensures ReadsCode(states[j + 1].phys.mem, CurrentTask(states[j]).space.table.root, VirtAddrFrom(events[j].ptr),
                      events[i].code)
  {
    hide Inv, ExitStep, ReapStep, ReadsCode, VirtAddrFrom;
    var id := states[i].current.value;
    RunKeepsInv(l, states, events, j);
    ExitRecordsCode(states[i], events[i], states[i + 1]);
    ReapedExists(l, states[j], events[j], states[j + 1]);
    ZombieKeepsCode(l, states, events, i + 1, j, id);
    ReapDelivers(l, states[j], events[j], states[j + 1]);
  }

  lemma ReapedExists(l: Layout, k: Kernel, e: Event, k': Kernel)
    requires e.Reap? && ReapStep(l, k, e, k')
    ensures HasCurrent(k) && e.index < |CurrentTask(k).children| && Victim(k, e) in k.tasks
  {
    hide UserPage, Removed, SpaceOk, StoreExitCode, Owned, FirstStart, StackStart, AfterReap;
  }

  lemma InPage(va: nat, j: nat)
    requires PageOffset(va) + j < PAGE_SIZE
    ensures Floor(va + j) == Floor(va) && PageOffset(va + j) == PageOffset(va) + j
  {}

  // ---- the trap context ----

  /** Through the page table of a live task, word `i` of its trap context is word `i` of its own trap
      context page, out of reach of user mode; the page holds the kernel's token, the top of the task's
      own kernel stack and the handler. */
  lemma ContextMapped(l: Layout, k: Kernel, id: nat, i: nat)
    requires Inv(l, k) && id in k.tasks && !k.tasks[id].status.Zombie? && i < 512
    ensures var t, va := k.tasks[id], VirtAddrFrom(TRAP_CONTEXT + 8 * i);
            && Location(k.phys.mem, t.space.table.root, va) == (t.trapCxPpn, 8 * i)
            && Translate(k.phys.mem, t.space.table.root, Floor(va)) == Some(LeafPte(t.trapCxPpn, RW))
    ensures Entry(k.phys.mem, k.tasks[id].trapCxPpn, 34) == Token(k.kspace.table.root)
    ensures Entry(k.phys.mem, k.tasks[id].trapCxPpn, 35) == KernelStackTop(k.tasks[id].pid)
    ensures Entry(k.phys.mem, k.tasks[id].trapCxPpn, 36) == l.trapHandler
  {
    hide Inv, SpaceOk, LeafPte, PtePpn, Translate, Owned, Floor, VirtAddrFrom, PageOffset, Entry, Token,
         KernelStackTop;
    var t := k.tasks[id];
    LiveTrapPage(l, k, id);
    ContextAddress(i);
    FramedPage(k.phys.mem, t.space, l.tramp, |t.space.areas| - 1, TRAP_CONTEXT_VPN);
  }

  lemma LiveTrapPage(l: Layout, k: Kernel, id: nat)
    requires Inv(l, k) && id in k.tasks && !k.tasks[id].status.Zombie?
    ensures SpaceOk(k.phys.mem, k.tasks[id].space, l.tramp) && TrapPageOk(k.tasks[id])
    ensures TrapContextOk(l, k.phys.mem, k.kspace.table.root, k.tasks[id])
  {
    hide LayoutOk, TreeOk, SchedOk, PidsOk, StacksOk, Balanced, BookOf, SpaceOk, TrapPageOk, TrapContextOk;
    assert TaskMemoryOk(l, k.phys.mem, k.kspace.table.root, k.tasks[id]);
  }

  lemma ContextAddress(i: nat)
    requires i < 512
    ensures Floor(VirtAddrFrom(TRAP_CONTEXT + 8 * i)) == TRAP_CONTEXT_VPN
    ensures PageOffset(VirtAddrFrom(TRAP_CONTEXT + 8 * i)) == 8 * i
  {
    assert VirtAddrFrom(TRAP_CONTEXT + 8 * i) == TRAP_CONTEXT_VPN * PAGE_SIZE + 8 * i;
  }

  lemma KernelRootStep(l: Layout, k: Kernel, e: Event, k': Kernel)
    requires Next(l, k, e, k')
    ensures k'.kspace.table.root == k.kspace.table.root
  {
    hide ForkContext, StoreExitCode, RemoveAt, UserPage, Physical, AnyZombie, PidDealloc, StackArea, StackStart,
         KernelStackTop, TrapCxPpn, ContextPage, AfterExit, AfterReap, SetStatus, WithChild, Copied, Loaded, SpaceOk,
         Owned, AreaLoaded, FrameAt, SetEntry, PutByte;
  }

  /** The root of the kernel's page table, and with it the token in every trap context, never
      changes. */
  lemma {:induction false} KernelRootKept(l: Layout, states: seq<Kernel>, events: seq<Event>, i: nat)
    requires Run(l, states, events) && i < |states|
    ensures states[i].kspace.table.root == states[0].kspace.table.root
  {
    hide Next;
    if i > 0 {
      KernelRootKept(l, states, events, i - 1);
      KernelRootStep(l, states[i - 1], events[i - 1], states[i]);
    }
  }
}
