/** Exec: a task gets the address space of another program (os/src/task/task.rs). */
module KernelExec {
  import opened Address
  import opened PhysicalMemory
  import opened PageTableEntries
  import opened FrameAllocation
  import opened TableModel
  import opened SpaceModel
  import opened MemorySets
  import opened SpaceCopies
  import opened ElfLoading
  import opened UserBuffers
  import opened Ledger
  import opened KernelModel
  import opened KernelSteps
  import opened KernelMemory
  import opened KernelFork

  /** The areas of a loaded program have the shape of a user space. */
  lemma PlanShape(segs: seq<Segment>, areas: seq<MapArea>)
    requires Loadable(segs) && |areas| == |Plan(segs)|
    requires forall i | 0 <= i < |areas| :: SameShape(Plan(segs)[i].area, areas[i])
    ensures UserShape(areas)
  {
    StackPages(segs);
    hide SegmentStart, SegmentEnd, StackPlan, TrapPlan, Loadable;
    forall i | 0 <= i < |areas| ensures areas[i].kind.Framed? && (i < |areas| - 1 ==> areas[i].perm.u) {
      assert SameShape(Plan(segs)[i].area, areas[i]);
    }
    var n := |areas| - 1;
    assert SameShape(Plan(segs)[n].area, areas[n]);
  }

  /** The trap context page of a freshly loaded program. */
  lemma LoadedTrapPage(l: Layout, ph: Phys, ph': Phys, s: Space, segs: seq<Segment>, t: Task)
    requires Loadable(segs) && Loaded(ph, ph', s, Plan(segs), l.tramp)
    requires t.space == s && t.trapCxPpn == TrapCxPpn(s)
    ensures TrapPageOk(t) && t.trapCxPpn in Owned(s) && t.trapCxPpn !in s.table.roles
  {
    hide TableOk, AreasOk, AreaLoaded, PtePpn, LeafPte, EntryOf, FrameAt, Plan, Loadable, Owned;
    PlanShape(segs, s.areas);
    TrapCxFound(ph'.mem, s, l.tramp);
  }

  /** The words of the kernel in a fresh trap context. */
  lemma ContextPageWords(f: Frame, entry: nat, sp: nat, sstatus: nat, kroot: nat, ksp: nat, handler: nat)
    requires entry < TWO_64 && sp < TWO_64 && sstatus < TWO_64 && kroot < TWO_44 && ksp < TWO_64 && handler < TWO_64
    ensures var g := ContextPage(f, entry, sp, sstatus, kroot, ksp, handler);
            && Word(g, 2) == sp && Word(g, 32) == UserStatus(sstatus) && Word(g, 33) == entry
            && Word(g, 34) == Token(kroot) && Word(g, 35) == ksp && Word(g, 36) == handler
            && forall i: nat | i < 32 && i != 2 :: Word(g, i) == 0
  {
    hide Word, StoreWords, Token;
    var ws := InitialContext(entry, sp, UserStatus(sstatus), Token(kroot), ksp, handler);
    assert |ws| == 37 && forall k | 0 <= k < |ws| :: ws[k] < TWO_64 by { TokenInRange(kroot); }
    forall i: nat | i < 37 ensures Word(ContextPage(f, entry, sp, sstatus, kroot, ksp, handler), i) == ws[i] {
      StoreWordsRead(f, 0, ws, i);
    }
  }

  lemma TokenInRange(kroot: nat)
    requires kroot < TWO_44
    ensures Token(kroot) < TWO_64
  {}

  /** A program that has just been given its trap context. */
  lemma FreshTaskMemory(l: Layout, ph: Phys, ph': Phys, s: Space, segs: seq<Segment>, t: Task, kroot: nat,
                        entry: nat, sstatus: nat)
    requires Loadable(segs) && Loaded(ph, ph', s, Plan(segs), l.tramp) && kroot < TWO_44 && l.trapHandler < TWO_64
    requires entry < TWO_64 && sstatus < TWO_64 && StackTop(segs) < TWO_64
    requires t.space == s && t.trapCxPpn == TrapCxPpn(s) && !t.status.Zombie?
    ensures var page :=
              ContextPage(FrameAt(ph'.mem, t.trapCxPpn), entry, StackTop(segs), sstatus, kroot,
                  KernelStackTop(t.pid), l.trapHandler);
            TaskMemoryOk(l, ph'.mem[t.trapCxPpn := page], kroot, t)
  {
    hide TableOk, AreasOk, AreaLoaded, TrapCxPpn, Plan, Loadable, Owned, Token, KernelStackTop, StackTop, ContextPage,
         TrapPageOk, Word, FrameAt;
    LoadedTrapPage(l, ph, ph', s, segs, t);
    var f := FrameAt(ph'.mem, t.trapCxPpn);
    var page := ContextPage(f, entry, StackTop(segs), sstatus, kroot, KernelStackTop(t.pid), l.trapHandler);
    ContextPageWords(f, entry, StackTop(segs), sstatus, kroot, KernelStackTop(t.pid), l.trapHandler);
    WriteElsewhere(ph'.mem, s.table, t.trapCxPpn, page);
    WriteRead(ph'.mem, t.trapCxPpn, page);
  }

  function ExecTask(k: Kernel, e: Event): Task
    requires e.Exec? && HasCurrent(k)
  {
    CurrentTask(k).(space := e.space, trapCxPpn := TrapCxPpn(e.space))
  }

  lemma ExecOthers(l: Layout, k: Kernel, e: Event, k': Kernel, o: set<nat>)
    requires e.Exec? && ExecStep(l, k, e, k') && o !! k.phys.free
    ensures SameOn(k.phys.mem, k'.phys.mem, o)
  {
    hide SpaceOk, AreaLoaded, TrapCxPpn, Plan, Loadable, Owned, Token, KernelStackTop, StackTop, ContextPage, FrameAt;
    LoadedTrapPage(l, k.phys, e.loaded, e.space, e.segs, ExecTask(k, e));
    WriteRead(e.loaded.mem, TrapCxPpn(e.space), k'.phys.mem[TrapCxPpn(e.space)]);
    forall p | p in o ensures FrameAt(k.phys.mem, p) == FrameAt(k'.phys.mem, p) {
      assert FrameAt(k.phys.mem, p) == FrameAt(e.loaded.mem, p);
    }
  }

  lemma ExecKeepsMemory(l: Layout, k: Kernel, e: Event, k': Kernel)
    requires e.Exec? && ExecStep(l, k, e, k') && MemoryOk(l, k) && SchedOk(k) && Balanced(BookOf(k), Pool(l))
    ensures MemoryOk(l, k')
  {
    hide SchedOk, Balanced, BookOf, AreasOk, TableOk, TaskMemoryOk, Loaded, TrapCxPpn, Plan, Loadable, Owned, Token,
         KernelStackTop, StackTop, ContextPage, FrameAt, TrapPageOk;
    CurrentLive(l, k);
    BookFacts(l, k);
    FreshTaskMemory(l, k.phys, e.loaded, e.space, e.segs, ExecTask(k, e), k.kspace.table.root, e.entry, e.sstatus);
    ExecOthers(l, k, e, k', Owned(k.kspace));
    NodesOwned(k.kspace);
    TableFrame(k.phys.mem, k'.phys.mem, k.kspace.table);
    forall id | id in k'.tasks ensures TaskMemoryOk(l, k'.phys.mem, k'.kspace.table.root, k'.tasks[id]) {
      if id != k.current.value {
        ExecOthers(l, k, e, k', Owned(k.tasks[id].space));
        TaskFrame(l, k.phys.mem, k'.phys.mem, k.kspace.table.root, k.tasks[id]);
      }
    }
  }

  lemma ExecBooks(l: Layout, k: Kernel, e: Event, k': Kernel)
    requires e.Exec? && ExecStep(l, k, e, k') && Balanced(BookOf(k), Pool(l))
    ensures Balanced(BookOf(k'), Pool(l))
  {
    hide Balanced, Owned, SpaceOk, AreaLoaded, TrapCxPpn, Plan, Loadable, Token, KernelStackTop, StackTop,
         ContextPage, FrameAt;
    BookFacts(l, k);
    var c := k.current.value;
    var b, o := BookOf(k), TaskSpace(c);
    var was, now := Owned(k.tasks[c].space), Owned(e.space);
    assert o in Owners(k) && b.own[o] == was;
    TakeBalanced(b, Pool(l), o, now);
    GiveBalanced(Take(b, o, now), Pool(l), o, was);
    var b' := Give(Take(b, o, now), o, was);
    assert Owners(k') == Owners(k);
    assert was !! now;
    assert BookOf(k').own == b'.own;
  }

  /** Exec replaces the space of the task; the frames of the old one are free again. */
  lemma ExecKeepsResources(l: Layout, k: Kernel, e: Event, k': Kernel)
    requires ResourcesOk(l, k) && SchedOk(k) && e.Exec? && ExecStep(l, k, e, k')
    ensures ResourcesOk(l, k')
  {
    hide PidsOk, StacksOk, MemoryOk, Balanced, BookOf, SchedOk, Loaded, TrapCxPpn, Plan, Loadable, Owned, Token,
         KernelStackTop, StackTop, ContextPage, FrameAt;
    ExecKeepsMemory(l, k, e, k');
    ExecBooks(l, k, e, k');
    SameKeepsPids(l, k, k');
  }
}
