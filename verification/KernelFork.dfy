/** Fork and the resources it takes: frames for the child's space, an identifier and a kernel
    stack (os/src/task/task.rs, os/src/task/pid.rs). */
module KernelFork {
  import opened Address
  import opened PhysicalMemory
  import opened PageTableEntries
  import opened FrameAllocation
  import opened TableModel
  import opened SpaceModel
  import opened MemorySets
  import opened SpaceCopies
  import opened Ledger
  import opened KernelModel
  import opened KernelSteps
  import opened KernelMemory

  // ---- identifiers ----

  /** `PidAllocator::alloc` hands out an identifier that nobody uses. */
  lemma PidAllocFresh(p: Pids, live: set<nat>)
    requires PidSetOk(p, live)
    ensures var (pid, p') := PidAlloc(p);
            pid !in live && pid <= p.current && pid < p'.current && PidSetOk(p', live + {pid})
  {
    var (pid, p') := PidAlloc(p);
    if |p.recycled| > 0 {
      hide Elements;
      assert pid < p.current;
    } else {
      assert Elements(p.recycled) == {};
      assert Pages(0, p.current + 1) == Pages(0, p.current) + {p.current};
    }
  }

  /** Identifiers are recycled last in, first out: the one given back last is the next to be handed out,
      and the allocator is then as before. With none to recycle the next number is taken. */
  lemma PidReturns(p: Pids, pid: nat)
    ensures PidAlloc(PidDealloc(p, pid)) == (pid, p)
    ensures p.recycled == [] ==> PidAlloc(p) == (p.current, Pids(p.current + 1, []))
  {
    var q := PidDealloc(p, pid);
    assert q.recycled[..|q.recycled| - 1] == p.recycled;
  }

  /** The assertions of `PidAllocator::dealloc` hold for an identifier in use. */
  lemma PidDeallocOk(p: Pids, live: set<nat>, pid: nat)
    requires PidSetOk(p, live) && pid in live
    ensures pid < p.current && pid !in p.recycled && PidSetOk(PidDealloc(p, pid), live - {pid})
  {
    assert pid !in Elements(p.recycled);
    assert Elements(p.recycled + [pid]) == Elements(p.recycled) + {pid};
  }

  lemma MemoryBoundsPids(l: Layout, p: nat)
    requires LayoutOk(l) && 2 * p <= l.hi - l.lo
    ensures PidFits(p) && StackStart(p) > l.hi
  {}

  // ---- stacks ----

  lemma StackStartsDiffer(p: nat, q: nat)
    requires PidFits(p) && PidFits(q) && StackStart(p) == StackStart(q)
    ensures p == q
  {}

  ghost predicate FrameOfStack(areas: seq<MapArea>, p: nat, f: nat) {
    exists i, v :: 5 <= i < |areas| && IsStack(areas[i], p) && v in areas[i].frames && areas[i].frames[v] == f
  }

  ghost predicate StacksBelow(areas: seq<MapArea>, n: nat, fs: set<nat>) {
    forall f | f in fs :: exists p :: 0 <= p < n && FrameOfStack(areas, p, f)
  }

  /** The two frames of one stack. */
  lemma StackHasTwoFrames(s: Space, tramp: nat, p: nat) returns (f: nat, g: nat)
    requires AreasOk(s, tramp) && HasStack(s.areas, p)
    ensures f != g && f in DataFrames(s.areas) && g in DataFrames(s.areas)
    ensures FrameOfStack(s.areas, p, f) && FrameOfStack(s.areas, p, g)
  {
    hide AreasOk, DataFrames;
    var i :| 5 <= i < |s.areas| && IsStack(s.areas[i], p);
    FramedPages(s, tramp, i);
    var v := StackStart(p);
    assert Covers(s.areas[i], v) && Covers(s.areas[i], v + 1);
    f, g := s.areas[i].frames[v], s.areas[i].frames[v + 1];
  }

  /** Frames of stacks of different processes differ. */
  lemma StackFramesDiffer(areas: seq<MapArea>, p: nat, q: nat, f: nat)
    requires InjectiveFrames(areas) && PidFits(p) && PidFits(q) && p != q
    requires FrameOfStack(areas, p, f)
    ensures !FrameOfStack(areas, q, f)
  {
    if FrameOfStack(areas, q, f) {
      var i, v :| 5 <= i < |areas| && IsStack(areas[i], p) && v in areas[i].frames && areas[i].frames[v] == f;
      var j, w :| 5 <= j < |areas| && IsStack(areas[j], q) && w in areas[j].frames && areas[j].frames[w] == f;
      assert i == j;
      StackStartsDiffer(p, q);
    }
  }

  /** If the first `n` identifiers are in use, their stacks hold `2 * n` different frames. */
  lemma {:induction false} StackFrames(s: Space, tramp: nat, n: nat) returns (fs: set<nat>)
    requires AreasOk(s, tramp) && (forall p | 0 <= p < n :: HasStack(s.areas, p) && PidFits(p))
    ensures fs <= DataFrames(s.areas) && |fs| == 2 * n && StacksBelow(s.areas, n, fs)
  {
    hide AreasOk, DataFrames, HasStack, FrameOfStack, PidFits;
    if n == 0 {
      fs := {};
    } else {
      var fs0 := StackFrames(s, tramp, n - 1);
      var f, g := StackHasTwoFrames(s, tramp, n - 1);
      AreasParts(s, tramp);
      forall x | x in fs0 ensures x != f && x != g {
        var p :| 0 <= p < n - 1 && FrameOfStack(s.areas, p, x);
        StackFramesDiffer(s.areas, p, n - 1, x);
      }
      fs := fs0 + {f, g};
    }
  }

  lemma {:induction false} SubsetSize(a: set<nat>, b: set<nat>)
    requires a <= b
    ensures |a| <= |b|
  {
    if a != {} {
      var x :| x in a;
      SubsetSize(a - {x}, b - {x});
    }
  }

  /** Live stacks bound the identifiers by half the frames of the pool. */
  lemma StacksBoundPids(l: Layout, s: Space, tramp: nat, n: nat)
    requires LayoutOk(l) && AreasOk(s, tramp) && Owned(s) <= Pool(l)
    requires forall p | 0 <= p < n :: HasStack(s.areas, p) && PidFits(p)
    ensures 2 * n <= l.hi - l.lo
  {
    hide AreasOk, DataFrames, HasStack, PidFits;
    var fs := StackFrames(s, tramp, n);
    PagesCount(l.lo, l.hi);
    SubsetSize(fs, Pool(l));
  }

  /** A stack more: the list of stacks stays exact. */
  lemma StackListGrows(l: Layout, areas: seq<MapArea>, live: set<nat>, a: MapArea, pid: nat)
    requires StackList(l, areas, live) && IsStack(a, pid)
    ensures StackList(l, areas + [a], live + {pid})
  {
    hide IsStack;
    var areas' := areas + [a];
    assert areas'[..5] == areas[..5];
    forall i | 5 <= i < |areas'| ensures StackOfOne(areas'[i], live + {pid}) {
      if i < |areas| {
        assert StackOfOne(areas[i], live);
      }
    }
    forall p | p in live + {pid} ensures HasStack(areas', p) {
      if p == pid {
        assert IsStack(areas'[|areas|], pid);
      } else {
        assert HasStack(areas, p);
        var i :| 5 <= i < |areas| && IsStack(areas[i], p);
        assert IsStack(areas'[i], p);
      }
    }
  }

  /** The stack of an unused identifier has no page in kernel space. */
  lemma StackApart(l: Layout, areas: seq<MapArea>, live: set<nat>, pid: nat)
    requires LayoutOk(l) && StackList(l, areas, live) && pid !in live && 2 * pid <= l.hi - l.lo
    requires forall p | p in live :: 2 * p <= l.hi - l.lo
    ensures Apart(areas, StackArea(pid)) && PidFits(pid)
  {
    hide LayoutOk, StackStart, PidFits, StackOfOne, HasStack;
    MemoryBoundsPids(l, pid);
    forall v: nat | Covers(StackArea(pid), v) ensures !InSomeArea(areas, v) {
      forall i | 0 <= i < |areas| ensures !Covers(areas[i], v) {
        if i < 5 {
          assert areas[i] == areas[..5][i] == l.sections[i];
          SectionBelow(l, i);
        } else {
          assert StackOfOne(areas[i], live);
          OtherStack(l, areas[i], live, pid, v);
        }
      }
    }
  }

  lemma SectionBelow(l: Layout, i: nat)
    requires LayoutOk(l) && i < 5
    ensures l.sections[i].end <= l.hi
  {}

  lemma OtherStack(l: Layout, a: MapArea, live: set<nat>, pid: nat, v: nat)
    requires LayoutOk(l) && StackOfOne(a, live) && pid !in live && PidFits(pid) && Covers(StackArea(pid), v)
    requires forall p | p in live :: 2 * p <= l.hi - l.lo
    ensures !Covers(a, v)
  {
    hide LayoutOk, StackStart, PidFits;
    var p :| p in live && IsStack(a, p);
    MemoryBoundsPids(l, p);
    StacksApart(pid, p, v);
  }

  // ---- the step ----

  function ForkPid(k: Kernel): nat { PidAlloc(k.pids).0 }

  function ForkCx(e: Event): nat
    requires e.Fork?
  {
    TrapCxPpn(e.child)
  }

  function ForkChildTask(k: Kernel, e: Event): Task
    requires e.Fork?
  {
    Task(ForkPid(k), Ready, e.child, ForkCx(e), k.current, [], 0)
  }

  /** What the child and the kernel space take, and the memory they write. */
  ghost predicate ForkSets(l: Layout, k: Kernel, e: Event)
    requires e.Fork?
  {
    var taken := Owned(e.kspace) - Owned(k.kspace);
    && Owned(e.child) <= k.phys.free
    && taken <= k.phys.free && taken !! Owned(e.child)
    && e.stacked.free == k.phys.free - Owned(e.child) - taken
    && Owned(e.kspace) == Owned(k.kspace) + taken
    && e.kspace.table.roles.Keys <= Owned(k.kspace) + taken && e.kspace.table.root == k.kspace.table.root
    && SameOff(k.phys.mem, e.copied.mem, Owned(e.child))
    && SameOff(e.copied.mem, e.stacked.mem, Owned(k.kspace) + taken)
  }

  lemma ForkTakes(l: Layout, k: Kernel, e: Event, k': Kernel)
    requires e.Fork? && ForkStep(l, k, e, k')
    ensures ForkSets(l, k, e) && SpaceOk(e.copied.mem, e.child, l.tramp) && SpaceOk(e.stacked.mem, e.kspace, l.tramp)
  {
    hide TableOk, AreasOk, FrameAt, DataFrames, PageCopied, AreaLoaded, StackArea, ForkContext, TrapCxPpn, SameShape,
         KernelStackTop;
    var taken := Owned(e.kspace) - Owned(k.kspace);
    assert Owned(e.kspace) == Owned(k.kspace) + taken;
  }

  /** The child's trap context page: a copy of the parent's. */
  lemma ForkTrapPage(l: Layout, k: Kernel, e: Event, k': Kernel)
    requires e.Fork? && ForkStep(l, k, e, k') && MemoryOk(l, k) && SchedOk(k)
    ensures TrapPageOk(ForkChildTask(k, e)) && SpaceOk(e.copied.mem, e.child, l.tramp)
    ensures ForkCx(e) in Owned(e.child) && ForkCx(e) !in e.child.table.roles
    ensures FrameAt(e.copied.mem, ForkCx(e)) == FrameAt(k.phys.mem, CurrentTask(k).trapCxPpn)
  {
    CurrentLive(l, k);
    hide MemoryOk, SchedOk, TableOk, AreasOk, FrameAt, DataFrames, Pushed, StackArea, ForkContext, KernelStackTop,
         PtePpn, LeafPte, EntryOf, TaskMemoryOk;
    var t, s := CurrentTask(k), e.child;
    var n := |s.areas| - 1;
    assert SameShape(t.space.areas[n], s.areas[n]);
    assert Covers(s.areas[n], TRAP_CONTEXT_VPN);
    ShapesCopied(t.space.areas, s.areas);
    TrapCxFound(e.copied.mem, s, l.tramp);
    assert PageCopied(k.phys.mem, e.copied.mem, t.space.areas[n], s.areas[n], TRAP_CONTEXT_VPN);
  }

  lemma ShapesCopied(areas: seq<MapArea>, areas': seq<MapArea>)
    requires UserShape(areas) && |areas'| == |areas|
    requires forall i | 0 <= i < |areas'| :: SameShape(areas[i], areas'[i])
    ensures UserShape(areas')
  {
    forall i | 0 <= i < |areas'| ensures areas'[i].kind == areas[i].kind && areas'[i].perm == areas[i].perm {
      assert SameShape(areas[i], areas'[i]);
    }
  }

  /** The trap context frame of a user space is what `translate` finds at the trap context page. */
  lemma TrapCxFound(mem: Memory, s: Space, tramp: nat)
    requires SpaceOk(mem, s, tramp) && UserShape(s.areas)
    ensures Floor(VirtAddrFrom(TRAP_CONTEXT)) == TRAP_CONTEXT_VPN
    ensures var pte := Translate(mem, s.table.root, TRAP_CONTEXT_VPN); pte.Some? && PtePpn(pte.value) == TrapCxPpn(s)
    ensures TrapCxPpn(s) in Owned(s) && TrapCxPpn(s) !in s.table.roles
    ensures TRAP_CONTEXT_VPN in s.areas[|s.areas| - 1].frames
  {
    assert Floor(VirtAddrFrom(TRAP_CONTEXT)) == TRAP_CONTEXT_VPN;
    hide SpaceOk, Translate, PtePpn, LeafPte, Floor, VirtAddrFrom, Owned;
    FramedPage(mem, s, tramp, |s.areas| - 1, TRAP_CONTEXT_VPN);
  }

  lemma ForkContextWords(mem: Memory, cx: nat, ksp: nat)
    requires ksp < TWO_64
    ensures var mem' := ForkContext(mem, cx, ksp);
            && (forall i: nat | i < 512 ::
                  Entry(mem', cx, i) == if i == 10 then 0 else if i == 35 then ksp else Entry(mem, cx, i))
            && SameOff(mem, mem', {cx})
  {
    SetEntryRead(mem, cx, 35, ksp);
    SetEntryRead(SetEntry(mem, cx, 35, ksp), cx, 10, 0);
    hide Entry, SetEntry, FrameAt;
  }

  /** The memory of the child. */
  lemma ForkChildMemory(l: Layout, k: Kernel, e: Event, k': Kernel)
    requires e.Fork? && ForkStep(l, k, e, k') && MemoryOk(l, k) && SchedOk(k) && Balanced(BookOf(k), Pool(l))
    ensures TaskMemoryOk(l, k'.phys.mem, k'.kspace.table.root, ForkChildTask(k, e))
  {
    hide MemoryOk, SchedOk, Balanced, BookOf, TableOk, AreasOk, FrameAt, DataFrames, Owned, TaskMemoryOk, TrapPageOk,
         Copied, Pushed, ForkContext, KernelStackTop, TrapCxPpn, StackArea, Word;
    CurrentLive(l, k);
    ForkTakes(l, k, e, k');
    ForkTrapPage(l, k, e, k');
    BookFacts(l, k);
    var cx, t, s := ForkCx(e), CurrentTask(k), e.child;
    var ksp := KernelStackTop(ForkPid(k));
    ForkContextWords(e.stacked.mem, cx, ksp);
    assert SameOn(e.copied.mem, e.stacked.mem, Owned(s)) by {
      assert Owned(s) !! Owned(k.kspace);
    }
    NodesOwned(s);
    TableFrame(e.copied.mem, e.stacked.mem, s.table);
    TableFrame(e.stacked.mem, k'.phys.mem, s.table);
    ChildContext(l, k.phys.mem, k.kspace.table.root, t, k'.phys.mem, ForkChildTask(k, e), e.stacked.mem);
  }

  lemma ChildContext(l: Layout, mem: Memory, kroot: nat, t: Task, mem': Memory, t': Task, stacked: Memory)
    requires TaskMemoryOk(l, mem, kroot, t) && !t.status.Zombie?
    requires FrameAt(stacked, t'.trapCxPpn) == FrameAt(mem, t.trapCxPpn)
    requires mem' == ForkContext(stacked, t'.trapCxPpn, KernelStackTop(t'.pid))
    requires SpaceOk(mem', t'.space, l.tramp) && TrapPageOk(t') && !t'.status.Zombie?
    ensures TaskMemoryOk(l, mem', kroot, t')
  {
    hide SpaceOk, TrapPageOk, ForkContext, KernelStackTop, FrameAt, Word;
    ForkContextWords(stacked, t'.trapCxPpn, KernelStackTop(t'.pid));
  }

  lemma ForkOthers(l: Layout, k: Kernel, e: Event, k': Kernel, o: set<nat>)
    requires e.Fork? && ForkStep(l, k, e, k') && ForkSets(l, k, e) && ForkCx(e) in Owned(e.child)
    requires o !! k.phys.free && o !! Owned(k.kspace)
    ensures SameOn(k.phys.mem, k'.phys.mem, o)
  {
    hide Owned, FrameAt, Copied, Pushed, ForkContext, KernelStackTop, TrapCxPpn, StackArea;
    ForkContextWords(e.stacked.mem, ForkCx(e), KernelStackTop(ForkPid(k)));
    hide Entry;
  }

  lemma ForkKeepsMemory(l: Layout, k: Kernel, e: Event, k': Kernel)
    requires e.Fork? && ForkStep(l, k, e, k') && MemoryOk(l, k) && SchedOk(k) && Balanced(BookOf(k), Pool(l))
    requires NamesOk(k)
    ensures MemoryOk(l, k')
  {
    hide SchedOk, Balanced, BookOf, TableOk, AreasOk, FrameAt, DataFrames, Owned, TaskMemoryOk, TrapPageOk, Copied,
         Pushed, ForkContext, KernelStackTop, TrapCxPpn, StackArea, Word;
    ForkTakes(l, k, e, k');
    ForkTrapPage(l, k, e, k');
    ForkChildMemory(l, k, e, k');
    BookFacts(l, k);
    ForkContextWords(e.stacked.mem, ForkCx(e), KernelStackTop(ForkPid(k)));
    assert SpaceOk(k'.phys.mem, k'.kspace, l.tramp) by {
      assert ForkCx(e) !in e.kspace.table.roles.Keys;
      TableFrame(e.stacked.mem, k'.phys.mem, e.kspace.table);
    }
    forall id | id in k'.tasks ensures TaskMemoryOk(l, k'.phys.mem, k'.kspace.table.root, k'.tasks[id]) {
      if id in k.tasks {
        ForkOthers(l, k, e, k', Owned(k.tasks[id].space));
        TaskFrame(l, k.phys.mem, k'.phys.mem, k.kspace.table.root, k.tasks[id]);
        SameTaskMemory(l, k'.phys.mem, k.kspace.table.root, k.tasks[id], k'.tasks[id]);
      }
    }
  }

  lemma ForkBooks(l: Layout, k: Kernel, e: Event, k': Kernel)
    requires e.Fork? && ForkStep(l, k, e, k') && ForkSets(l, k, e) && Balanced(BookOf(k), Pool(l)) && NamesOk(k)
    ensures Balanced(BookOf(k'), Pool(l))
  {
    hide Balanced, Owned, Copied, Pushed, ForkContext, KernelStackTop, TrapCxPpn, StackArea;
    var taken := Owned(e.kspace) - Owned(k.kspace);
    var b := BookOf(k);
    TakeBalanced(b, Pool(l), TaskSpace(k.nextId), Owned(e.child));
    TakeBalanced(Take(b, TaskSpace(k.nextId), Owned(e.child)), Pool(l), KernelSpace, taken);
    var b' := Take(Take(b, TaskSpace(k.nextId), Owned(e.child)), KernelSpace, taken);
    assert k.nextId !in k.tasks;
    assert Owners(k') == Owners(k) + {TaskSpace(k.nextId)};
    assert TaskSpace(k.nextId) !in b.own && b.own[KernelSpace] == Owned(k.kspace);
    forall o | o in BookOf(k').own ensures o in b'.own && BookOf(k').own[o] == b'.own[o] {
      match o
      case KernelSpace =>
      case TaskSpace(id) =>
        assert id in k'.tasks;
    }
    assert BookOf(k') == b';
  }

  lemma ForkLivePids(k: Kernel, child: Task)
    requires HasCurrent(k) && k.nextId !in k.tasks
    ensures LivePids(WithChild(k, child)) == LivePids(k.tasks) + {child.pid}
    ensures PidsDistinct(k.tasks) && child.pid !in LivePids(k.tasks) ==> PidsDistinct(WithChild(k, child))
  {
    var tasks' := WithChild(k, child);
    forall p | p in LivePids(k.tasks) + {child.pid} ensures p in LivePids(tasks') {
      if p == child.pid {
        assert tasks'[k.nextId].pid == p;
      } else {
        var id :| id in k.tasks && k.tasks[id].pid == p;
        assert tasks'[id].pid == p;
      }
    }
    assert forall id | id in k.tasks :: k.tasks[id].pid in LivePids(k.tasks);
  }

  lemma ForkKeepsStacks(l: Layout, k: Kernel, e: Event, k': Kernel)
    requires e.Fork? && ForkStep(l, k, e, k') && StacksOk(l, k) && NamesOk(k)
    ensures StacksOk(l, k')
  {
    hide StackList, Copied, ForkContext, KernelStackTop, TrapCxPpn, SpaceOk, SpaceGrown, AreaLoaded, Owned, LivePids,
         StackArea;
    assert k.nextId !in k.tasks;
    ForkLivePids(k, ForkChildTask(k, e));
    var n := |k.kspace.areas|;
    var a := e.kspace.areas[n];
    assert e.kspace.areas == k.kspace.areas + [a] by {
      assert e.kspace.areas[..n] == k.kspace.areas;
    }
    StackListGrows(l, k.kspace.areas, LivePids(k.tasks), a, ForkPid(k));
  }

  /** The identifiers stay below half the number of frames: a fresh one is handed out only when
      all below it are in use, and each of those has a stack of two frames. */
  lemma ForkKeepsPids(l: Layout, k: Kernel, e: Event, k': Kernel)
    requires LayoutOk(l) && e.Fork? && ForkStep(l, k, e, k') && PidsOk(l, k) && NamesOk(k)
    requires StacksOk(l, k') && AreasOk(k'.kspace, l.tramp) && Owned(k'.kspace) <= Pool(l)
    ensures PidsOk(l, k')
  {
    hide Copied, Pushed, ForkContext, KernelStackTop, TrapCxPpn, AreasOk, Owned, LivePids, PidSetOk, StackArea,
         LayoutOk, Pool;
    assert k.nextId !in k.tasks;
    PidAllocFresh(k.pids, LivePids(k.tasks));
    ForkLivePids(k, ForkChildTask(k, e));
    if |k.pids.recycled| == 0 {
      AllPidsLive(l, k');
      StacksBoundPids(l, k'.kspace, l.tramp, k'.pids.current);
    }
  }

  lemma AllPidsLive(l: Layout, k': Kernel)
    requires LayoutOk(l) && PidSetOk(k'.pids, LivePids(k'.tasks)) && k'.pids.recycled == [] && StacksOk(l, k')
    requires 2 * (k'.pids.current - 1) <= l.hi - l.lo
    ensures forall p | 0 <= p < k'.pids.current :: HasStack(k'.kspace.areas, p) && PidFits(p)
  {
    hide HasStack, LayoutOk;
    forall p | 0 <= p < k'.pids.current ensures HasStack(k'.kspace.areas, p) && PidFits(p) {
      assert p in LivePids(k'.tasks);
      MemoryBoundsPids(l, p);
    }
  }

  /** Fork keeps the books balanced, the spaces sound and identifiers and stacks exact. */
  lemma ForkKeepsResources(l: Layout, k: Kernel, e: Event, k': Kernel)
    requires LayoutOk(l) && ResourcesOk(l, k) && SchedOk(k) && NamesOk(k) && e.Fork? && ForkStep(l, k, e, k')
    ensures ResourcesOk(l, k')
  {
    hide LayoutOk, PidsOk, StacksOk, Balanced, BookOf, TaskMemoryOk, TableOk, AreasOk, Owned, ForkStep, ForkSets,
         SchedOk, NamesOk;
    ForkTakes(l, k, e, k');
    ForkKeepsMemory(l, k, e, k');
    ForkBooks(l, k, e, k');
    ForkKeepsStacks(l, k, e, k');
    BookFacts(l, k');
    ForkKeepsPids(l, k, e, k');
  }
}
