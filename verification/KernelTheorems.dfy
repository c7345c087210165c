/** What the invariant promises about processes and their memory, in every state of every run. */
module KernelTheorems {
  import opened KernelProcesses
  import opened PhysicalMemory
  import opened PageTableEntries
  import opened FrameAllocation
  import opened TableModel
  import opened HardwareWalk
  import opened SpaceModel
  import opened MemorySets
  import opened SpaceCopies
  import opened UserBuffers
  import opened Ledger
  import opened KernelModel
  import opened KernelSteps
  import opened KernelMemory
  import opened KernelFork

  // ---- frames ----

  /** The one thing a frame of the pool is used for. */
  datatype Use = Free | Node(o: Owner) | Data(o: Owner, area: nat, page: nat)

  ghost function SpaceOf(k: Kernel, o: Owner): Space
    requires o.TaskSpace? ==> o.id in k.tasks
  {
    match o case KernelSpace => k.kspace case TaskSpace(id) => k.tasks[id].space
  }

  ghost predicate UsedFor(k: Kernel, p: nat, u: Use) {
    match u
    case Free => p in k.phys.free
    case Node(o) => (o.TaskSpace? ==> o.id in k.tasks) && p in SpaceOf(k, o).table.roles
    case Data(o, i, v) =>
      && (o.TaskSpace? ==> o.id in k.tasks)
      && var areas := SpaceOf(k, o).areas; i < |areas| && v in areas[i].frames && areas[i].frames[v] == p
  }

  ghost function HolderOf(u: Use): Option<Owner> {
    match u case Free => None case Node(o) => Some(o) case Data(o, _, _) => Some(o)
  }

  lemma UseImpliesHeld(k: Kernel, p: nat, u: Use)
    requires UsedFor(k, p, u) && !u.Free?
    ensures HolderOf(u).value in Owners(k) && p in OwnedBy(k, HolderOf(u).value)
    ensures u.Data? ==> p in DataFrames(SpaceOf(k, u.o).areas)
  {
    hide DataFrames;
    if u.Data? {
      InData(SpaceOf(k, u.o).areas, u.area, u.page);
    }
  }

  lemma SpaceOfSeparate(l: Layout, k: Kernel, o: Owner)
    requires MemoryOk(l, k) && o in Owners(k)
    ensures var s := SpaceOf(k, o); DataFrames(s.areas) !! s.table.roles.Keys && InjectiveFrames(s.areas)
  {
    assert o.TaskSpace? ==> TaskMemoryOk(l, k.phys.mem, k.kspace.table.root, k.tasks[o.id]);
  }

  /** No frame is used for two things: two table nodes, two pages, or a node and a page, of the
      same or of different address spaces. */
  lemma OneUse(l: Layout, k: Kernel, p: nat, u: Use, w: Use)
    requires Inv(l, k) && UsedFor(k, p, u) && UsedFor(k, p, w)
    ensures u == w
  {
    hide TreeOk, SchedOk, LayoutOk, PidsOk, StacksOk, MemoryOk, Owned, DataFrames;
    if !u.Free? {
      UseImpliesHeld(k, p, u);
    }
    if !w.Free? {
      UseImpliesHeld(k, p, w);
    }
    var b := BookOf(k);
    assert !u.Free? ==> HolderOf(u).value in b.own && p in b.own[HolderOf(u).value];
    assert !w.Free? ==> HolderOf(w).value in b.own && p in b.own[HolderOf(w).value];
    assert u.Free? == w.Free?;
    if !u.Free? {
      assert HolderOf(u) == HolderOf(w);
      SpaceOfSeparate(l, k, HolderOf(u).value);
    }
  }

  /** No frame leaks: every frame of the pool is used for something. */
  lemma SomeUse(l: Layout, k: Kernel, p: nat) returns (u: Use)
    requires Inv(l, k) && p in Pool(l)
    ensures UsedFor(k, p, u)
  {
    hide TreeOk, SchedOk, LayoutOk, PidsOk, StacksOk, MemoryOk, DataFrames, Pool;
    if p in k.phys.free {
      return Free;
    }
    var b := BookOf(k);
    var o :| o in b.own && p in b.own[o];
    assert o in Owners(k) && p in OwnedBy(k, o);
    var s := SpaceOf(k, o);
    if p in s.table.roles {
      return Node(o);
    }
    var i, v := FromData(s.areas, p);
    return Data(o, i, v);
  }

  // ---- isolation ----

  /** A store in user mode changes one data frame of the running process: not a table node, not
      its trap context, nothing of the kernel and nothing of another process. */
  lemma UserStoreIsolated(l: Layout, k: Kernel, e: Event, k': Kernel) returns (f: nat)
    requires Inv(l, k) && e.UserStore? && UserStoreStep(k, e, k')
    ensures f in DataFrames(CurrentTask(k).space.areas) && f != CurrentTask(k).trapCxPpn
    ensures SameOff(k.phys.mem, k'.phys.mem, {f})
    ensures f !in CurrentTask(k).space.table.roles && f !in Owned(k.kspace) && f != l.tramp && f !in k.phys.free
    ensures forall id | id in k.tasks && id != k.current.value :: f !in Owned(k.tasks[id].space)
  {
    hide Inv, Pool, TableOk, SpaceOk, Owned, DataFrames, Physical, FrameAt, PutByte, Token, TaskMemoryOk;
    var t, pa := CurrentTask(k), Physical(k.phys.mem, CurrentSatp(k), e.va, Store, User).value;
    CurrentHoldings(l, k);
    UserReaches(l, k.phys.mem, k.kspace.table.root, t, e.va, Store);
    f := pa / 0x1000;
    NodesOwned(t.space);
    WriteRead(k.phys.mem, f, PutByte(FrameAt(k.phys.mem, f), pa % 0x1000, e.value));
  }

  /** The running task, and who else holds frames of the pool. */
  lemma CurrentHoldings(l: Layout, k: Kernel)
    requires Inv(l, k) && HasCurrent(k)
    ensures LayoutOk(l) && TaskMemoryOk(l, k.phys.mem, k.kspace.table.root, CurrentTask(k))
    ensures !CurrentTask(k).status.Zombie?
    ensures TableOk(k.phys.mem, CurrentTask(k).space.table)
    ensures l.tramp !in Owned(CurrentTask(k).space) && Owned(CurrentTask(k).space) !! k.phys.free
    ensures Owned(CurrentTask(k).space) !! Owned(k.kspace)
    ensures forall id | id in k.tasks && id != k.current.value ::
              Owned(k.tasks[id].space) !! Owned(CurrentTask(k).space)
  {
    hide TreeOk, SchedOk, PidsOk, StacksOk, MemoryOk, Balanced, BookOf, TableOk, AreasOk, Owned, TaskMemoryOk,
         TrapPageOk;
    CurrentLive(l, k);
    BookFacts(l, k);
  }

  /** The table that a return to user mode installs is that of the running task: it agrees with
      the task's areas, and no zombie's table shares a node with it. */
  lemma InstalledTable(l: Layout, k: Kernel, z: nat)
    requires Inv(l, k) && HasCurrent(k) && z in k.tasks && k.tasks[z].status.Zombie?
    ensures !CurrentTask(k).status.Zombie? && SpaceOk(k.phys.mem, CurrentTask(k).space, l.tramp)
    ensures k.tasks[z].space.table.roles.Keys !! CurrentTask(k).space.table.roles.Keys
    ensures k.tasks[z].space.table.root != CurrentTask(k).space.table.root
  {
    CurrentLive(l, k);
    assert TaskMemoryOk(l, k.phys.mem, k.kspace.table.root, k.tasks[z]);
    hide TreeOk, SchedOk, LayoutOk, PidsOk, StacksOk, MemoryOk, Balanced, BookOf, Pool, AreasOk, Owned, DataFrames,
         TrapPageOk, TrapContextOk;
    BookFacts(l, k);
    assert CurrentTask(k).space.table.root in CurrentTask(k).space.table.roles.Keys;
    assert k.tasks[z].space.table.root in k.tasks[z].space.table.roles.Keys;
  }

  /** Exit leaves the entries of the zombie's table in place, pointing to frames that are free. */
  lemma ExitLeavesStaleEntries(l: Layout, k: Kernel, e: Event, k': Kernel, i: nat, v: nat)
    requires Inv(l, k) && e.Exit? && ExitStep(k, e, k')
    requires i < |CurrentTask(k).space.areas| && Covers(CurrentTask(k).space.areas[i], v)
    ensures var t := k'.tasks[k.current.value];
            t.status.Zombie? && v in t.space.table.flat && PtePpn(t.space.table.flat[v]) in k'.phys.free
  {
    hide TreeOk, SchedOk, LayoutOk, PidsOk, StacksOk, MemoryOk, Balanced, BookOf, TableOk, AreasOk, DataFrames,
         LeafPte, PtePpn, Translate, TrapPageOk;
    CurrentLive(l, k);
    var s := CurrentTask(k).space;
    PageTranslates(k.phys.mem, s, l.tramp, i, v);
    FramedPages(s, l.tramp, i);
  }

  // ---- fork ----

  /** Fork preserves meaning: the child has the parent's areas, permissions and bytes, in frames
      of its own; only `kernel_sp` and x10 of its trap context differ; the parent is unchanged. */
  lemma ForkPreservesMeaning(l: Layout, k: Kernel, e: Event, k': Kernel)
    requires Inv(l, k) && e.Fork? && ForkStep(l, k, e, k')
    ensures var p, c := k'.tasks[k.current.value], k'.tasks[k.nextId];
            && p.space == CurrentTask(k).space && p.trapCxPpn == CurrentTask(k).trapCxPpn
                && SameOn(k.phys.mem, k'.phys.mem, Owned(p.space))
            && Owned(c.space) !! Owned(p.space)
            && |c.space.areas| == |p.space.areas|
            && (forall i | 0 <= i < |c.space.areas| :: SameShape(p.space.areas[i], c.space.areas[i]))
            && (forall i, v: nat | 0 <= i < |c.space.areas| - 1 && Covers(p.space.areas[i], v) ::
                  PageCopied(k.phys.mem, k'.phys.mem, p.space.areas[i], c.space.areas[i], v))
            && (forall j: nat | j < 512 ::
                  Entry(k'.phys.mem, c.trapCxPpn, j)
                  == if j == 10 then 0 else if j == 35 then KernelStackTop(c.pid)
                      else Entry(k.phys.mem, p.trapCxPpn, j))
  {
    hide TreeOk, SchedOk, LayoutOk, PidsOk, StacksOk, MemoryOk, Balanced, BookOf, Pool, TableOk, AreasOk, Owned,
         DataFrames, FrameAt, Pushed, Built, ForkContext, TrapCxPpn, KernelStackTop, StackArea, TrapPageOk,
         PageCopied, Word, SameShape;
    assert k.current.value in k.tasks && k.nextId !in k.tasks by { InvNames(l, k); }
    BookFacts(l, k);
    ForkTakes(l, k, e, k');
    ForkTrapPage(l, k, e, k');
    ForkOthers(l, k, e, k', Owned(CurrentTask(k).space));
    ForkContextWords(e.stacked.mem, ForkCx(e), KernelStackTop(ForkPid(k)));
    assert FrameAt(e.stacked.mem, ForkCx(e)) == FrameAt(e.copied.mem, ForkCx(e));
    forall i, v: nat | 0 <= i < |e.child.areas| - 1 && Covers(CurrentTask(k).space.areas[i], v)
      ensures PageCopied(k.phys.mem, k'.phys.mem, CurrentTask(k).space.areas[i], e.child.areas[i], v)
    {
      ForkDataPage(l, k, e, k', i, v);
    }
  }

  lemma ForkDataPage(l: Layout, k: Kernel, e: Event, k': Kernel, i: nat, v: nat)
    requires Inv(l, k) && e.Fork? && ForkStep(l, k, e, k')
    requires i < |e.child.areas| - 1 && i < |CurrentTask(k).space.areas| && Covers(CurrentTask(k).space.areas[i], v)
    ensures PageCopied(k.phys.mem, k'.phys.mem, CurrentTask(k).space.areas[i], e.child.areas[i], v)
  {
    hide TreeOk, SchedOk, LayoutOk, PidsOk, StacksOk, MemoryOk, Balanced, BookOf, Pool, TableOk, AreasOk, Owned,
         DataFrames, FrameAt, Pushed, Built, ForkContext, TrapCxPpn, KernelStackTop, StackArea, TrapPageOk, Word,
         InjectiveFrames, UserShape;
    ForkTakes(l, k, e, k');
    ForkTrapPage(l, k, e, k');
    BookFacts(l, k);
    ForkContextWords(e.stacked.mem, ForkCx(e), KernelStackTop(ForkPid(k)));
    var s := e.child;
    assert PageCopied(k.phys.mem, e.copied.mem, CurrentTask(k).space.areas[i], s.areas[i], v);
    InData(s.areas, i, v);
    NodesOwned(s);
    var f := s.areas[i].frames[v];
    TrapArea(ForkChildTask(k, e), i);
    AreasParts(s, l.tramp);
    assert f != ForkCx(e);
    assert FrameAt(e.stacked.mem, f) == FrameAt(e.copied.mem, f);
  }
}
