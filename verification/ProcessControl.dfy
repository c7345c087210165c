/** The kernel objects behind the process system calls, changed in place: identifiers, the ready
    queue, the tasks and the processor (os/src/task, os/src/syscall/process.rs). Every method is
    one step of the kernel model. */
module ProcessControl {
  import opened KernelProcesses
  import opened Address
  import opened PhysicalMemory
  import opened PageTableEntries
  import opened FrameAllocation
  import opened TableModel
  import opened PageTables
  import opened SpaceModel
  import opened MemorySets
  import opened SpaceCopies
  import opened ElfLoading
  import opened KernelModel
  import opened KernelSteps
  import opened KernelFork
  import opened StepFacts
  import opened TaskResources

  class PidAllocator {
    var current: nat
    var recycled: seq<nat>

    ghost function View(): Pids
      reads this
    {
      Pids(current, recycled)
    }

    constructor ()
      ensures View() == Pids(0, [])
    {
      current, recycled := 0, [];
    }

    /** The most recently recycled identifier, or a new one if none is recycled. */
    method Alloc() returns (pid: nat)
      modifies this
      ensures (pid, View()) == PidAlloc(old(View()))
    {
      if |recycled| > 0 {
        pid := recycled[|recycled| - 1];
        recycled := recycled[..|recycled| - 1];
      } else {
        current := current + 1;
        pid := current - 1;
      }
    }

    method Dealloc(pid: nat)
      requires pid < current && pid !in recycled
      modifies this
      ensures View() == PidDealloc(old(View()), pid)
    {
      recycled := recycled + [pid];
    }
  }

  /** The ready queue: first in, first out. */
  class TaskManager {
    var readyQueue: seq<nat>

    constructor ()
      ensures readyQueue == []
    {
      readyQueue := [];
    }

    method Add(task: nat)
      modifies this
      ensures readyQueue == old(readyQueue) + [task]
    {
      readyQueue := readyQueue + [task];
    }

    method Fetch() returns (task: Option<nat>)
      modifies this
      ensures old(readyQueue) == [] ==> task.None? && readyQueue == []
      ensures old(readyQueue) != [] ==> task == Some(old(readyQueue)[0]) && readyQueue == old(readyQueue)[1..]
    {
      if readyQueue == [] {
        return None;
      }
      task := Some(readyQueue[0]);
      readyQueue := readyQueue[1..];
    }
  }

  /** `TaskControlBlock` */
  datatype Tcb = Tcb(pid: nat, status: TaskStatus, memorySet: MemorySet, trapCxPpn: nat, parent: Option<nat>,
                     children: seq<nat>, exitCode: int)

  ghost function TaskOf(t: Tcb): Task
    reads t.memorySet, t.memorySet.table
  {
    Task(t.pid, t.status, t.memorySet.View(), t.trapCxPpn, t.parent, t.children, t.exitCode)
  }

  /** The most frames that a fork of a process with this space takes. */
  function ForkCost(s: Space): nat { 3 + AreasCost(s.areas) + STACK_COST }

  /** An application: its LOAD segments and its entry point. */
  datatype App = App(segs: seq<Segment>, entry: nat)

  /** The kernel: its objects, changed in place, and the value they represent. */
  class System {
    ghost const layout: Layout
    const tramp: nat
    const trapHandler: nat
    const ram: Ram
    const kernelSpace: MemorySet
    const pids: PidAllocator
    const manager: TaskManager
    const initproc: nat
    var tasks: map<nat, Tcb>
    var nextId: nat
    var current: Option<nat>

    /** The value of each task, and the objects that the tasks own. */
    ghost var views: map<nat, Task>
    ghost var spaces: set<MemorySet>
    ghost var tables: set<PageTable>

    /** The objects of the tasks represent their values, and no two tasks share an object. */
    ghost predicate Linked()
      reads this`tasks, this`views, this`spaces, this`tables, spaces, tables
    {
      && kernelSpace !in spaces && kernelSpace.table !in tables && views.Keys == tasks.Keys
      && (forall id | id in tasks ::
            && tasks[id].memorySet in spaces && tasks[id].memorySet.table in tables && views[id] == TaskOf(tasks[id]))
      && (forall a, b | a in tasks && b in tasks && a != b ::
            tasks[a].memorySet != tasks[b].memorySet && tasks[a].memorySet.table != tasks[b].memorySet.table)
    }

    ghost function View(): Kernel
      reads this, ram, ram.frames, kernelSpace, kernelSpace.table, pids, manager
    {
      Kernel(ram.View(), kernelSpace.View(), pids.View(), views, nextId, manager.readyQueue, current, initproc)
    }

    ghost predicate Fixed()
      reads ram, ram.frames
    {
      ram.Valid() && ram.Pool() == Pool(layout) && tramp == layout.tramp && trapHandler == layout.trapHandler
    }

    ghost predicate Valid()
      reads this, ram, ram.frames, kernelSpace, kernelSpace.table, pids, manager, spaces, tables
    {
      Fixed() && Linked() && Inv(layout, View())
    }

    /** The kernel objects with `initproc` as the only task, ready to run. */
    constructor (ghost layout: Layout, tramp: nat, trapHandler: nat, ram: Ram, kernelSpace: MemorySet,
        pids: PidAllocator,
                 manager: TaskManager, init: Tcb)
      requires ram.Valid() && ram.Pool() == Pool(layout) && tramp == layout.tramp && trapHandler == layout.trapHandler
      requires init.memorySet != kernelSpace && init.memorySet.table != kernelSpace.table
      requires manager.readyQueue == [0]
      requires Inv(layout, Kernel(ram.View(), kernelSpace.View(), pids.View(), map[0 := TaskOf(init)], 1, [0], None, 0))
      ensures Valid() && this.layout == layout
      ensures View() == Kernel(ram.View(), kernelSpace.View(), pids.View(), map[0 := TaskOf(init)], 1, [0], None, 0)
    {
      hide Inv, Pool, StackFrameAllocator.Free, StackFrameAllocator.Valid, StackFrameAllocator.Pool;
      this.layout, this.tramp, this.trapHandler := layout, tramp, trapHandler;
      this.ram, this.kernelSpace, this.pids, this.manager := ram, kernelSpace, pids, manager;
      initproc, tasks, nextId, current := 0, map[0 := init], 1, None;
      spaces, tables := {init.memorySet}, {init.memorySet.table};
      views := map[0 := TaskOf(init)];
    }

    /** Overwrite the fields of a task, but not its address space. */
    method SetTask(id: nat, t: Tcb)
      requires Linked() && id in tasks && t.memorySet == tasks[id].memorySet
      modifies this`tasks, this`views
      ensures Linked() && views == old(views)[id := TaskOf(t)] && tasks == old(tasks)[id := t]
    {
      tasks := tasks[id := t];
      views := views[id := TaskOf(t)];
    }

    /** `suspend_current_and_run_next` */
    method SuspendCurrent()
      requires Valid() && current.Some?
      modifies this, manager
      ensures Valid() && Next(layout, old(View()), Yield, View())
    {
      hide Inv, Next, Fixed, Linked, Ram.View, MemorySet.View;
      CurrentExists(layout, View());
      var task := current.value;
      current := None;
      SetStatusOf(task, Ready);
      manager.Add(task);
      YieldNext(layout, old(View()), View());
    }

    method SetStatusOf(id: nat, s: TaskStatus)
      requires Linked() && id in views
      modifies this`tasks, this`views
      ensures Linked() && views == old(views)[id := old(views)[id].(status := s)]
    {
      SetTask(id, tasks[id].(status := s));
    }

    /** One round of `run_tasks`: the queue is never empty here. */
    method RunNext()
      requires Valid() && current.None?
      modifies this, manager
      ensures Valid() && Next(layout, old(View()), Dispatch, View())
    {
      hide Inv, Next, Fixed, Linked, Ram.View, MemorySet.View;
      HeadReady(layout, View());
      var task := manager.Fetch();
      var id := task.value;
      SetStatusOf(id, Running);
      current := task;
      DispatchNext(layout, old(View()), View());
    }

    /** The objects of one task. */
    lemma Represents(id: nat)
      requires Linked() && id in views
      ensures id in tasks && tasks[id].memorySet in spaces && tasks[id].memorySet.table in tables
      ensures views[id] == TaskOf(tasks[id])
      ensures kernelSpace !in spaces && kernelSpace.table !in tables
    {}

    /** The children of task `c` become children of `initproc`. */
    method Reparent(c: nat)
      requires Linked() && c in views && initproc in views && c != initproc
      requires forall i | 0 <= i < |views[c].children| ::
                views[c].children[i] in views && views[c].children[i] != initproc && views[c].children[i] != c
      modifies this`tasks, this`views
      ensures Linked() && views == Adopt(old(views), initproc, old(views[c].children))
    {
      hide Linked, Adopt;
      Represents(c);
      var orphans := tasks[c].children;
      AdoptNone(views, initproc);
      assert orphans[..0] == [];
      for n := 0 to |orphans|
        invariant Linked() && views == Adopt(old(views), initproc, orphans[..n])
      {
        var child := orphans[n];
        AdoptOne(old(views), initproc, orphans[..n], child);
        assert orphans[..n + 1] == orphans[..n] + [child];
        Represents(child);
        Represents(initproc);
        SetTask(child, tasks[child].(parent := Some(initproc)));
        SetTask(initproc, tasks[initproc].(children := tasks[initproc].children + [child]));
      }
      assert orphans[..|orphans|] == orphans;
    }

    /** Only the space of task `id` has changed, and its view with it. */
    twostate lemma Relinked(id: nat)
      requires old(Linked()) && id in old(tasks)
      requires tasks == old(tasks) && spaces == old(spaces) && tables == old(tables)
      requires forall s | s in spaces && s != tasks[id].memorySet :: unchanged(s)
      requires forall t | t in tables && t != tasks[id].memorySet.table :: unchanged(t)
      requires views == old(views)[id := TaskOf(tasks[id])]
      ensures Linked()
    {
      hide MemorySet.View, PageTable.View;
    }

    /** `recycle_data_pages` on the space of a task. */
    method Recycle(id: nat)
      requires Fixed() && Linked() && id in views && SpaceOk(ram.mem, views[id].space, tramp)
      requires Owned(views[id].space) <= Pool(layout) && Owned(views[id].space) !! ram.View().free
      modifies this`views, ram.frames, spaces
      ensures Fixed() && Linked()
      ensures views == old(views)[id := old(views)[id].(space := old(views)[id].space.(areas := []))]
      ensures ram.View() == Phys(old(ram.mem), old(ram.View().free) + DataFrames(old(views)[id].space.areas))
    {
      hide Linked, SpaceOk, Owned, DataFrames, PageTable.View, StackFrameAllocator.Free, StackFrameAllocator.Valid,
           StackFrameAllocator.Pool;
      Represents(id);
      tasks[id].memorySet.RecycleDataPages(ram, tramp);
      views := views[id := TaskOf(tasks[id])];
      Relinked(id);
    }

    /** Task `c` becomes a zombie and `initproc` gets its children. */
    method Retire(c: nat, code: int)
      requires Linked() && c in views && initproc in views && c != initproc
      requires forall i | 0 <= i < |views[c].children| ::
                views[c].children[i] in views && views[c].children[i] != initproc && views[c].children[i] != c
      modifies this`tasks, this`views
      ensures Linked() && views == Retired(old(views), initproc, c, code)
    {
      hide Linked, Adopt, Retired, MemorySet.View;
      RetiredTask(views, initproc, c, code);
      Represents(c);
      SetTask(c, tasks[c].(status := Zombie, exitCode := code));
      Reparent(c);
      Represents(c);
      SetTask(c, tasks[c].(children := []));
    }

    /** `exit_current_and_run_next`. Not ok stands for the panic on the borrowed cell when `initproc`
        exits. */
    method ExitCurrent(code: int) returns (ok: bool)
      requires Valid() && current.Some?
      modifies this, ram.frames, spaces
      ensures ok <==> old(current.value) != initproc
      ensures ok ==> Valid() && Next(layout, old(View()), Exit(code), View())
    {
      hide Inv, Next, Linked, Pool, Owned, SpaceOk, DataFrames, StackFrameAllocator.Free, StackFrameAllocator.Valid,
           StackFrameAllocator.Pool, MemorySet.View, Retired, AfterExit;
      ghost var k := View();
      CurrentFacts(layout, k);
      var c := current.value;
      Represents(c);
      current := None;
      if c == initproc {
        SetTask(c, tasks[c].(status := Zombie, exitCode := code));
        return false;
      }
      forall i | 0 <= i < |k.tasks[c].children|
        ensures k.tasks[c].children[i] in k.tasks && k.tasks[c].children[i] != initproc && k.tasks[c].children[i] != c
      {
        ChildrenFacts(layout, k, i);
      }
      Retire(c, code);
      RetiredTask(k.tasks, initproc, c, code);
      ExitTasks(k, code, c);
      Recycle(c);
      ExitNext(layout, k, code, View());
      ok := true;
    }

    /** The address space, identifier and kernel stack of a child of the running task `c`. */
    method PrepareChild(c: nat) returns (child: Option<Tcb>, ghost copied: Phys, ghost space: Space)
      requires Valid() && current == Some(c)
      modifies pids, ram, ram.frames, kernelSpace, kernelSpace.table
      ensures Fixed() && Linked() && (child.None? ==> ram.View().free == {})
      ensures c in old(views) && Spent(old(ram.View().free), ram.View().free, ForkCost(old(views)[c].space))
      ensures child.Some? ==>
                && fresh(child.value.memorySet) && fresh(child.value.memorySet.table)
                && HasCurrent(old(View()))
                    && Copied(old(ram.View()), CurrentTask(old(View())).space, copied, space, tramp)
                && (child.value.pid, pids.View()) == PidAlloc(old(pids.View()))
                && Pushed(copied, old(kernelSpace.View()), ram.View(), kernelSpace.View(),
                    StackArea(child.value.pid), None, tramp)
                && TaskOf(child.value)
                    == Task(child.value.pid, Ready, space, TrapCxPpn(space), Some(c), [], 0)
    {
      hide Spent, AreasCost, Inv, SpaceOk, Owned, Pool, AllFramed, Copied, Pushed, PidFits, Apart, StackArea,
           PidAlloc, StackFrameAllocator.Free, StackFrameAllocator.Valid, StackFrameAllocator.Pool, PtePpn, Floor,
           VirtAddrFrom, EntryOf, Translate, Linked;
      ghost var k := View();
      CurrentFacts(layout, k);
      KernelSpaceFacts(layout, k);
      StackReady(layout, k);
      Represents(c);
      copied, space := k.phys, k.kspace;
      var ms := FromExistedUser(ram, tasks[c].memorySet, tramp);
      SpentMore(k.phys.free, ram.View().free, 3 + AreasCost(k.tasks[c].space.areas), ForkCost(k.tasks[c].space));
      if ms == null {
        return None, copied, space;
      }
      copied, space := ram.View(), ms.View();
      CopiedShape(layout, k, copied, space);
      CopiedApart(k.phys, CurrentTask(k).space, copied, space, k.kspace, tramp);
      TrapCxFound(copied.mem, space, tramp);
      var pte := ms.table.TranslateIn(ram, Floor(VirtAddrFrom(TRAP_CONTEXT)));
      var pid := pids.Alloc();
      var ok := NewKernelStack(ram, kernelSpace, pid, tramp);
      SpentThen(k.phys.free, copied.free, ram.View().free, 3 + AreasCost(k.tasks[c].space.areas), STACK_COST,
          ForkCost(k.tasks[c].space));
      if !ok {
        return None, copied, space;
      }
      child := Some(Tcb(pid, Ready, ms, PtePpn(pte.value), Some(c), [], 0));
    }

    /** A task with a new space of its own. */
    method AddTask(id: nat, t: Tcb)
      requires Linked()
      requires t.memorySet !in spaces && t.memorySet.table !in tables
      requires t.memorySet != kernelSpace && t.memorySet.table != kernelSpace.table
      modifies this`tasks, this`views, this`spaces, this`tables
      ensures Linked() && views == old(views)[id := TaskOf(t)]
    {
      hide Linked;
      tasks := tasks[id := t];
      views := views[id := TaskOf(t)];
      spaces := spaces + {t.memorySet};
      tables := tables + {t.memorySet.table};
      Extended(id, t);
    }

    /** A task with a new space is there, and nothing else has changed. */
    twostate lemma Extended(id: nat, new t: Tcb)
      requires old(Linked())
      requires t.memorySet !in old(spaces) && t.memorySet.table !in old(tables)
      requires t.memorySet != kernelSpace && t.memorySet.table != kernelSpace.table
      requires tasks == old(tasks)[id := t] && views == old(views)[id := TaskOf(t)]
      requires spaces == old(spaces) + {t.memorySet} && tables == old(tables) + {t.memorySet.table}
      requires forall s | s in old(spaces) :: unchanged(s)
      requires forall p | p in old(tables) :: unchanged(p)
      ensures Linked()
    {
      hide MemorySet.View;
    }

    /** A new child of task `c`. */
    method AddChild(c: nat, t: Tcb)
      requires Linked() && c in views && nextId !in views
      requires t.memorySet !in spaces && t.memorySet.table !in tables
      requires t.memorySet != kernelSpace && t.memorySet.table != kernelSpace.table
      modifies this`tasks, this`views, this`spaces, this`tables, this`nextId
      ensures Linked() && nextId == old(nextId) + 1
      ensures views
                == old(views)[c := old(views)[c].(children := old(views)[c].children + [old(nextId)])][old(nextId) :=
                    TaskOf(t)]
    {
      hide Linked, MemorySet.View;
      Represents(c);
      SetTask(c, tasks[c].(children := tasks[c].children + [nextId]));
      AddTask(nextId, t);
      nextId := nextId + 1;
    }

    /** `sys_fork`: the identifier of the child. `None` stands for the panic when memory runs out. */
    method SysFork() returns (r: Option<nat>, ghost e: Event)
      requires Valid() && current.Some?
      modifies this, manager, pids, ram, ram.frames, kernelSpace, kernelSpace.table
      ensures r.None? ==> ram.View().free == {}
      ensures r.None? ==> HasCurrent(old(View())) && |old(ram.View().free)| <= ForkCost(CurrentTask(old(View())).space)
      ensures r.Some? ==> Valid() && e.Fork? && Next(layout, old(View()), e, View())
      ensures r.Some? ==> old(nextId) in View().tasks && View().tasks[old(nextId)].pid == r.value
    {
      hide Inv, Next, Linked, Pool, Copied, Pushed, StackArea, StackFrameAllocator.Free, StackFrameAllocator.Valid,
           StackFrameAllocator.Pool, MemorySet.View, PidAlloc, TrapCxPpn, KernelStackTop, ForkContext, PidFits, Spent,
           ForkCost;
      ghost var k := View();
      InvNames(layout, k);
      StackReady(layout, k);
      var c := current.value;
      var child;
      ghost var copied, space;
      child, copied, space := PrepareChild(c);
      if child.None? {
        SpentAll(k.phys.free, ForkCost(k.tasks[c].space));
        return None, Dispatch;
      }
      var t := child.value;
      e := Fork(copied, space, ram.View(), kernelSpace.View());
      ghost var task := TaskOf(t);
      AddChild(c, t);
      SetForkContext(ram, t.trapCxPpn, t.pid);
      manager.Add(nextId - 1);
      r := Some(t.pid);
      ForkNext(layout, k, e, View(), task, pids.View());
    }

    /** Task `c` gets a new space and its former one is dropped. */
    method ReplaceSpace(c: nat, ms: MemorySet, cx: nat)
      requires Fixed() && Linked() && c in views && FramesOk(views[c].space.table) && ShapesOk(views[c].space.areas)
      requires InjectiveFrames(views[c].space.areas)
      requires DataFrames(views[c].space.areas) !! views[c].space.table.roles.Keys
      requires Owned(views[c].space) <= Pool(layout) && Owned(views[c].space) !! ram.View().free
      requires ms !in spaces && ms.table !in tables && ms != kernelSpace && ms.table != kernelSpace.table
      modifies this`tasks, this`views, this`spaces, this`tables, ram.frames
      ensures Fixed() && Linked() && views == old(views)[c := old(views)[c].(space := ms.View(), trapCxPpn := cx)]
      ensures ram.View() == Phys(old(ram.mem), old(ram.View().free) + Owned(old(views)[c].space))
    {
      hide Linked, Pool, StackFrameAllocator.Free, StackFrameAllocator.Valid, StackFrameAllocator.Pool, Owned,
           DataFrames, ShapesOk, InjectiveFrames, FramesOk;
      Represents(c);
      var former := tasks[c].memorySet;
      AddTask(c, tasks[c].(memorySet := ms, trapCxPpn := cx));
      former.Drop(ram);
    }

    /** `TaskControlBlock::exec`: the new space is complete before the old one is dropped. */
    method ExecImage(segs: seq<Segment>, entry: nat, sstatus: nat) returns (ok: bool, ghost e: Event)
      requires Valid() && current.Some? && Loadable(segs) && entry < TWO_64 && sstatus < TWO_64
      modifies this, ram, ram.frames
      ensures !ok ==> ram.View().free == {} && |old(ram.View().free)| <= ImageCost(segs)
      ensures ok ==> Valid() && e.Exec? && e.segs == segs && e.entry == entry && e.sstatus == sstatus
                     && Next(layout, old(View()), e, View())
    {
      hide Inv, Next, Linked, Pool, Loadable, Loaded, Plan, StackFrameAllocator.Free, StackFrameAllocator.Valid,
           SpaceOk, Owned, StackFrameAllocator.Pool, StackTop, TrapCxPpn, KernelStackTop, ContextPage, PidFits,
           DataFrames, ShapesOk, InjectiveFrames, FramesOk, FrameAt, MemorySet.View, Spent, ImageCost;
      ghost var k := View();
      CurrentFacts(layout, k);
      KernelSpaceFacts(layout, k);
      PidInRange(layout, k, k.current.value);
      DropReady(k.phys.mem, CurrentTask(k).space, tramp);
      var c := current.value;
      Represents(c);
      var pid := tasks[c].pid;
      var ms, sp, cx := LoadImage(ram, segs, tramp);
      if ms == null {
        SpentAll(k.phys.free, ImageCost(segs));
        return false, Dispatch;
      }
      ok, e := true, Exec(segs, entry, sstatus, ram.View(), ms.View());
      ReplaceSpace(c, ms, cx);
      RootOf(kernelSpace);
      InitContext(ram, cx, entry, sp, sstatus, kernelSpace.table.rootPpn, pid, trapHandler);
      ExecNext(layout, k, e, View(), cx,
          ContextPage(FrameAt(e.loaded.mem, cx), entry, sp, sstatus, kernelSpace.table.rootPpn,
                                                    KernelStackTop(pid), trapHandler));
    }

    /** `sys_exec`, by the name of the application: -1 if there is none. `None` stands for the panic
        when memory runs out. */
    method SysExec(apps: map<seq<Byte>, App>, path: seq<Byte>, sstatus: nat) returns (r: Option<int>, ghost e: Event)
      requires Valid() && current.Some? && sstatus < TWO_64
      requires forall name | name in apps :: Loadable(apps[name].segs) && apps[name].entry < TWO_64
      modifies this, ram, ram.frames
      ensures r.None? ==> path in apps && ram.View().free == {} && |old(ram.View().free)| <= ImageCost(apps[path].segs)
      ensures r == Some(-1) <==> path !in apps
      ensures path !in apps ==> Valid() && View() == old(View())
      ensures r.Some? && path in apps ==>
                && r == Some(0) && Valid() && Next(layout, old(View()), e, View())
                && e.Exec? && e.segs == apps[path].segs && e.entry == apps[path].entry && e.sstatus == sstatus
    {
      hide Inv, Next, Linked, Fixed, Loadable, Ram.View, MemorySet.View, ImageCost;
      e := Dispatch;
      if path !in apps {
        return Some(-1), e;
      }
      var ok;
      ok, e := ExecImage(apps[path].segs, apps[path].entry, sstatus);
      r := if ok then Some(0) else None;
    }

    /** Does a child of the running task match? */
    method HasMatch(pid: int) returns (found: bool)
      requires Valid() && current.Some?
      ensures HasCurrent(View()) && found == AnyChild(View(), pid)
    {
      hide Inv, Linked, Fixed, Ram.View, MemorySet.View;
      ghost var k := View();
      CurrentExists(layout, k);
      Represents(current.value);
      var children := tasks[current.value].children;
      for n := 0 to |children|
        invariant forall i | 0 <= i < n :: children[i] in k.tasks && !Matches(pid, k.tasks[children[i]])
      {
        ChildrenFacts(layout, k, n);
        Represents(children[n]);
        if pid == -1 || pid == tasks[children[n]].pid {
          assert Matches(pid, views[children[n]]);
          return true;
        }
      }
      found := false;
    }

    /** The position of the first matching zombie among the children of the running task. */
    method FindZombie(pid: int) returns (index: Option<nat>)
      requires Valid() && current.Some?
      ensures HasCurrent(View()) && (index.None? <==> !AnyZombie(View(), pid))
      ensures index.Some? ==> index.value < |CurrentTask(View()).children| && ZombieAt(View(), pid, index.value)
      ensures index.Some? ==> forall i | 0 <= i < index.value :: !ZombieAt(View(), pid, i)
    {
      hide Inv, Linked, Fixed, Ram.View, MemorySet.View;
      ghost var k := View();
      CurrentExists(layout, k);
      Represents(current.value);
      var children := tasks[current.value].children;
      for n := 0 to |children|
        invariant forall i | 0 <= i < n :: !ZombieAt(k, pid, i)
      {
        ChildrenFacts(layout, k, n);
        Represents(children[n]);
        var child := tasks[children[n]];
        if child.status == Zombie && (pid == -1 || pid == child.pid) {
          assert ZombieAt(k, pid, n);
          return Some(n);
        }
      }
      index := None;
    }

    /** Forget a task. */
    method RemoveTask(id: nat)
      requires Linked()
      modifies this`tasks, this`views
      ensures Linked() && views == old(views) - {id} && tasks == old(tasks) - {id}
    {
      hide MemorySet.View;
      tasks := tasks - {id};
      views := views - {id};
    }

    /** Drop a zombie: its identifier, its kernel stack and its page table. */
    method DropTask(t: Tcb) returns (ghost removed: Phys)
      requires Fixed() && SpaceOk(ram.mem, kernelSpace.View(), tramp)
      requires Owned(kernelSpace.View()) <= Pool(layout) && Owned(kernelSpace.View()) !! ram.View().free
      requires PidFits(t.pid) && t.pid < pids.current && t.pid !in pids.recycled
      requires FirstStart(kernelSpace.areas, StackStart(t.pid)) < |kernelSpace.areas|
      requires t.memorySet != kernelSpace && t.memorySet.table != kernelSpace.table
      requires FramesOk(t.memorySet.View().table) && t.memorySet.areas == []
      requires Owned(t.memorySet.View()) <= Pool(layout) && Owned(t.memorySet.View()) !! ram.View().free
      requires Owned(t.memorySet.View()) !! Owned(kernelSpace.View())
      modifies pids, ram, ram.frames, kernelSpace, kernelSpace.table
      ensures Fixed() && SpaceOk(removed.mem, kernelSpace.View(), tramp)
      ensures pids.View() == PidDealloc(old(pids.View()), t.pid)
      ensures Removed(old(ram.View()), old(kernelSpace.View()), removed, kernelSpace.View(),
                      FirstStart(old(kernelSpace.areas), StackStart(t.pid)))
      ensures ram.View() == removed.(free := removed.free + Owned(old(t.memorySet.View())))
    {
      hide SpaceOk, Owned, Removed, FirstStart, StackStart, PidFits, Pool, FramesOk, StackFrameAllocator.Free,
           StackFrameAllocator.Valid, StackFrameAllocator.Pool, ShapesOk, InjectiveFrames, DataFrames;
      pids.Dealloc(t.pid);
      ghost var n := FirstStart(kernelSpace.areas, StackStart(t.pid));
      DropKernelStack(ram, kernelSpace, t.pid, tramp);
      removed := ram.View();
      RemovedApart(old(ram.View()), old(kernelSpace.View()), removed, kernelSpace.View(), n, Owned(t.memorySet.View()));
      NoAreas(t.memorySet.table.View());
      t.memorySet.Drop(ram);
    }

    /** Reap the child at position `index` of the running task. */
    method ReapAt(index: nat, ptr: nat) returns (pid: nat, ghost e: Event)
      requires Valid() && CanReap(View(), index, ptr)
      modifies this, pids, ram, ram.frames, kernelSpace, kernelSpace.table
      ensures Valid() && e.Reap? && e.index == index && e.ptr == ptr && Next(layout, old(View()), e, View())
      ensures current == old(current)
      ensures pid == old(View()).tasks[CurrentTask(old(View())).children[index]].pid
    {
      hide Inv, Next, Linked, SpaceOk, Owned, Removed, FirstStart, StackStart, PidFits, Pool, FramesOk,
           StackFrameAllocator.Free, StackFrameAllocator.Valid, StackFrameAllocator.Pool, DataFrames, StoreExitCode,
           AllFramed, PointerOk, RemoveAt, AfterReap, PidDealloc, PageTable.View;
      ghost var k := View();
      CurrentFacts(layout, k);
      KernelSpaceFacts(layout, k);
      ChildrenFacts(layout, k, index);
      var c := current.value;
      Represents(c);
      var z := tasks[c].children[index];
      Represents(z);
      PidFacts(layout, k, z);
      ZombieFacts(layout, k, z);
      StoreFacts(layout, k, index, ptr, k.tasks[z].exitCode);
      var child := tasks[z];
      var children := RemoveAt(tasks[c].children, index);
      SetTask(c, tasks[c].(children := children));
      RootOf(tasks[c].memorySet);
      RootOf(kernelSpace);
      var ok := StoreCode(ram, kernelSpace.table.rootPpn, tasks[c].memorySet.table, ptr, child.exitCode);
      assert ok;
      ghost var stored := ram.View();
      ghost var removed := DropTask(child);
      RemoveTask(z);
      ReapTasks(k, index, z, c);
      pid, e := child.pid, Reap(index, ptr, removed, kernelSpace.View());
      ReapNext(layout, k, e, View(), z, FirstStart(k.kspace.areas, StackStart(child.pid)), stored);
    }

    lemma RootOf(ms: MemorySet)
      ensures ms.View().table.root == ms.table.rootPpn
    {}

    /** `sys_waitpid`: -1 exactly if no child matches, -2 exactly if one matches but none of those is a
        zombie; otherwise the first matching zombie is reaped, if the pointer leads to user memory. A store
        that goes elsewhere is made, and what the kernel does after it is left open. */
    method SysWaitpid(pid: int, ptr: nat) returns (out: WaitResult, ghost e: Event)
      requires Valid() && current.Some?
      modifies this, pids, ram, ram.frames, kernelSpace, kernelSpace.table
      ensures HasCurrent(old(View()))
      ensures out.WaitReturns? ==> Valid() && Next(layout, old(View()), e, View()) && current == old(current)
      ensures out.WaitAstray? ==> ram.mem == out.mem
      ensures if AnyZombie(old(View()), pid) then WaitOutcome(old(View()), pid, ptr, out, e)
              else
                && out == WaitReturns(if AnyChild(old(View()), pid) then -2 else -1)
                && e == WaitFails(pid) && View() == old(View())
    {
      hide Inv, Next, Linked, Fixed, Floor, VirtAddrFrom, MemorySet.View, StoreExitCode, PageOffset;
      ghost var k := View();
      CurrentExists(layout, k);
      WaitFailsNext(layout, k, pid);
      e := WaitFails(pid);
      var found := HasMatch(pid);
      if !found {
        return WaitReturns(-1), e;
      }
      var index := FindZombie(pid);
      if index.None? {
        return WaitReturns(-2), e;
      }
      var c := current.value;
      Represents(c);
      AreasOf(tasks[c]);
      if InUserArea(tasks[c].memorySet.areas, Floor(VirtAddrFrom(ptr))) && PageOffset(ptr) + 4 <= PAGE_SIZE {
        var r;
        r, e := ReapAt(index.value, ptr);
        return WaitReturns(r), e;
      }
      var z := tasks[c].children[index.value];
      Represents(z);
      e := Reap(index.value, ptr, k.phys, k.kspace);
      var ok := StoreAstray(c, ptr, tasks[z].exitCode);
      out := if ok then WaitAstray(ram.mem) else WaitPanics;
    }

    /** Store an exit code through a pointer of task `c`. */
    method StoreAstray(c: nat, ptr: nat, code: int) returns (ok: bool)
      requires Linked() && c in views
      modifies ram
      ensures var stored :=
                StoreExitCode(old(ram.mem), kernelSpace.View().table.root, old(views)[c].space.table.root, ptr, code);
              ok == stored.Some? && ram.mem == if ok then stored.value else old(ram.mem)
    {
      hide Linked, StoreExitCode;
      Represents(c);
      ok := StoreCode(ram, kernelSpace.table.rootPpn, tasks[c].memorySet.table, ptr, code);
    }
  }

  lemma AreasOf(t: Tcb)
    ensures TaskOf(t).space.areas == t.memorySet.areas
  {}
}
