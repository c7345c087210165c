/** The switches of the kernel on the objects themselves: `run_tasks` and `schedule` call `__switch` on
    the contexts of the idle flow and of the tasks (os/src/task/processor.rs, os/src/task/mod.rs,
    os/src/task/switch.S). Each of them is the step of the machine of flows that `KernelFlows` is about. */
module Switching {
  import opened FrameAllocation
  import opened MemorySets
  import opened KernelModel
  import opened KernelSteps
  import opened KernelProcesses
  import opened KernelFlows
  import opened StepFacts
  import opened ProcessControl
  import opened TrapHandling
  import opened Contexts

  /** ra, sp and s0 to s11 of a register file, and those in a context. */
  ghost function SavedOf(x: Registers): Saved {
    Saved(x[1], x[2], seq(12, n requires 0 <= n < 12 => x[if n < 2 then 8 + n else 16 + n]))
  }

  ghost function ContextOf(c: TaskContext): Saved
    reads c
  {
    Saved(c.ra, c.sp, c.s)
  }

  ghost function ContextsOf(cs: map<Flow, TaskContext>): map<Flow, Saved>
    reads cs.Values
    ensures ContextsOf(cs).Keys == cs.Keys
  {
    map f | f in cs :: ContextOf(cs[f])
  }

  ghost predicate NoneShared(cs: map<Flow, TaskContext>) {
    forall f, g | f in cs && g in cs && cs[f] == cs[g] :: f == g
  }

  /** `__switch` between the contexts of two flows is the switch of the machine. */
  method SwitchFlows(h: Hart, cs: map<Flow, TaskContext>, from: Flow, to: Flow, ghost k: Kernel, ghost k': Kernel)
    requires from in cs && to in cs && from != to && NoneShared(cs)
    modifies h, cs[from]
    ensures Switched(Machine(k, old(SavedOf(h.x)), old(ContextsOf(cs))), from, to,
              Machine(k', SavedOf(h.x), ContextsOf(cs)))
  {
    h.Switch(cs[from], cs[to]);
    assert ContextOf(cs[from]).s == old(SavedOf(h.x)).s;
    assert SavedOf(h.x).s == old(ContextOf(cs[to])).s;
    forall f | f in cs && f != from ensures ContextOf(cs[f]) == old(ContextOf(cs[f])) {
      assert cs[f] != cs[from];
    }
  }

  /** `__switch` out of a flow that ends, to the idle flow: its registers go to a context that nobody uses. */
  method SwitchAway(h: Hart, cs: map<Flow, TaskContext>)
    requires Idle in cs
    modifies h
    ensures SavedOf(h.x) == ContextsOf(cs)[Idle] && ContextsOf(cs) == old(ContextsOf(cs))
  {
    var unused := new TaskContext(0, 0);
    h.Switch(unused, cs[Idle]);
    assert SavedOf(h.x).s == ContextOf(cs[Idle]).s;
    assert ContextsOf(cs) == old(ContextsOf(cs));
  }

  /** The processor with the contexts of all flows: a context of its own for the idle flow, and one in
      every task. */
  class Processor {
    const sys: System
    const hart: Hart
    const trapReturn: Word64
    var contexts: map<Flow, TaskContext>

    ghost function View(): Machine
      reads this, hart, contexts.Values, sys, sys.ram, sys.ram.frames, sys.kernelSpace, sys.kernelSpace.table,
          sys.pids, sys.manager
    {
      Machine(sys.View(), SavedOf(hart.x), ContextsOf(contexts))
    }

    ghost predicate HasContexts()
      reads this, sys
    {
      NoneShared(contexts) && Idle in contexts && forall id | id in sys.views :: TaskFlow(id) in contexts
    }

    /** With `initproc` alone: it will begin in `trap_return`. */
    constructor (sys: System, hart: Hart, trapReturn: Word64)
      requires sys.Valid() && sys.views.Keys == {sys.initproc}
      ensures this.sys == sys && this.hart == hart && this.trapReturn == trapReturn && HasContexts()
      ensures BeginsAt(trapReturn, sys.views[sys.initproc].pid, ContextOf(contexts[TaskFlow(sys.initproc)]))
    {
      hide Inv, System.Linked, System.Fixed, KernelStackTop, BeginsAt, PidFits;
      sys.Represents(sys.initproc);
      PidInRange(sys.layout, sys.View(), sys.initproc);
      FirstBegins(trapReturn, sys.views[sys.initproc].pid);
      var idle := new TaskContext(0, 0);
      var first := new TaskContext(trapReturn, KernelStackTop(sys.tasks[sys.initproc].pid));
      this.sys, this.hart, this.trapReturn := sys, hart, trapReturn;
      contexts := map[Idle := idle, TaskFlow(sys.initproc) := first];
      new;
      assert ContextOf(first).s == FirstContext(trapReturn, sys.views[sys.initproc].pid).s;
    }

    /** `run_tasks`: the head of the queue gets the processor. */
    method RunNext()
      requires sys.Valid() && sys.current.None? && HasContexts()
      modifies sys, sys.manager, hart, contexts.Values
      ensures sys.Valid() && HasContexts() && contexts == old(contexts)
      ensures FlowNext(sys.layout, trapReturn, old(View()), Dispatch, View())
    {
      hide Inv, Next, System.Valid, System.View, Switched, SavedOf, ContextsOf;
      ghost var k := sys.View();
      Parts(sys);
      HeadReady(sys.layout, k);
      var id := sys.manager.readyQueue[0];
      sys.RunNext();
      Parts(sys);
      SameTasks(sys.layout, k, Dispatch, sys.View());
      SwitchFlows(hart, contexts, Idle, TaskFlow(id), k, sys.View());
    }

    /** `suspend_current_and_run_next` */
    method Suspend()
      requires sys.Valid() && sys.current.Some? && HasContexts()
      modifies sys, sys.manager, hart, contexts.Values
      ensures sys.Valid() && HasContexts() && contexts == old(contexts)
      ensures FlowNext(sys.layout, trapReturn, old(View()), Yield, View())
    {
      hide Inv, Next, System.Valid, System.View, Switched, SavedOf, ContextsOf;
      ghost var k := sys.View();
      Parts(sys);
      CurrentExists(sys.layout, k);
      var id := sys.current.value;
      sys.SuspendCurrent();
      Parts(sys);
      SameTasks(sys.layout, k, Yield, sys.View());
      SwitchFlows(hart, contexts, TaskFlow(id), Idle, k, sys.View());
    }

    /** `exit_current_and_run_next` */
    method Exit(code: int) returns (ok: bool)
      requires sys.Valid() && sys.current.Some? && HasContexts()
      modifies sys, sys.ram.frames, sys.spaces, hart
      ensures ok <==> old(sys.current.value) != sys.initproc
      ensures ok ==> sys.Valid() && HasContexts() && contexts == old(contexts)
      ensures ok ==> FlowNext(sys.layout, trapReturn, old(View()), KernelSteps.Exit(code), View())
    {
      hide Inv, Next, System.Valid, System.View, ContextsOf, SavedOf;
      ghost var k := sys.View();
      Parts(sys);
      ok := sys.ExitCurrent(code);
      if ok {
        Parts(sys);
        SameTasks(sys.layout, k, KernelSteps.Exit(code), sys.View());
        SwitchAway(hart, contexts);
      }
    }

    /** `goto_trap_return` of a new task. */
    method AddContext(id: nat, pid: nat)
      requires NoneShared(contexts)
      modifies this`contexts
      ensures NoneShared(contexts) && contexts.Keys == old(contexts.Keys) + {TaskFlow(id)}
      ensures ContextsOf(contexts) == old(ContextsOf(contexts))[TaskFlow(id) := FirstContext(trapReturn, pid)]
    {
      hide KernelStackTop;
      var first := new TaskContext(trapReturn, KernelStackTop(pid));
      contexts := contexts[TaskFlow(id) := first];
      assert ContextOf(first).s == FirstContext(trapReturn, pid).s;
    }

    /** `sys_fork`: the child gets a context that begins in `trap_return` at the top of its own stack. */
    method Fork() returns (r: Option<nat>, ghost e: Event)
      requires sys.Valid() && sys.current.Some? && HasContexts()
      modifies this`contexts, sys, sys.manager, sys.pids, sys.ram, sys.ram.frames, sys.kernelSpace,
          sys.kernelSpace.table
      ensures r.None? ==> sys.ram.View().free == {}
      ensures r.Some? ==>
                sys.Valid() && HasContexts() && e.Fork? && FlowNext(sys.layout, trapReturn, old(View()), e, View())
    {
      hide Inv, Next, System.Valid, System.View, StackFrameAllocator.Free, PidAlloc, KernelStackTop, ForkCost,
           ContextsOf, SavedOf, FirstContext, NoneShared, Ram.View;
      ghost var k := sys.View();
      Parts(sys);
      var id := sys.nextId;
      r, e := sys.SysFork();
      if r.Some? {
        Parts(sys);
        NewTask(sys.layout, k, e, sys.View());
        AddContext(id, r.value);
      }
    }
  }

  lemma NewTask(l: Layout, k: Kernel, e: Event, k': Kernel)
    requires Inv(l, k) && Next(l, k, e, k') && e.Fork?
    ensures k'.tasks.Keys == k.tasks.Keys + {k.nextId} && k'.tasks[k.nextId].pid == PidAlloc(k.pids).0
  {
    hide Inv, Next, PidAlloc;
    InvNames(l, k);
    TasksStep(l, k, e, k');
    ForkedPid(l, k, e, k');
  }

  lemma Parts(sys: System)
    requires sys.Valid()
    ensures Inv(sys.layout, sys.View())
    ensures var k := sys.View();
            && k.tasks == sys.views && k.queue == sys.manager.readyQueue && k.current == sys.current
                && k.nextId == sys.nextId
            && k.initproc == sys.initproc && k.phys == sys.ram.View()
  {
    hide Inv, System.Linked, System.Fixed, MemorySet.View;
  }

  /** A step that only schedules keeps the tasks. */
  lemma SameTasks(l: Layout, k: Kernel, e: Event, k': Kernel)
    requires Inv(l, k) && Next(l, k, e, k') && (e.Dispatch? || e.Yield? || e.Exit?)
    ensures k'.tasks.Keys == k.tasks.Keys
  {
    hide Inv, Next;
    InvNames(l, k);
    TasksStep(l, k, e, k');
  }
}
