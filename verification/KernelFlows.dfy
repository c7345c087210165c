/** The control flows of the kernel: the idle flow of `run_tasks` and one flow per task, with the
    callee-saved registers that `__switch` exchanges between them (os/src/task/processor.rs,
    os/src/task/mod.rs, os/src/task/context.rs, os/src/task/switch.S). */
module KernelFlows {
  import opened FrameAllocation
  import opened HardwareWalk
  import opened KernelModel
  import opened KernelSteps
  import opened KernelSafety
  import opened KernelProcesses
  import opened StepFacts

  datatype Flow = Idle | TaskFlow(id: nat)

  /** ra, sp and s0 to s11. */
  datatype Saved = Saved(ra: nat, sp: nat, s: seq<nat>)

  /** The kernel, the registers of the flow that runs, and the contexts of the others. */
  datatype Machine = Machine(kernel: Kernel, regs: Saved, contexts: map<Flow, Saved>)

  /** `TaskContext::goto_trap_return` */
  function FirstContext(trapReturn: nat, pid: nat): Saved {
    Saved(trapReturn, KernelStackTop(pid), seq(12, (_: nat) => 0))
  }

  /** `__switch(from, to)` */
  ghost predicate Switched(m: Machine, from: Flow, to: Flow, m': Machine) {
    to in m.contexts && m'.regs == m.contexts[to] && m'.contexts == m.contexts[from := m.regs]
  }

  /** A step of the kernel, with the switch it makes. A flow that runs may change its registers;
      an exit saves them in a context that nobody uses again. */
  ghost predicate FlowNext(l: Layout, trapReturn: nat, m: Machine, e: Event, m': Machine) {
    && Next(l, m.kernel, e, m'.kernel)
    && match e
       case Dispatch => |m.kernel.queue| > 0 && Switched(m, Idle, TaskFlow(m.kernel.queue[0]), m')
       case Yield => m.kernel.current.Some? && Switched(m, TaskFlow(m.kernel.current.value), Idle, m')
       case Exit(_) => Idle in m.contexts && m'.regs == m.contexts[Idle] && m'.contexts == m.contexts
       case Fork(_, _, _, _) =>
         m'.contexts == m.contexts[TaskFlow(m.kernel.nextId) := FirstContext(trapReturn, PidAlloc(m.kernel.pids).0)]
       case _ => m'.contexts == m.contexts
  }

  ghost predicate FlowRun(l: Layout, trapReturn: nat, ms: seq<Machine>, events: seq<Event>) {
    && |ms| == |events| + 1
    && forall i | 0 <= i < |events| :: FlowNext(l, trapReturn, ms[i], events[i], ms[i + 1])
  }

  ghost function Kernels(ms: seq<Machine>): (ks: seq<Kernel>)
    ensures |ks| == |ms| && forall i | 0 <= i < |ms| :: ks[i] == ms[i].kernel
  {
    seq(|ms|, i requires 0 <= i < |ms| => ms[i].kernel)
  }

  lemma KernelRun(l: Layout, trapReturn: nat, ms: seq<Machine>, events: seq<Event>)
    requires FlowRun(l, trapReturn, ms, events)
    ensures Run(l, Kernels(ms), events)
  {
    hide Next, Switched;
    forall i | 0 <= i < |events| ensures Next(l, Kernels(ms)[i], events[i], Kernels(ms)[i + 1]) {
      assert FlowNext(l, trapReturn, ms[i], events[i], ms[i + 1]);
    }
  }

  // ---- every switch finds the context it needs ----

  /** Ready tasks have a context to return to, and so has the idle flow while a task runs. */
  ghost predicate FlowsOk(m: Machine) {
    && (forall id | id in m.kernel.tasks && m.kernel.tasks[id].status.Ready? :: TaskFlow(id) in m.contexts)
    && (m.kernel.current.Some? ==> Idle in m.contexts)
  }

  /** Which tasks are ready after a step. */
  lemma ReadyStep(l: Layout, k: Kernel, e: Event, k': Kernel, id: nat)
    requires Next(l, k, e, k') && id in k'.tasks && k'.tasks[id].status.Ready?
    ensures (id in k.tasks && k.tasks[id].status.Ready?) || (e.Fork? && id == k.nextId)
              || (e.Yield? && k.current == Some(id))
  {
    hide ForkContext, StoreExitCode, RemoveAt, UserPage, Physical, AnyZombie, PidDealloc, StackArea, StackStart,
         KernelStackTop, TrapCxPpn, ContextPage;
  }

  lemma CurrentStep(l: Layout, k: Kernel, e: Event, k': Kernel)
    requires Next(l, k, e, k')
    ensures if e.Dispatch? then k.current.None? && |k.queue| > 0 && k'.current == Some(k.queue[0])
            else k.current.Some? && k'.current == if e.Yield? || e.Exit? then None else k.current
  {
    hide ForkContext, StoreExitCode, RemoveAt, UserPage, Physical, AnyZombie, PidDealloc, StackArea, StackStart,
         KernelStackTop, TrapCxPpn, ContextPage, AfterExit, AfterReap, SetStatus, WithChild;
  }

  lemma FlowsKept(l: Layout, trapReturn: nat, m: Machine, e: Event, m': Machine)
    requires FlowsOk(m) && FlowNext(l, trapReturn, m, e, m')
    ensures FlowsOk(m')
  {
    hide Next, FirstContext, PidAlloc;
    CurrentStep(l, m.kernel, e, m'.kernel);
    forall id | id in m'.kernel.tasks && m'.kernel.tasks[id].status.Ready? ensures TaskFlow(id) in m'.contexts {
      ReadyStep(l, m.kernel, e, m'.kernel, id);
    }
  }

  /** Whatever step the kernel makes, the context that its switch loads exists. */
  lemma SwitchFindsContext(l: Layout, trapReturn: nat, m: Machine, e: Event, k': Kernel) returns (m': Machine)
    requires Inv(l, m.kernel) && FlowsOk(m) && Next(l, m.kernel, e, k')
    ensures m'.kernel == k' && FlowNext(l, trapReturn, m, e, m') && FlowsOk(m')
  {
    hide Inv, Next, FirstContext, PidAlloc;
    var k := m.kernel;
    CurrentStep(l, k, e, k');
    match e {
      case Dispatch =>
        HeadReady(l, k);
        m' := Machine(k', m.contexts[TaskFlow(k.queue[0])], m.contexts[Idle := m.regs]);
      case Yield => m' := Machine(k', m.contexts[Idle], m.contexts[TaskFlow(k.current.value) := m.regs]);
      case Exit(_) => m' := Machine(k', m.contexts[Idle], m.contexts);
      case Fork(_, _, _, _) => m' :=
          Machine(k', m.regs, m.contexts[TaskFlow(k.nextId) := FirstContext(trapReturn, PidAlloc(k.pids).0)]);
      case _ => m' := Machine(k', m.regs, m.contexts);
    }
    FlowsKept(l, trapReturn, m, e, m');
  }

  // ---- a flow resumes with its registers ----

  /** The flow does not run in the state. */
  predicate Waits(k: Kernel, f: Flow) {
    match f
    case Idle => k.current.Some?
    case TaskFlow(id) => k.current != Some(id) && id < k.nextId
  }

  lemma ContextKept(l: Layout, trapReturn: nat, m: Machine, e: Event, m': Machine, f: Flow)
    requires FlowNext(l, trapReturn, m, e, m') && Waits(m.kernel, f) && f in m.contexts
    ensures f in m'.contexts && m'.contexts[f] == m.contexts[f]
  {
    hide Next, FirstContext, PidAlloc;
    CurrentStep(l, m.kernel, e, m'.kernel);
  }

  /** The context of a flow stays as it is while the flow waits. */
  lemma {:induction false} ContextsKept(l: Layout, trapReturn: nat, ms: seq<Machine>, events: seq<Event>, i: nat,
                                        j: nat, f: Flow)
    requires FlowRun(l, trapReturn, ms, events) && i <= j < |ms| && f in ms[i].contexts
    requires forall m | i <= m < j :: Waits(ms[m].kernel, f)
    ensures f in ms[j].contexts && ms[j].contexts[f] == ms[i].contexts[f]
    decreases j
  {
    hide Waits, FlowNext;
    if i < j {
      ContextsKept(l, trapReturn, ms, events, i, j - 1, f);
      ContextKept(l, trapReturn, ms[j - 1], events[j - 1], ms[j], f);
    }
  }

  /** Task `id` is the one a dispatch at `j` takes, and has not run since `i`. */
  ghost predicate NextTurn(ms: seq<Machine>, events: seq<Event>, i: nat, j: nat, id: nat) {
    && i < j < |events| && |ms| == |events| + 1 && events[j].Dispatch?
    && |ms[j].kernel.queue| > 0 && ms[j].kernel.queue[0] == id
    && forall m | i < m <= j :: ms[m].kernel.current != Some(id)
  }

  /** Until its next turn a known task waits. */
  lemma WaitsUntil(l: Layout, trapReturn: nat, ms: seq<Machine>, events: seq<Event>, i: nat, j: nat, id: nat)
    requires FlowRun(l, trapReturn, ms, events) && Inv(l, ms[0].kernel) && NextTurn(ms, events, i, j, id)
    requires id < ms[i + 1].kernel.nextId
    ensures forall m | i < m < j :: Waits(ms[m].kernel, TaskFlow(id))
  {
    hide FlowNext, Inv, Next;
    KernelRun(l, trapReturn, ms, events);
    forall m | i < m < j ensures Waits(ms[m].kernel, TaskFlow(id)) {
      NamesGrow(l, Kernels(ms), events, i + 1, m);
    }
  }

  lemma DispatchLoads(l: Layout, trapReturn: nat, m: Machine, m': Machine)
    requires FlowNext(l, trapReturn, m, Dispatch, m')
    ensures |m.kernel.queue| > 0 && TaskFlow(m.kernel.queue[0]) in m.contexts
    ensures m'.regs == m.contexts[TaskFlow(m.kernel.queue[0])]
  {
    hide Next;
  }

  /** A task that yields resumes, whatever runs in between, with the ra, sp and s0 to s11 it had. */
  lemma TaskResumes(l: Layout, trapReturn: nat, ms: seq<Machine>, events: seq<Event>, i: nat, j: nat, id: nat)
    requires FlowRun(l, trapReturn, ms, events) && Inv(l, ms[0].kernel) && NextTurn(ms, events, i, j, id)
    requires events[i].Yield? && ms[i].kernel.current == Some(id)
    ensures ms[j + 1].regs == ms[i].regs
  {
    hide FlowNext, Inv, Next, Waits;
    YieldSaves(l, trapReturn, ms[i], ms[i + 1], id);
    KernelRun(l, trapReturn, ms, events);
    RunKeepsInv(l, Kernels(ms), events, i);
    KnownTask(l, ms[i].kernel, ms[i + 1].kernel, id);
    WaitsUntil(l, trapReturn, ms, events, i, j, id);
    ContextsKept(l, trapReturn, ms, events, i + 1, j, TaskFlow(id));
    DispatchLoads(l, trapReturn, ms[j], ms[j + 1]);
  }

  lemma YieldSaves(l: Layout, trapReturn: nat, m: Machine, m': Machine, id: nat)
    requires FlowNext(l, trapReturn, m, Yield, m') && m.kernel.current == Some(id)
    ensures TaskFlow(id) in m'.contexts && m'.contexts[TaskFlow(id)] == m.regs && Next(l, m.kernel, Yield, m'.kernel)
  {
    hide Next;
  }

  lemma KnownTask(l: Layout, k: Kernel, k': Kernel, id: nat)
    requires Inv(l, k) && Next(l, k, Yield, k') && k.current == Some(id)
    ensures id < k'.nextId
  {
    hide LayoutOk, PidsOk, StacksOk, MemoryOk, BookOf, RootOk, ParentsOk, ChildrenOk, ListsOk, QueueOk, ReadyQueued;
  }

  /** The registers with which the flow of process `pid` begins: it returns to `trap_return`, at the top of
      the kernel stack of the process, with s0 to s11 zero. */
  predicate BeginsAt(trapReturn: nat, pid: nat, regs: Saved) {
    && regs.ra == trapReturn && regs.sp == 0xFFFF_FFFF_FFFF_F000 - 0x3000 * pid
    && |regs.s| == 12 && forall n | 0 <= n < 12 :: regs.s[n] == 0
  }

  lemma FirstBegins(trapReturn: nat, pid: nat)
    requires PidFits(pid)
    ensures BeginsAt(trapReturn, pid, FirstContext(trapReturn, pid))
  {}

  /** A forked task begins in `trap_return`, at the top of its own kernel stack. */
  lemma ChildBegins(l: Layout, trapReturn: nat, ms: seq<Machine>, events: seq<Event>, i: nat, j: nat, id: nat)
    requires FlowRun(l, trapReturn, ms, events) && Inv(l, ms[0].kernel) && NextTurn(ms, events, i, j, id)
    requires ms[i].kernel.nextId == id && events[i].Fork?
    ensures id in ms[i + 1].kernel.tasks && BeginsAt(trapReturn, ms[i + 1].kernel.tasks[id].pid, ms[j + 1].regs)
  {
    hide FlowNext, Inv, Next, Waits, FirstContext, BeginsAt, PidFits;
    ForkSaves(l, trapReturn, ms[i], events[i], ms[i + 1]);
    WaitsUntil(l, trapReturn, ms, events, i, j, id);
    ContextsKept(l, trapReturn, ms, events, i + 1, j, TaskFlow(id));
    DispatchLoads(l, trapReturn, ms[j], ms[j + 1]);
    KernelRun(l, trapReturn, ms, events);
    RunKeepsInv(l, Kernels(ms), events, i + 1);
    PidInRange(l, ms[i + 1].kernel, id);
    FirstBegins(trapReturn, ms[i + 1].kernel.tasks[id].pid);
  }

  lemma ForkSaves(l: Layout, trapReturn: nat, m: Machine, e: Event, m': Machine)
    requires FlowNext(l, trapReturn, m, e, m') && e.Fork?
    ensures m.kernel.nextId in m'.kernel.tasks && m.kernel.nextId < m'.kernel.nextId
    ensures var f := TaskFlow(m.kernel.nextId);
            f in m'.contexts && m'.contexts[f] == FirstContext(trapReturn, m'.kernel.tasks[m.kernel.nextId].pid)
  {
    hide FirstContext, ForkContext, StackArea, KernelStackTop, TrapCxPpn;
  }

  /** The idle flow resumes, when the task gives up the processor, with the registers it had. */
  lemma IdleResumes(l: Layout, trapReturn: nat, ms: seq<Machine>, events: seq<Event>, i: nat, j: nat)
    requires FlowRun(l, trapReturn, ms, events) && i < j < |events| && events[i].Dispatch?
    requires (events[j].Yield? || events[j].Exit?) && forall m | i < m < j :: !events[m].Yield? && !events[m].Exit?
    ensures ms[j + 1].regs == ms[i].regs
  {
    hide FlowNext, Waits;
    IdleSaved(l, trapReturn, ms[i], ms[i + 1]);
    RunsOn(l, trapReturn, ms, events, i, j);
    ContextsKept(l, trapReturn, ms, events, i + 1, j, Idle);
    IdleLoads(l, trapReturn, ms[j], events[j], ms[j + 1]);
  }

  lemma IdleSaved(l: Layout, trapReturn: nat, m: Machine, m': Machine)
    requires FlowNext(l, trapReturn, m, Dispatch, m')
    ensures Idle in m'.contexts && m'.contexts[Idle] == m.regs && m'.kernel.current.Some?
  {
    hide Next;
    CurrentStep(l, m.kernel, Dispatch, m'.kernel);
  }

  lemma IdleLoads(l: Layout, trapReturn: nat, m: Machine, e: Event, m': Machine)
    requires FlowNext(l, trapReturn, m, e, m') && (e.Yield? || e.Exit?)
    ensures Idle in m.contexts && m'.regs == m.contexts[Idle]
  {
    hide Next;
  }

  lemma {:induction false} RunsOn(l: Layout, trapReturn: nat, ms: seq<Machine>, events: seq<Event>, i: nat, j: nat)
    requires FlowRun(l, trapReturn, ms, events) && i < j < |ms| && ms[i + 1].kernel.current.Some?
    requires forall m | i < m < j :: !events[m].Yield? && !events[m].Exit?
    ensures forall m | i < m <= j :: Waits(ms[m].kernel, Idle)
    decreases j
  {
    hide Next, Switched;
    if i + 1 < j {
      RunsOn(l, trapReturn, ms, events, i, j - 1);
      assert FlowNext(l, trapReturn, ms[j - 1], events[j - 1], ms[j]);
      CurrentStep(l, ms[j - 1].kernel, events[j - 1], ms[j].kernel);
    }
  }
}
