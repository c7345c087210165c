/** What the invariant promises about the process tree, the reference counts, the scheduler and
    the kernel address space, in every state and over every run. */
module KernelProcesses {
  import opened Address
  import opened PhysicalMemory
  import opened PageTableEntries
  import opened FrameAllocation
  import opened TableModel
  import opened HardwareWalk
  import opened SpaceModel
  import opened MemorySets
  import opened SpaceCopies
  import opened ElfLoading
  import opened Ledger
  import opened KernelModel
  import opened KernelSteps
  import opened ProcessTree
  import opened KernelFork
  import opened KernelReap
  import opened KernelSafety

  // ---- the tree ----

  /** Following `n` parent links from `id` leads to `initproc`. */
  ghost predicate LeadsToInit(k: Kernel, id: nat, n: nat)
    decreases n
  {
    if n == 0 then id == k.initproc
    else id in k.tasks && k.tasks[id].parent.Some? && LeadsToInit(k, k.tasks[id].parent.value, n - 1)
  }

  /** Every task descends from `initproc`: parent links have no cycle and no dead end. */
  lemma {:induction false} Ancestry(k: Kernel, id: nat) returns (n: nat)
    requires TreeOk(k) && id in k.tasks
    ensures LeadsToInit(k, id, n) && n <= id
    decreases id
  {
    if id == k.initproc {
      n := 0;
    } else {
      assert ParentOk(k, id);
      n := Ancestry(k, k.tasks[id].parent.value);
      n := n + 1;
    }
  }

  /** Every task but `initproc` is in exactly one children list, once, and it is its parent's. */
  lemma OneParent(k: Kernel, id: nat, p: nat, i: nat, q: nat, j: nat)
    requires TreeOk(k) && p in k.tasks && q in k.tasks
    requires i < |k.tasks[p].children| && j < |k.tasks[q].children|
    requires k.tasks[p].children[i] == id == k.tasks[q].children[j]
    ensures p == q && i == j && k.tasks[id].parent == Some(p) && id != k.initproc
  {
    assert ChildOk(k, p, k.tasks[p].children[i]) && ChildOk(k, q, k.tasks[q].children[j]);
    assert Distinct(k.tasks[p].children);
  }

  // ---- reference counts ----

  /** The places that hold a strong reference to a task between two steps. */
  datatype Ref = InQueue(pos: nat) | OnProcessor | ChildOf(parent: nat, pos: nat) | InitStatic

  ghost function QueueRefs(k: Kernel, id: nat): set<Ref> {
    set i | 0 <= i < |k.queue| && k.queue[i] == id :: InQueue(i)
  }

  ghost function ChildRefs(k: Kernel, id: nat): set<Ref> {
    set p, i | p in k.tasks && 0 <= i < |k.tasks[p].children| && k.tasks[p].children[i] == id :: ChildOf(p, i)
  }

  /** The references that do not depend on scheduling, and those that do. */
  ghost function HomeRefs(k: Kernel, id: nat): set<Ref> {
    ChildRefs(k, id) + if id == k.initproc then {InitStatic} else {}
  }

  ghost function TurnRefs(k: Kernel, id: nat): set<Ref> {
    QueueRefs(k, id) + if k.current == Some(id) then {OnProcessor} else {}
  }

  /** `Arc::strong_count` is the number of these references. */
  ghost function Refs(k: Kernel, id: nat): set<Ref> { HomeRefs(k, id) + TurnRefs(k, id) }

  lemma ChildRefUnique(k: Kernel, id: nat) returns (p: nat, i: nat)
    requires TreeOk(k) && id in k.tasks && id != k.initproc
    ensures p in k.tasks && i < |k.tasks[p].children| && k.tasks[p].children[i] == id
    ensures ChildRefs(k, id) == {ChildOf(p, i)}
  {
    assert ParentOk(k, id);
    p := k.tasks[id].parent.value;
    i :| 0 <= i < |k.tasks[p].children| && k.tasks[p].children[i] == id;
    forall r | r in ChildRefs(k, id) ensures r == ChildOf(p, i) {
      OneParent(k, id, r.parent, r.pos, p, i);
    }
  }

  lemma QueueRefUnique(k: Kernel, id: nat)
    requires SchedOk(k) && id in k.tasks
    ensures !k.tasks[id].status.Ready? ==> QueueRefs(k, id) == {}
    ensures k.tasks[id].status.Ready? ==> exists i :: QueueRefs(k, id) == {InQueue(i)}
  {
    if k.tasks[id].status.Ready? {
      assert id in k.queue;
      var i :| 0 <= i < |k.queue| && k.queue[i] == id;
      assert QueueRefs(k, id) == {InQueue(i)};
    }
  }

  /** The one reference that does not depend on scheduling: the parent's, or the static one to `initproc`. */
  lemma HomeRef(k: Kernel, id: nat) returns (r: Ref)
    requires TreeOk(k) && id in k.tasks
    ensures r.ChildOf? || r.InitStatic?
    ensures HomeRefs(k, id) == {r}
  {
    if id == k.initproc {
      assert ChildRefs(k, id) == {};
      r := InitStatic;
    } else {
      var p, i := ChildRefUnique(k, id);
      r := ChildOf(p, i);
    }
  }

  lemma TurnRef(k: Kernel, id: nat)
    requires SchedOk(k) && id in k.tasks
    ensures if k.tasks[id].status.Zombie? then TurnRefs(k, id) == {}
            else exists r: Ref :: TurnRefs(k, id) == {r} && !r.ChildOf? && !r.InitStatic?
  {
    QueueRefUnique(k, id);
    hide QueueOk, ReadyQueued, QueueRefs;
    if k.tasks[id].status.Ready? {
      var j :| QueueRefs(k, id) == {InQueue(j)};
      assert TurnRefs(k, id) == {InQueue(j)};
    } else if k.tasks[id].status.Running? {
      assert TurnRefs(k, id) == {OnProcessor};
    }
  }

  /** A live task is referenced twice: by its parent, or in the case of `initproc` by the static, and by the
      queue or the processor. A zombie is referenced by its parent alone. */
  lemma StrongCounts(k: Kernel, id: nat)
    requires StructureOk(k) && id in k.tasks
    ensures |Refs(k, id)| == if k.tasks[id].status.Zombie? then 1 else 2
  {
    var home := HomeRef(k, id);
    TurnRef(k, id);
    hide TreeOk, SchedOk, HomeRefs, TurnRefs;
    if !k.tasks[id].status.Zombie? {
      var r: Ref :| TurnRefs(k, id) == {r} && !r.ChildOf? && !r.InitStatic?;
      assert |{home} + {r}| == 2;
    }
  }

  /** The assertion of `sys_waitpid`: once the zombie is out of the children list, the reference
      just taken from there is the only one. */
  lemma ReapedUniquely(k: Kernel, i: nat)
    requires StructureOk(k) && HasCurrent(k) && i < |CurrentTask(k).children|
    requires CurrentTask(k).children[i] in k.tasks && k.tasks[CurrentTask(k).children[i]].status.Zombie?
    ensures Refs(k, CurrentTask(k).children[i]) == {ChildOf(k.current.value, i)}
  {
    var z := CurrentTask(k).children[i];
    assert ChildOk(k, k.current.value, z);
    var p, j := ChildRefUnique(k, z);
    QueueRefUnique(k, z);
    hide TreeOk, QueueOk, ReadyQueued, QueueRefs, ChildRefs;
  }

  /** For whom `sys_waitpid` waits: with -1 for any child, with an identifier for the child that has it,
      in terms of the parent links; no other number names anyone. */
  lemma WaitsFor(k: Kernel, pid: int)
    requires TreeOk(k) && HasCurrent(k)
    ensures AnyChild(k, -1) <==> CurrentTask(k).children != []
    ensures pid < -1 ==> !AnyChild(k, pid)
    ensures AnyChild(k, pid) <==> exists id :: id in k.tasks && k.tasks[id].parent == k.current
                                               && (pid == -1 || k.tasks[id].pid == pid)
    ensures AnyZombie(k, pid) <==> exists id :: id in k.tasks && k.tasks[id].parent == k.current
                                                && k.tasks[id].status.Zombie? && (pid == -1 || k.tasks[id].pid == pid)
  {
    assert k.initproc in k.tasks && k.tasks[k.initproc].parent.None?;
    hide RootOk, NamesOk, ListsOk;
    var c, children := k.current.value, CurrentTask(k).children;
    forall i | 0 <= i < |children| ensures ChildOk(k, c, children[i]) {}
    if children != [] {
      assert AnyChild(k, -1) by { assert children[0] in k.tasks; }
    }
    forall id | id in k.tasks && k.tasks[id].parent == Some(c) ensures id in children {
      assert id != k.initproc;
      assert ParentOk(k, id);
    }
    if id :| id in k.tasks && k.tasks[id].parent == k.current && (pid == -1 || k.tasks[id].pid == pid) {
      var i :| 0 <= i < |children| && children[i] == id;
    }
    if id :| id in k.tasks && k.tasks[id].parent == k.current && k.tasks[id].status.Zombie?
             && (pid == -1 || k.tasks[id].pid == pid) {
      var i :| 0 <= i < |children| && children[i] == id;
      assert ZombieAt(k, pid, i);
    }
  }

  // ---- scheduling ----

  /** Whenever no task runs the queue is not empty: the idle loop always finds a task. */
  lemma IdleFindsTask(k: Kernel)
    requires StructureOk(k) && k.current.None?
    ensures |k.queue| > 0
  {
    hide ParentsOk, ChildrenOk, ListsOk;
    assert k.initproc in k.queue;
  }

  /** A dispatch takes the head of the queue; every other step leaves the queue in front alone. */
  lemma QueueStep(l: Layout, k: Kernel, e: Event, k': Kernel)
    requires Next(l, k, e, k')
    ensures if e.Dispatch? then |k.queue| > 0 && k'.queue == k.queue[1..] && k'.current == Some(k.queue[0])
            else |k'.queue| >= |k.queue| && k'.queue[..|k.queue|] == k.queue
  {
    hide Copied, Pushed, Loaded, Loadable, Plan, ContextPage, KernelStackTop, TrapCxPpn, ForkContext, StoreExitCode,
         Removed, SpaceOk, Owned, DataFrames, AfterExit, AfterReap, WithChild, UserPage, FirstStart, StackArea,
         StackStart, StackTop, Physical, AnyZombie, SetEntry, PutByte, FrameAt, PidDealloc;
  }

  function Dispatches(events: seq<Event>): nat {
    if events == [] then 0 else Dispatches(events[..|events| - 1]) + (if events[|events| - 1].Dispatch? then 1 else 0)
  }

  /** Fairness: a task at position `pos` of the ready queue stays in the queue, one place further
      to the front with every dispatch and with nothing else, until dispatch number `pos + 1`
      puts it on the processor. */
  lemma {:induction false} FifoOrder(l: Layout, states: seq<Kernel>, events: seq<Event>, pos: nat, n: nat)
    requires Run(l, states, events) && pos < |states[0].queue| && n <= |events|
    requires Dispatches(events[..n]) <= pos
    ensures var d := Dispatches(events[..n]);
            pos - d < |states[n].queue| && states[n].queue[pos - d] == states[0].queue[pos]
  {
    hide Next;
    if n > 0 {
      var es := events[..n];
      assert es[..n - 1] == events[..n - 1] && es[n - 1] == events[n - 1];
      FifoOrder(l, states, events, pos, n - 1);
      QueueStep(l, states[n - 1], events[n - 1], states[n]);
      var q, q' := states[n - 1].queue, states[n].queue;
      var d := Dispatches(events[..n - 1]);
      if !events[n - 1].Dispatch? {
        assert q'[pos - d] == q'[..|q|][pos - d];
      }
    }
  }

  lemma FifoDispatched(l: Layout, states: seq<Kernel>, events: seq<Event>, pos: nat, n: nat)
    requires Run(l, states, events) && pos < |states[0].queue| && n < |events|
    requires Dispatches(events[..n]) == pos && events[n].Dispatch?
    ensures states[n + 1].current == Some(states[0].queue[pos])
  {
    hide Next;
    FifoOrder(l, states, events, pos, n);
    QueueStep(l, states[n], events[n], states[n + 1]);
  }

  // ---- processes over runs ----

  lemma TasksStep(l: Layout, k: Kernel, e: Event, k': Kernel)
    requires Next(l, k, e, k') && NamesOk(k)
    ensures k.nextId <= k'.nextId
    ensures e.Fork? ==> k'.tasks.Keys == k.tasks.Keys + {k.nextId} && k.nextId !in k.tasks && k'.nextId == k.nextId + 1
    ensures e.Reap? ==> HasCurrent(k) && e.index < |CurrentTask(k).children|
                        && CurrentTask(k).children[e.index] in k.tasks
                        && k'.tasks.Keys == k.tasks.Keys - {CurrentTask(k).children[e.index]}
    ensures !e.Fork? && !e.Reap? ==> k'.tasks.Keys == k.tasks.Keys
  {
    hide Copied, Pushed, Loaded, Loadable, Plan, ContextPage, KernelStackTop, TrapCxPpn, ForkContext, StoreExitCode,
         Removed, SpaceOk, Owned, DataFrames, UserPage, FirstStart, StackArea, StackStart, StackTop, Physical,
         AnyZombie, SetEntry, PutByte, FrameAt, PidDealloc, RemoveAt;
  }

  /** What a step does to the identity of a task that stays: nothing to its identifier; its parent changes only
      to `initproc`, when the parent exits; and its children stay in their order, a new one at the end, the orphans
      of an exit at the end of the list of `initproc`, a reaped one taken out. */
  lemma TaskKept(l: Layout, k: Kernel, e: Event, k': Kernel, p: nat)
    requires NamesOk(k) && CurrentOk(k) && Next(l, k, e, k') && p in k.tasks && p in k'.tasks
    ensures var t, t', runs := k.tasks[p], k'.tasks[p], k.current == Some(p);
            && t'.pid == t.pid
            && t'.parent == (if e.Exit? && p != k.initproc && !runs && p in CurrentTask(k).children
                             then Some(k.initproc) else t.parent)
            && t'.children == (if e.Fork? && runs then t.children + [k.nextId]
                               else if e.Exit? && runs then []
                               else if e.Exit? && p == k.initproc then t.children + CurrentTask(k).children
                               else if e.Reap? && runs then t.children[..e.index] + t.children[e.index + 1..]
                               else t.children)
            && t'.exitCode == (if e.Exit? && runs then e.code else t.exitCode)
  {
    if e.Exit? || e.Reap? || e.Fork? {
      StepHasTask(l, k, e, k');
    }
    hide Copied, Pushed, Loaded, Loadable, Plan, ContextPage, KernelStackTop, TrapCxPpn, ForkContext, StoreExitCode,
         Removed, SpaceOk, Owned, DataFrames, UserPage, FirstStart, StackArea, StackStart, StackTop, Physical,
         AnyZombie, SetEntry, PutByte, FrameAt, PidDealloc, Distinct;
  }

  lemma StepHasTask(l: Layout, k: Kernel, e: Event, k': Kernel)
    requires Next(l, k, e, k') && (e.Exit? || e.Reap? || e.Fork?)
    ensures HasCurrent(k) && (e.Reap? ==> e.index < |CurrentTask(k).children|)
  {
    hide Copied, Pushed, ForkContext, StoreExitCode, Removed, SpaceOk, Owned, DataFrames, UserPage, FirstStart,
         StackArea, StackStart, AfterExit, AfterReap, WithChild;
  }

  function Forks(events: seq<Event>): nat {
    if events == [] then 0 else Forks(events[..|events| - 1]) + (if events[|events| - 1].Fork? then 1 else 0)
  }

  function Reaps(events: seq<Event>): nat {
    if events == [] then 0 else Reaps(events[..|events| - 1]) + (if events[|events| - 1].Reap? then 1 else 0)
  }

  /** Processes are conserved: what was forked has been reaped or still exists. */
  lemma {:induction false} ProcessesConserved(l: Layout, states: seq<Kernel>, events: seq<Event>, n: nat)
    requires Run(l, states, events) && Inv(l, states[0]) && n <= |events|
    ensures |states[0].tasks| + Forks(events[..n]) == |states[n].tasks| + Reaps(events[..n])
  {
    hide Next, Inv;
    if n > 0 {
      var es := events[..n];
      assert es[..n - 1] == events[..n - 1] && es[n - 1] == events[n - 1];
      ProcessesConserved(l, states, events, n - 1);
      RunKeepsInv(l, states, events, n - 1);
      InvNames(l, states[n - 1]);
      TasksStep(l, states[n - 1], events[n - 1], states[n]);
      var a, b := states[n - 1].tasks, states[n].tasks;
      assert |a| == |a.Keys| && |b| == |b.Keys|;
    }
  }

  lemma InvNames(l: Layout, k: Kernel)
    requires Inv(l, k)
    ensures NamesOk(k) && k.nextId !in k.tasks && forall id | id in k.tasks :: id < k.nextId
  {}

  /** A task that is gone never comes back: its name is not given again. */
  lemma {:induction false} GoneStaysGone(l: Layout, states: seq<Kernel>, events: seq<Event>, i: nat, j: nat, id: nat)
    requires Run(l, states, events) && Inv(l, states[0]) && i <= j < |states|
    requires id < states[i].nextId && id !in states[i].tasks
    ensures id < states[j].nextId && id !in states[j].tasks
    decreases j
  {
    hide Next, Inv;
    if i < j {
      GoneStaysGone(l, states, events, i, j - 1, id);
      RunKeepsInv(l, states, events, j - 1);
      InvNames(l, states[j - 1]);
      TasksStep(l, states[j - 1], events[j - 1], states[j]);
    }
  }

  ghost predicate ReapsTask(k: Kernel, e: Event, id: nat) {
    e.Reap? && HasCurrent(k) && e.index < |CurrentTask(k).children| && CurrentTask(k).children[e.index] == id
  }

  /** No task is reaped twice. */
  lemma ReapedOnce(l: Layout, states: seq<Kernel>, events: seq<Event>, i: nat, j: nat, id: nat)
    requires Run(l, states, events) && Inv(l, states[0]) && i < |events| && j < |events|
    requires ReapsTask(states[i], events[i], id) && ReapsTask(states[j], events[j], id)
    ensures i == j
  {
    var a, b := if i <= j then i else j, if i <= j then j else i;
    hide Next, Inv, NamesOk;
    RunKeepsInv(l, states, events, a);
    RunKeepsInv(l, states, events, b);
    InvNames(l, states[a]);
    InvNames(l, states[b]);
    TasksStep(l, states[a], events[a], states[a + 1]);
    TasksStep(l, states[b], events[b], states[b + 1]);
    if a < b {
      GoneStaysGone(l, states, events, a + 1, b, id);
    }
  }

  lemma ZombieStepIn(l: Layout, k: Kernel, e: Event, k': Kernel, id: nat)
    requires QueueOk(k) && CurrentOk(k) && NamesOk(k) && Next(l, k, e, k')
    requires id in k.tasks && id in k'.tasks && k.tasks[id].status.Zombie?
    ensures k'.tasks[id].status.Zombie? && k'.tasks[id].exitCode == k.tasks[id].exitCode
  {
    hide Copied, Pushed, Loaded, Loadable, Plan, ContextPage, KernelStackTop, TrapCxPpn, ForkContext, StoreExitCode,
         Removed, SpaceOk, Owned, DataFrames, UserPage, FirstStart, StackArea, StackStart, StackTop, Physical,
         AnyZombie, SetEntry, PutByte, FrameAt, PidDealloc, RemoveAt, Distinct;
  }

  /** A zombie keeps the code it exited with until it is reaped. */
  lemma ZombieStep(l: Layout, k: Kernel, e: Event, k': Kernel, id: nat)
    requires Inv(l, k) && Next(l, k, e, k') && id in k.tasks && id in k'.tasks && k.tasks[id].status.Zombie?
    ensures k'.tasks[id].status.Zombie? && k'.tasks[id].exitCode == k.tasks[id].exitCode
  {
    hide LayoutOk, PidsOk, StacksOk, MemoryOk, Balanced, BookOf, RootOk, NamesOk, ParentsOk, ChildrenOk, ListsOk,
         QueueOk, ReadyQueued, CurrentOk, Next;
    ZombieStepIn(l, k, e, k', id);
  }

  lemma {:induction false} ZombieKeepsCode(l: Layout, states: seq<Kernel>, events: seq<Event>, i: nat, j: nat, id: nat)
    requires Run(l, states, events) && Inv(l, states[0]) && i <= j < |states|
    requires id in states[i].tasks && id in states[j].tasks && states[i].tasks[id].status.Zombie?
    ensures states[j].tasks[id].status.Zombie? && states[j].tasks[id].exitCode == states[i].tasks[id].exitCode
    decreases j
  {
    hide Next, Inv, NamesOk;
    if i < j {
      RunKeepsInv(l, states, events, i);
      RunKeepsInv(l, states, events, j - 1);
      InvNames(l, states[i]);
      if id !in states[j - 1].tasks {
        RunKeepsInv(l, states, events, j - 1);
        NamesGrow(l, states, events, i, j - 1);
        GoneStaysGone(l, states, events, j - 1, j, id);
      }
      ZombieKeepsCode(l, states, events, i, j - 1, id);
      ZombieStep(l, states[j - 1], events[j - 1], states[j], id);
    }
  }

  lemma {:induction false} NamesGrow(l: Layout, states: seq<Kernel>, events: seq<Event>, i: nat, j: nat)
    requires Run(l, states, events) && Inv(l, states[0]) && i <= j < |states|
    ensures states[i].nextId <= states[j].nextId
    decreases j
  {
    hide Next, Inv;
    if i < j {
      NamesGrow(l, states, events, i, j - 1);
      RunKeepsInv(l, states, events, j - 1);
      InvNames(l, states[j - 1]);
      TasksStep(l, states[j - 1], events[j - 1], states[j]);
    }
  }

  /** The exit code of the task becomes that of the zombie. */
  lemma ExitRecordsCode(k: Kernel, e: Event, k': Kernel)
    requires e.Exit? && ExitStep(k, e, k')
    ensures k.current.value in k'.tasks && k'.tasks[k.current.value].status.Zombie?
    ensures k'.tasks[k.current.value].exitCode == e.code
  {}

  // ---- kernel space ----

  /** Page `v` belongs to the stack of a process that exists. */
  ghost predicate InSomeStack(live: set<nat>, v: nat) {
    exists pid :: pid in live && Covers(StackArea(pid), v)
  }

  lemma AreaIsSectionOrStack(l: Layout, areas: seq<MapArea>, live: set<nat>, i: nat, v: nat)
    requires StackList(l, areas, live) && |l.sections| == 5 && i < |areas| && Covers(areas[i], v)
    ensures InSomeArea(l.sections, v) || InSomeStack(live, v)
  {
    hide StackStart, HasStack;
    if i < 5 {
      assert areas[i] == areas[..5][i] == l.sections[i];
    } else {
      assert StackOfOne(areas[i], live);
      var pid :| pid in live && IsStack(areas[i], pid);
      assert Covers(StackArea(pid), v);
    }
  }

  lemma StackIsArea(l: Layout, areas: seq<MapArea>, live: set<nat>, v: nat)
    requires StackList(l, areas, live) && InSomeStack(live, v)
    ensures InSomeArea(areas, v)
  {
    hide StackStart, StackOfOne;
    var pid :| pid in live && Covers(StackArea(pid), v);
    assert HasStack(areas, pid);
    var i :| 5 <= i < |areas| && IsStack(areas[i], pid);
    assert Covers(areas[i], v);
  }

  lemma SectionIsArea(l: Layout, areas: seq<MapArea>, live: set<nat>, v: nat)
    requires StackList(l, areas, live) && |l.sections| == 5 && InSomeArea(l.sections, v)
    ensures InSomeArea(areas, v)
  {
    hide StackOfOne, HasStack;
    var i :| 0 <= i < |l.sections| && Covers(l.sections[i], v);
    assert areas[i] == areas[..5][i];
    assert Covers(areas[i], v);
  }

  /** The areas of kernel space cover the sections and the live stacks, and nothing else. */
  lemma KernelAreas(l: Layout, areas: seq<MapArea>, live: set<nat>, v: nat)
    requires StackList(l, areas, live) && |l.sections| == 5
    ensures InSomeArea(areas, v) <==> InSomeArea(l.sections, v) || InSomeStack(live, v)
  {
    hide StackList, InSomeStack;
    if InSomeArea(areas, v) {
      var i :| 0 <= i < |areas| && Covers(areas[i], v);
      AreaIsSectionOrStack(l, areas, live, i, v);
    }
    if InSomeStack(live, v) {
      StackIsArea(l, areas, live, v);
    }
    if InSomeArea(l.sections, v) {
      SectionIsArea(l, areas, live, v);
    }
  }

  /** The pages of kernel space are the trampoline, the sections and the stacks of the processes
      that exist: the page table has no other entry and misses none of these. */
  lemma KernelPages(l: Layout, k: Kernel, v: nat)
    requires Inv(l, k)
    ensures v in k.kspace.table.flat
            <==> v == TRAMPOLINE_VPN || InSomeArea(l.sections, v) || InSomeStack(LivePids(k.tasks), v)
  {
    hide TreeOk, SchedOk, PidsOk, TableOk, TaskMemoryOk, Balanced, BookOf, LivePids, StackList, InSomeStack, ShapesOk,
         DataFrames, InjectiveFrames, DisjointAreas, LeafPte;
    KernelAreas(l, k.kspace.areas, LivePids(k.tasks), v);
  }

  /** Once the same processes are alive again, exactly the same pages are mapped in kernel space,
      whatever stacks came and went in between. */
  lemma KernelSpaceRestored(l: Layout, k: Kernel, k': Kernel, v: nat)
    requires Inv(l, k) && Inv(l, k') && LivePids(k.tasks) == LivePids(k'.tasks)
    ensures v in k.kspace.table.flat <==> v in k'.kspace.table.flat
  {
    hide Inv, LivePids;
    KernelPages(l, k, v);
    KernelPages(l, k', v);
  }

  /** Every frame the allocator manages is mapped to itself, readable and writable, in kernel space. */
  lemma PoolIdentityMapped(l: Layout, k: Kernel, p: nat)
    requires Inv(l, k) && p in Pool(l)
    ensures p in k.kspace.table.flat && k.kspace.table.flat[p] == LeafPte(p, RW)
  {
    hide TreeOk, SchedOk, PidsOk, TableOk, TaskMemoryOk, Balanced, BookOf, LivePids, DataFrames, InjectiveFrames,
         DisjointAreas, NothingElse, LeafPte;
    assert k.kspace.areas[4] == k.kspace.areas[..5][4] == l.sections[4];
    assert Covers(k.kspace.areas[4], p);
  }

  lemma GuardUnmapped(l: Layout, k: Kernel, p: nat)
    requires Inv(l, k) && p in LivePids(k.tasks)
    ensures PidFits(p) && StackStart(p) > l.hi && StackStart(p) - 1 !in k.kspace.table.flat
  {
    hide TreeOk, SchedOk, StacksOk, MemoryOk, Balanced, BookOf, LivePids, LayoutOk, PidsOk, StackStart, PidFits;
    LivePidsBounded(l, k);
    MemoryBoundsPids(l, p);
    KernelPages(l, k, StackStart(p) - 1);
    SectionsLow(l, StackStart(p) - 1);
    forall r | r in LivePids(k.tasks) ensures !Covers(StackArea(r), StackStart(p) - 1) {
      GuardBelow(p, r);
    }
    assert !InSomeStack(LivePids(k.tasks), StackStart(p) - 1);
    GuardIsNotTop(p);
  }

  lemma GuardIsNotTop(p: nat)
    requires PidFits(p) && StackStart(p) > 0
    ensures StackStart(p) - 1 != TRAMPOLINE_VPN
  {}

  lemma GuardBelow(p: nat, r: nat)
    requires PidFits(p) && PidFits(r) && StackStart(p) > 0
    ensures !Covers(StackArea(r), StackStart(p) - 1)
  {}

  /** Kernel stacks of different processes share no page, and the page below each is not mapped. */
  lemma StacksGuarded(l: Layout, k: Kernel, a: nat, b: nat)
    requires Inv(l, k) && a in k.tasks && b in k.tasks && a != b
    ensures var p, q := k.tasks[a].pid, k.tasks[b].pid;
            && p != q && (forall v: nat | Covers(StackArea(p), v) :: !Covers(StackArea(q), v) && v != TRAMPOLINE_VPN)
            && StackStart(p) > l.hi && StackStart(p) - 1 !in k.kspace.table.flat
  {
    hide TreeOk, SchedOk, StacksOk, MemoryOk, Balanced, BookOf, LivePids, LayoutOk, PidSetOk;
    var p, q := k.tasks[a].pid, k.tasks[b].pid;
    assert PidsDistinct(k.tasks);
    PidLive(k.tasks, a);
    PidLive(k.tasks, b);
    GuardUnmapped(l, k, p);
    GuardUnmapped(l, k, q);
    forall v: nat | Covers(StackArea(p), v) ensures !Covers(StackArea(q), v) && v != TRAMPOLINE_VPN {
      StacksApart(p, q, v);
    }
  }

  lemma SectionsLow(l: Layout, v: nat)
    requires LayoutOk(l) && v >= l.hi
    ensures !InSomeArea(l.sections, v)
  {}
}
