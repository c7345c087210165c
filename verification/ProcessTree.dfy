/** The process tree and the scheduler over the steps of the kernel: who is whose parent, who is
    queued and who runs. */
module ProcessTree {
  import opened FrameAllocation
  import opened KernelModel
  import opened KernelSteps

  ghost predicate StructureOk(k: Kernel) { TreeOk(k) && SchedOk(k) }

  // ---- links that do not change ----

  /** Same tasks with the same parents and children. */
  ghost predicate SameLinks(k: Kernel, k': Kernel) {
    && k'.tasks.Keys == k.tasks.Keys && k'.nextId == k.nextId && k'.initproc == k.initproc
    && forall id | id in k.tasks ::
         && k'.tasks[id].parent == k.tasks[id].parent && k'.tasks[id].children == k.tasks[id].children
         && (k'.tasks[id].status.Zombie? <==> k.tasks[id].status.Zombie?)
  }

  lemma SameLinksKeepTree(k: Kernel, k': Kernel)
    requires TreeOk(k) && SameLinks(k, k')
    ensures TreeOk(k')
  {
    hide Distinct;
    forall id | id in k'.tasks && id != k'.initproc ensures ParentOk(k', id) {
      assert ParentOk(k, id);
    }
    forall p, i | p in k'.tasks && 0 <= i < |k'.tasks[p].children| ensures ChildOk(k', p, k'.tasks[p].children[i]) {
      assert ChildOk(k, p, k.tasks[p].children[i]);
    }
  }

  lemma DispatchKeepsQueue(k: Kernel, k': Kernel)
    requires QueueOk(k) && ReadyQueued(k) && DispatchStep(k, k')
    ensures QueueOk(k') && ReadyQueued(k')
  {
    var h := k.queue[0];
    assert k.queue == [h] + k'.queue;
    assert forall i | 0 <= i < |k'.queue| :: k'.queue[i] == k.queue[i + 1] != h;
    forall id | id in k'.tasks && k'.tasks[id].status.Ready? ensures id in k'.queue {
      assert id in k.queue;
    }
  }

  lemma DispatchKeepsCurrent(k: Kernel, k': Kernel)
    requires CurrentOk(k) && QueueOk(k) && DispatchStep(k, k')
    ensures CurrentOk(k') && SameLinks(k, k')
  {
    hide Distinct;
  }

  lemma DispatchKeepsStructure(k: Kernel, k': Kernel)
    requires StructureOk(k) && DispatchStep(k, k')
    ensures StructureOk(k')
  {
    hide TreeOk, QueueOk, ReadyQueued, CurrentOk, SameLinks, DispatchStep;
    DispatchKeepsQueue(k, k');
    DispatchKeepsCurrent(k, k');
    SameLinksKeepTree(k, k');
  }

  lemma YieldKeepsStructure(k: Kernel, k': Kernel)
    requires StructureOk(k) && YieldStep(k, k')
    ensures StructureOk(k')
  {
    hide TreeOk;
    SameLinksKeepTree(k, k');
    hide SameLinks;
    var c := k.current.value;
    assert forall id | id in k'.tasks && k'.tasks[id].status.Ready? :: id == c || id in k.queue;
    assert forall i | 0 <= i < |k.queue| :: k.queue[i] != c;
  }

  // ---- exit ----

  lemma ExitKeepsSched(k: Kernel, e: Event, k': Kernel)
    requires StructureOk(k) && e.Exit? && ExitStep(k, e, k')
    ensures SchedOk(k')
  {
    hide TreeOk;
  }

  /** The children lists after an exit. */
  lemma ExitLists(k: Kernel, e: Event, k': Kernel, p: nat)
    requires e.Exit? && ExitStep(k, e, k') && p in k.tasks
    ensures k'.tasks.Keys == k.tasks.Keys && p in k'.tasks
    ensures var c := k.current.value;
            k'.tasks[p].children == if p == c then []
                                    else if p == k.initproc then k.tasks[p].children + k.tasks[c].children
                                    else k.tasks[p].children
    ensures var c := k.current.value;
            k'.tasks[p].parent == if p != c && p != k.initproc && p in k.tasks[c].children then Some(k.initproc)
                                  else k.tasks[p].parent
  {}

  /** The new parent of every task after an exit. */
  lemma ExitParent(k: Kernel, e: Event, k': Kernel, id: nat)
    requires TreeOk(k) && e.Exit? && ExitStep(k, e, k') && id in k.tasks && id != k.initproc
    ensures ParentOk(k', id)
  {
    var c := k.current.value;
    assert ParentOk(k, id);
    var p := k.tasks[id].parent.value;
    hide ExitStep, ParentsOk, ChildrenOk, ListsOk;
  }

  lemma ExitChild(k: Kernel, e: Event, k': Kernel, p: nat, i: nat)
    requires TreeOk(k) && e.Exit? && ExitStep(k, e, k') && p in k'.tasks && i < |k'.tasks[p].children|
    ensures ChildOk(k', p, k'.tasks[p].children[i])
  {
    var c := k.current.value;
    var x := k'.tasks[p].children[i];
    if p == k.initproc && i >= |k.tasks[p].children| {
      var j := i - |k.tasks[p].children|;
      assert x == k.tasks[c].children[j];
      assert ChildOk(k, c, k.tasks[c].children[j]);
      assert ParentsOk(k) && ParentOk(k, c);
    } else {
      assert x == k.tasks[p].children[i];
      assert ChildOk(k, p, x);
      ExitLists(k, e, k', x);
    }
    hide ExitStep, ParentsOk, ChildrenOk, ListsOk;
  }

  lemma ExitKeepsLists(k: Kernel, e: Event, k': Kernel)
    requires TreeOk(k) && e.Exit? && ExitStep(k, e, k')
    ensures ListsOk(k') && RootOk(k') && NamesOk(k')
  {
    var c := k.current.value;
    var a, b := k.tasks[k.initproc].children, k.tasks[c].children;
    forall i, j | 0 <= i < |a| && 0 <= j < |b| ensures a[i] != b[j] {
      assert ChildOk(k, k.initproc, a[i]) && ChildOk(k, c, b[j]);
    }
    hide ParentsOk, ChildrenOk;
  }

  /** Exit keeps the tree: the orphans hang under `initproc` and the zombie has no children. */
  lemma ExitKeepsStructure(k: Kernel, e: Event, k': Kernel)
    requires StructureOk(k) && e.Exit? && ExitStep(k, e, k')
    ensures StructureOk(k')
  {
    ExitKeepsSched(k, e, k');
    ExitKeepsLists(k, e, k');
    hide SchedOk, RootOk, NamesOk, ListsOk, ParentOk, ChildOk;
    assert k'.tasks.Keys == k.tasks.Keys;
    hide ExitStep;
    forall id | id in k'.tasks && id != k'.initproc ensures ParentOk(k', id) {
      ExitParent(k, e, k', id);
    }
    forall p, i | p in k'.tasks && 0 <= i < |k'.tasks[p].children| ensures ChildOk(k', p, k'.tasks[p].children[i]) {
      ExitChild(k, e, k', p, i);
    }
  }

  // ---- fork ----

  /** What fork does to tasks, queue and names. */
  ghost predicate Forked(k: Kernel, k': Kernel, child: Task) {
    && HasCurrent(k) && child.status.Ready? && child.parent == k.current && child.children == []
    && k'.tasks == WithChild(k, child) && k'.nextId == k.nextId + 1 && k'.queue == k.queue + [k.nextId]
    && k'.current == k.current && k'.initproc == k.initproc
  }

  lemma ForkKeepsSched(k: Kernel, k': Kernel, child: Task)
    requires NamesOk(k) && SchedOk(k) && Forked(k, k', child)
    ensures SchedOk(k')
  {
    assert k.nextId !in k.tasks;
    assert forall i | 0 <= i < |k.queue| :: k.queue[i] != k.nextId;
  }

  lemma ForkParent(k: Kernel, k': Kernel, child: Task, id: nat)
    requires TreeOk(k) && Forked(k, k', child) && id in k'.tasks && id != k.initproc
    ensures ParentOk(k', id)
  {
    assert k.nextId !in k.tasks;
    if id != k.nextId {
      assert ParentOk(k, id);
    }
    hide ParentsOk, ChildrenOk, ListsOk;
  }

  lemma ForkKeepsLists(k: Kernel, k': Kernel, child: Task)
    requires TreeOk(k) && Forked(k, k', child) && CurrentOk(k)
    ensures ListsOk(k') && RootOk(k') && NamesOk(k')
  {
    var c := k.current.value;
    assert k.nextId !in k.tasks;
    forall i | 0 <= i < |k.tasks[c].children| ensures k.tasks[c].children[i] != k.nextId {
      assert ChildOk(k, c, k.tasks[c].children[i]);
    }
    hide ParentsOk, ChildrenOk;
  }

  lemma ForkKeepsStructure(k: Kernel, k': Kernel, child: Task)
    requires StructureOk(k) && Forked(k, k', child)
    ensures StructureOk(k')
  {
    ForkKeepsSched(k, k', child);
    ForkKeepsLists(k, k', child);
    assert k'.initproc == k.initproc;
    hide SchedOk, RootOk, NamesOk, ListsOk, ParentOk, ChildOk, Forked;
    forall id | id in k'.tasks && id != k'.initproc ensures ParentOk(k', id) {
      ForkParent(k, k', child, id);
    }
  }

  // ---- reap ----

  /** What reaping child `i` does to the tasks. */
  ghost predicate Reaped(k: Kernel, k': Kernel, i: nat) {
    && HasCurrent(k) && i < |CurrentTask(k).children|
    && CurrentTask(k).children[i] in k.tasks && k.tasks[CurrentTask(k).children[i]].status.Zombie?
    && k'.tasks == AfterReap(k, i) && k'.nextId == k.nextId && k'.queue == k.queue
    && k'.current == k.current && k'.initproc == k.initproc
  }

  lemma ReapKeepsSched(k: Kernel, k': Kernel, i: nat)
    requires StructureOk(k) && Reaped(k, k', i)
    ensures SchedOk(k')
  {
    hide TreeOk;
  }

  lemma ReapParent(k: Kernel, k': Kernel, i: nat, id: nat)
    requires TreeOk(k) && Reaped(k, k', i) && CurrentOk(k) && id in k'.tasks && id != k.initproc
    ensures ParentOk(k', id)
  {
    assert ListsOk(k);
    hide RemoveAt, ChildrenOk, Distinct;
    assert ParentOk(k, id);
    hide ParentsOk;
    assert k.tasks[id].parent.value != CurrentTask(k).children[i];
  }

  lemma ReapKeepsLists(k: Kernel, k': Kernel, i: nat)
    requires TreeOk(k) && Reaped(k, k', i) && CurrentOk(k)
    ensures ListsOk(k') && RootOk(k') && NamesOk(k')
  {
    assert ChildOk(k, k.current.value, CurrentTask(k).children[i]);
    hide RemoveAt, ParentsOk, ChildrenOk, Distinct;
  }

  lemma ReapKeepsStructure(k: Kernel, k': Kernel, i: nat)
    requires StructureOk(k) && Reaped(k, k', i)
    ensures StructureOk(k')
  {
    ReapKeepsSched(k, k', i);
    ReapKeepsLists(k, k', i);
    assert k'.initproc == k.initproc;
    hide RootOk, NamesOk, ListsOk, ParentOk, ChildOk, Reaped, QueueOk, ReadyQueued, CurrentOk;
    forall id | id in k'.tasks && id != k'.initproc ensures ParentOk(k', id) {
      ReapParent(k, k', i, id);
    }
  }

  // ---- steps that change neither statuses nor links ----

  ghost predicate SameStructure(k: Kernel, k': Kernel) {
    && k'.tasks.Keys == k.tasks.Keys && k'.nextId == k.nextId && k'.queue == k.queue
    && k'.current == k.current && k'.initproc == k.initproc
    && forall id | id in k.tasks ::
         k'.tasks[id].(space := k.tasks[id].space, trapCxPpn := k.tasks[id].trapCxPpn) == k.tasks[id]
  }

  lemma SameKeepsStructure(k: Kernel, k': Kernel)
    requires StructureOk(k) && SameStructure(k, k')
    ensures StructureOk(k')
  {
    hide TreeOk, Distinct;
    SameLinksKeepTree(k, k');
  }
}
