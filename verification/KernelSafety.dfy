/** The invariant of the kernel over whole runs, and what it means. */
module KernelSafety {
  import opened SpaceModel
  import opened MemorySets
  import opened SpaceCopies
  import opened ElfLoading
  import opened Ledger
  import opened KernelModel
  import opened KernelSteps
  import opened ProcessTree
  import opened KernelMemory
  import opened KernelTransfers
  import opened KernelFork
  import opened KernelExec
  import opened KernelReap

  // ---- one step ----

  lemma StructureStep(l: Layout, k: Kernel, e: Event, k': Kernel)
    requires StructureOk(k) && Next(l, k, e, k')
    ensures StructureOk(k')
  {
    hide StructureOk;
    match e
    case Dispatch => DispatchKeepsStructure(k, k');
    case Yield => YieldKeepsStructure(k, k');
    case Exit(_) => ExitKeepsStructure(k, e, k');
    case Fork(_, _, _, _) => ForkStructure(l, k, e, k');
    case Exec(_, _, _, _, _) => ExecStructure(l, k, e, k');
    case Reap(_, _, _, _) => ReapStructure(l, k, e, k');
    case WaitFails(_) =>
    case UserStore(_, _) =>
      SameKeepsStructure(k, k');
    case SaveWord(_, _) =>
      SameKeepsStructure(k, k');
  }

  lemma ForkStructure(l: Layout, k: Kernel, e: Event, k': Kernel)
    requires StructureOk(k) && e.Fork? && ForkStep(l, k, e, k')
    ensures StructureOk(k')
  {
    hide StructureOk, Copied, Pushed, ForkContext, TrapCxPpn, KernelStackTop, StackArea;
    ForkKeepsStructure(k, k', ForkChildTask(k, e));
  }

  lemma ExecStructure(l: Layout, k: Kernel, e: Event, k': Kernel)
    requires StructureOk(k) && e.Exec? && ExecStep(l, k, e, k')
    ensures StructureOk(k')
  {
    hide StructureOk, Loaded, Loadable, Plan, TrapCxPpn, KernelStackTop, ContextPage, Owned, StackTop;
    SameKeepsStructure(k, k');
  }

  lemma ReapStructure(l: Layout, k: Kernel, e: Event, k': Kernel)
    requires StructureOk(k) && e.Reap? && ReapStep(l, k, e, k')
    ensures StructureOk(k')
  {
    hide StructureOk, UserPage, StoreExitCode, FirstStart, Removed, SpaceOk, Owned, StackStart;
    ReapKeepsStructure(k, k', e.index);
  }

  lemma ResourcesStep(l: Layout, k: Kernel, e: Event, k': Kernel)
    requires LayoutOk(l) && StructureOk(k) && ResourcesOk(l, k) && Next(l, k, e, k')
    ensures ResourcesOk(l, k')
  {
    hide ResourcesOk, SchedOk, RootOk, NamesOk, ParentsOk, ChildrenOk, ListsOk, LayoutOk, DispatchStep, YieldStep,
         ExitStep, ForkStep, ExecStep, ReapStep, UserStoreStep, SaveWordStep, AnyZombie, SameResources;
    match e
    case Dispatch =>
      DispatchSameResources(k, k');
      SameKeepsResources(l, k, k');
    case Yield =>
      YieldSameResources(k, k');
      SameKeepsResources(l, k, k');
    case Exit(_) => ExitKeepsResources(l, k, e, k');
    case Fork(_, _, _, _) => ForkKeepsResources(l, k, e, k');
    case Exec(_, _, _, _, _) => ExecKeepsResources(l, k, e, k');
    case Reap(_, _, _, _) => ReapKeepsResources(l, k, e, k');
    case WaitFails(_) =>
    case UserStore(_, _) => UserStoreKeepsResources(l, k, e, k');
    case SaveWord(_, _) => SaveWordKeepsResources(l, k, e, k');
  }

  lemma DispatchSameResources(k: Kernel, k': Kernel)
    requires SchedOk(k) && DispatchStep(k, k')
    ensures SameResources(k, k')
  {}

  lemma YieldSameResources(k: Kernel, k': Kernel)
    requires SchedOk(k) && YieldStep(k, k')
    ensures SameResources(k, k')
  {}

  /** Every step of the kernel keeps the invariant. */
  lemma NextKeepsInv(l: Layout, k: Kernel, e: Event, k': Kernel)
    requires Inv(l, k) && Next(l, k, e, k')
    ensures Inv(l, k')
  {
    hide TreeOk, SchedOk, LayoutOk, PidsOk, StacksOk, MemoryOk, Balanced, BookOf, Next;
    StructureStep(l, k, e, k');
    ResourcesStep(l, k, e, k');
  }

  // ---- runs ----

  /** A run: states with the events between them. */
  ghost predicate Run(l: Layout, states: seq<Kernel>, events: seq<Event>) {
    && |states| == |events| + 1
    && forall i | 0 <= i < |events| :: Next(l, states[i], events[i], states[i + 1])
  }

  /** Every state of every run from a sound state is sound. */
  lemma {:induction false} RunKeepsInv(l: Layout, states: seq<Kernel>, events: seq<Event>, i: nat)
    requires Run(l, states, events) && Inv(l, states[0]) && i < |states|
    ensures Inv(l, states[i])
  {
    hide Inv, Next;
    if i > 0 {
      RunKeepsInv(l, states, events, i - 1);
      NextKeepsInv(l, states[i - 1], events[i - 1], states[i]);
    }
  }
}
