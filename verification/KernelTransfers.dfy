/** The steps of the kernel that move frames between owners: exit, fork, exec and reaping. */
module KernelTransfers {
  import opened TableModel
  import opened SpaceModel
  import opened MemorySets
  import opened Ledger
  import opened KernelModel
  import opened KernelSteps
  import opened KernelMemory

  // ---- exit ----

  lemma ExitBooks(l: Layout, k: Kernel, e: Event, k': Kernel)
    requires Balanced(BookOf(k), Pool(l)) && e.Exit? && ExitStep(k, e, k')
    requires DataFrames(CurrentTask(k).space.areas) !! CurrentTask(k).space.table.roles.Keys
    ensures Balanced(BookOf(k'), Pool(l))
  {
    hide DataFrames, Balanced, Owned;
    var c := k.current.value;
    var d := DataFrames(k.tasks[c].space.areas);
    WithoutAreas(k.tasks[c].space);
    assert BookOf(k').own.Keys == Owners(k') == Owners(k);
    assert TaskSpace(c) in BookOf(k).own && BookOf(k).own[TaskSpace(c)] == Owned(k.tasks[c].space);
    GiveBalanced(BookOf(k), Pool(l), TaskSpace(c), d);
    assert BookOf(k') == Give(BookOf(k), TaskSpace(c), d);
  }

  lemma WithoutAreas(s: Space)
    requires DataFrames(s.areas) !! s.table.roles.Keys
    ensures Owned(s.(areas := [])) == Owned(s) - DataFrames(s.areas) && DataFrames(s.areas) <= Owned(s)
  {
    NoData();
    hide DataFrames;
  }

  lemma ExitKeepsMemory(l: Layout, k: Kernel, e: Event, k': Kernel)
    requires MemoryOk(l, k) && e.Exit? && ExitStep(k, e, k') && !CurrentTask(k).status.Zombie?
    ensures MemoryOk(l, k')
  {
    hide AreasOk, TableOk, TrapPageOk, TrapContextOk;
    var c := k.current.value;
    assert TaskMemoryOk(l, k.phys.mem, k.kspace.table.root, k.tasks[c]);
    forall id | id in k'.tasks ensures TaskMemoryOk(l, k'.phys.mem, k'.kspace.table.root, k'.tasks[id]) {
      assert TaskMemoryOk(l, k.phys.mem, k.kspace.table.root, k.tasks[id]);
      if id != c {
        SameTaskMemory(l, k.phys.mem, k.kspace.table.root, k.tasks[id], k'.tasks[id]);
      }
    }
  }

  /** Exit gives the data frames of the task back and keeps everything else. */
  lemma ExitKeepsResources(l: Layout, k: Kernel, e: Event, k': Kernel)
    requires ResourcesOk(l, k) && SchedOk(k) && e.Exit? && ExitStep(k, e, k')
    ensures ResourcesOk(l, k')
  {
    hide PidsOk, StacksOk, MemoryOk, TaskMemoryOk, SpaceOk, TrapPageOk, Balanced, BookOf, DataFrames, SchedOk;
    CurrentLive(l, k);
    SameKeepsPids(l, k, k');
    ExitKeepsMemory(l, k, e, k');
    ExitBooks(l, k, e, k');
  }
}
