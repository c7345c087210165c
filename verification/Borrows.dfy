/** The run-time borrow flags of `UPSafeCell` (os/src/sync/up.rs): which cells each step of the
    kernel borrows while it holds which others (os/src/task/mod.rs, os/src/task/processor.rs,
    os/src/task/task.rs, os/src/task/pid.rs, os/src/syscall/process.rs), and that no step ever
    borrows a cell twice. */
module Borrows {
  import opened KernelProcesses
  import opened FrameAllocation
  import opened KernelModel
  import SpaceModel
  import opened KernelSteps
  import opened StepFacts

  datatype Cell = Inner(id: nat) | Processor | Manager | PidCell | FrameCell | KernelSpaceCell

  datatype Action = Acquire(cell: Cell) | Release(cell: Cell)

  /** The flags of the borrowed cells after some actions; `None` stands for the panic of
      `exclusive_access` on a cell that is already borrowed. */
  function Flags(held: set<Cell>, actions: seq<Action>): Option<set<Cell>>
    decreases |actions|
  {
    if actions == [] then Some(held)
    else
      match actions[0]
      case Acquire(c) => if c in held then None else Flags(held + {c}, actions[1..])
      case Release(c) => Flags(held - {c}, actions[1..])
  }

  /** Guards in the order in which they are taken: the scope of each, and what follows it. */
  datatype Script = Done | Borrow(cell: Cell, inside: Script, rest: Script)

  function Actions(s: Script): seq<Action> {
    match s
    case Done => []
    case Borrow(c, inside, rest) => [Acquire(c)] + Actions(inside) + [Release(c)] + Actions(rest)
  }

  /** No guard of the script is taken while its cell is held. */
  predicate Safe(held: set<Cell>, s: Script)
    decreases s
  {
    match s
    case Done => true
    case Borrow(c, inside, rest) => c !in held && Safe(held + {c}, inside) && Safe(held, rest)
  }

  lemma {:induction false} FlagsThen(held: set<Cell>, s: Script, after: seq<Action>)
    ensures Flags(held, Actions(s) + after) == if Safe(held, s) then Flags(held, after) else None
    decreases s
  {
    match s
    case Done => assert Actions(s) + after == after;
    case Borrow(c, inside, rest) =>
      var tail := [Release(c)] + (Actions(rest) + after);
      assert (Actions(s) + after)[1..] == Actions(inside) + tail;
      if c !in held {
        FlagsThen(held + {c}, inside, tail);
        assert tail[1..] == Actions(rest) + after;
        assert held + {c} - {c} == held;
        FlagsThen(held, rest, after);
      }
  }

  /** The flags machine gets through a script exactly when the script is safe, and then every
      cell is free again; otherwise it panics. */
  lemma FlagsExact(s: Script)
    ensures Flags({}, Actions(s)) == if Safe({}, s) then Some({}) else None
  {
    assert Actions(s) + [] == Actions(s);
    FlagsThen({}, s, []);
  }

  // ---- building scripts ----

  /** A short borrow, released before anything else is borrowed. */
  function Touch(c: Cell, rest: Script): Script { Borrow(c, Done, rest) }

  /** `n` short borrows of one cell, as of the frame allocator for `n` frames. */
  function Many(n: nat, c: Cell, rest: Script): Script { if n == 0 then rest else Touch(c, Many(n - 1, c, rest)) }

  /** A short borrow of each task in turn. */
  function Each(ids: seq<nat>, rest: Script): Script {
    if ids == [] then rest else Touch(Inner(ids[0]), Each(ids[1..], rest))
  }

  lemma SafeTouch(held: set<Cell>, c: Cell, rest: Script)
    ensures Safe(held, Touch(c, rest)) <==> c !in held && Safe(held, rest)
  {
    assert Safe(held + {c}, Done);
  }

  lemma {:induction false} SafeMany(held: set<Cell>, n: nat, c: Cell, rest: Script)
    ensures Safe(held, Many(n, c, rest)) <==> (n == 0 || c !in held) && Safe(held, rest)
  {
    if n > 0 {
      SafeMany(held, n - 1, c, rest);
    }
  }

  lemma {:induction false} SafeEach(held: set<Cell>, ids: seq<nat>, rest: Script)
    ensures Safe(held, Each(ids, rest)) <==> (forall i | 0 <= i < |ids| :: Inner(ids[i]) !in held) && Safe(held, rest)
  {
    if ids != [] {
      SafeEach(held, ids[1..], rest);
      assert forall i | 0 < i < |ids| :: ids[i] == ids[1..][i - 1];
    }
  }

  // ---- the steps ----

  /** How many frames a step takes or gives back, in the places where it does so. */
  datatype Frames = Frames(first: nat, second: nat)

  /** `run_tasks`, one round. */
  function DispatchScript(id: nat): Script { Borrow(Processor, Touch(Manager, Touch(Inner(id), Done)), Done) }

  /** `suspend_current_and_run_next` */
  function YieldScript(c: nat): Script { Touch(Processor, Touch(Inner(c), Touch(Manager, Touch(Processor, Done)))) }

  /** `exit_current_and_run_next`: the task, then `initproc`, then each child in turn. */
  function ExitScript(c: nat, init: nat, children: seq<nat>, n: Frames): Script {
    Touch(Processor,
          Borrow(Inner(c), Borrow(Inner(init), Each(children, Done), Many(n.first, FrameCell, Done)),
              Touch(Processor, Done)))
  }

  /** `TaskControlBlock::fork`, while the parent is borrowed. */
  function ForkInside(child: nat, n: Frames): Script {
    Many(n.first, FrameCell,
         Touch(PidCell, Borrow(KernelSpaceCell, Many(n.second, FrameCell, Done), Touch(Inner(child), Done))))
  }

  /** `sys_fork` */
  function ForkScript(c: nat, child: nat, n: Frames): Script {
    Touch(Processor, Borrow(Inner(c), ForkInside(child, n), Touch(Inner(child), Touch(Manager, Done))))
  }

  /** `sys_exec` */
  function ExecScript(c: nat, n: Frames): Script {
    Touch(Processor, Touch(Inner(c), Touch(Processor,
      Many(n.first, FrameCell, Borrow(Inner(c), Many(n.second, FrameCell, Touch(KernelSpaceCell, Done)), Done)))))
  }

  /** The child is dropped: its identifier, its kernel stack and its table. */
  function DropInside(child: nat, n: Frames): Script {
    Touch(Inner(child),
        Touch(PidCell, Borrow(KernelSpaceCell, Many(n.first, FrameCell, Done), Many(n.second, FrameCell, Done))))
  }

  /** `sys_waitpid` that looks at the children in `seen` and drops `reaped`, if any. */
  function WaitScript(c: nat, seen: seq<nat>, reaped: Option<nat>, n: Frames): Script {
    Touch(Processor, Borrow(Inner(c), Each(seen, if reaped.None? then Done else DropInside(reaped.value, n)), Done))
  }

  /** `current_trap_cx` */
  function ContextScript(c: nat): Script { Touch(Processor, Touch(Inner(c), Done)) }

  /** What the running task borrows in the step of an event, whatever the number of frames. */
  ghost function CurrentScript(k: Kernel, e: Event, n: Frames): Script
    requires HasCurrent(k) && (e.Reap? ==> e.index < |CurrentTask(k).children|)
  {
    var c, children := k.current.value, CurrentTask(k).children;
    match e
    case Dispatch => Done
    case Yield => YieldScript(c)
    case Exit(_) => ExitScript(c, k.initproc, children, n)
    case Fork(_, _, _, _) => ForkScript(c, k.nextId, n)
    case Exec(_, _, _, _, _) => ExecScript(c, n)
    case Reap(i, _, _, _) => WaitScript(c, children[..i + 1], Some(children[i]), n)
    case WaitFails(pid) => WaitScript(c, if AnyChild(k, pid) then children else [], None, n)
    case UserStore(_, _) => Done
    case SaveWord(_, _) => ContextScript(c)
  }

  ghost function ScriptOf(l: Layout, k: Kernel, e: Event, k': Kernel, n: Frames): Script
    requires Next(l, k, e, k')
  {
    if e.Dispatch? then DispatchScript(k.queue[0]) else CurrentScript(k, e, n)
  }

  lemma PlainScripts(c: nat)
    ensures Safe({}, DispatchScript(c)) && Safe({}, YieldScript(c)) && Safe({}, ContextScript(c)) && Safe({}, Done)
  {
    SafeTouch({Processor}, Inner(c), Done);
    assert {} + {Processor} == {Processor};
  }

  lemma ExecSafe(c: nat, n: Frames)
    ensures Safe({}, ExecScript(c, n))
  {
    var held := {Inner(c)};
    assert {} + held == held;
    SafeMany(held, n.second, FrameCell, Touch(KernelSpaceCell, Done));
    var last := Borrow(Inner(c), Many(n.second, FrameCell, Touch(KernelSpaceCell, Done)), Done);
    assert Safe({}, last);
    SafeMany({}, n.first, FrameCell, last);
    var load := Many(n.first, FrameCell, last);
  }

  /** A fork borrows the child while the parent is borrowed. */
  lemma ForkSafe(c: nat, child: nat, n: Frames)
    ensures Safe({}, ForkScript(c, child, n)) <==> c != child
  {
    var held := {Inner(c)};
    assert {} + held == held;
    SafeMany(held + {KernelSpaceCell}, n.second, FrameCell, Done);
    SafeTouch(held, Inner(child), Done);
    var stack := Borrow(KernelSpaceCell, Many(n.second, FrameCell, Done), Touch(Inner(child), Done));
    assert Safe(held, stack) <==> c != child;
    SafeMany(held, n.first, FrameCell, Touch(PidCell, stack));
    SafeTouch({}, Inner(child), Touch(Manager, Done));
  }

  /** An exit is safe exactly when the task, `initproc` and the children are different tasks. */
  lemma ExitSafe(c: nat, init: nat, children: seq<nat>, n: Frames)
    ensures Safe({}, ExitScript(c, init, children, n))
            <==> c != init && forall i | 0 <= i < |children| :: children[i] != c && children[i] != init
  {
    var held := {Inner(c)};
    assert {} + held == held;
    SafeEach(held + {Inner(init)}, children, Done);
    SafeMany(held, n.first, FrameCell, Done);
    var adopt := Borrow(Inner(init), Each(children, Done), Many(n.first, FrameCell, Done));
    assert Safe(held, adopt) <==> c != init && Safe(held + {Inner(init)}, Each(children, Done));
    SafeTouch({}, Processor, Borrow(Inner(c), adopt, Touch(Processor, Done)));
  }

  lemma DropSafe(c: nat, child: nat, n: Frames)
    ensures Safe({Inner(c)}, DropInside(child, n)) <==> c != child
  {
    var held := {Inner(c)};
    SafeMany(held + {KernelSpaceCell}, n.first, FrameCell, Done);
    SafeMany(held, n.second, FrameCell, Done);
    var stack := Borrow(KernelSpaceCell, Many(n.first, FrameCell, Done), Many(n.second, FrameCell, Done));
    assert Safe(held, stack);
    SafeTouch(held, Inner(child), Touch(PidCell, stack));
  }

  /** A wait is safe exactly when none of the children it looks at is the task itself. */
  lemma WaitSafe(c: nat, seen: seq<nat>, reaped: Option<nat>, n: Frames)
    ensures Safe({}, WaitScript(c, seen, reaped, n))
            <==> (forall i | 0 <= i < |seen| :: seen[i] != c) && reaped != Some(c)
  {
    var held := {Inner(c)};
    assert {} + held == held;
    var tail := if reaped.None? then Done else DropInside(reaped.value, n);
    if reaped.Some? {
      DropSafe(c, reaped.value, n);
    }
    SafeEach(held, seen, tail);
    SafeTouch({}, Processor, Borrow(Inner(c), Each(seen, tail), Done));
  }

  /** No step of a reachable kernel borrows a cell that is borrowed, and after the step all cells
      are free. */
  lemma NoDoubleBorrow(l: Layout, k: Kernel, e: Event, k': Kernel, n: Frames)
    requires Inv(l, k) && Next(l, k, e, k')
    ensures Flags({}, Actions(ScriptOf(l, k, e, k', n))) == Some({})
  {
    hide Safe, Flags, Actions, Inv, DispatchScript, YieldScript, ExitScript, ForkScript, ExecScript, WaitScript,
         ContextScript, Next;
    FlagsExact(ScriptOf(l, k, e, k', n));
    StepSafe(l, k, e, k', n);
  }

  /** Every step but a dispatch is made by a running task. */
  lemma StepHasCurrent(l: Layout, k: Kernel, e: Event, k': Kernel)
    requires Next(l, k, e, k')
    ensures e.Dispatch? ==> |k.queue| > 0
    ensures !e.Dispatch? ==> HasCurrent(k)
    ensures e.Exit? ==> k.current.value != k.initproc
    ensures e.Reap? ==> e.index < |CurrentTask(k).children|
  {
    hide SpaceModel.SpaceOk, SpaceModel.Owned, StoreExitCode, UserPage, AfterReap, AfterExit;
  }

  lemma StepSafe(l: Layout, k: Kernel, e: Event, k': Kernel, n: Frames)
    requires Inv(l, k) && Next(l, k, e, k')
    ensures Safe({}, ScriptOf(l, k, e, k', n))
  {
    hide Safe, Inv, DispatchScript, YieldScript, ExitScript, ForkScript, ExecScript, WaitScript, ContextScript, Next;
    StepHasCurrent(l, k, e, k');
    if e.Dispatch? {
      PlainScripts(k.queue[0]);
    } else {
      var c, children := k.current.value, CurrentTask(k).children;
      forall i | 0 <= i < |children| ensures children[i] != c && children[i] != k.initproc {
        ChildrenFacts(l, k, i);
      }
      InvNames(l, k);
      PlainScripts(c);
      ExecSafe(c, n);
      ForkSafe(c, k.nextId, n);
      ExitSafe(c, k.initproc, children, n);
      WaitSafe(c, children, None, n);
      WaitSafe(c, [], None, n);
      if e.Reap? {
        WaitSafe(c, children[..e.index + 1], Some(children[e.index]), n);
      }
    }
  }

  /** An exit panics on a borrowed cell exactly when `initproc` exits. */
  lemma ExitBorrows(l: Layout, k: Kernel, code: int, n: Frames)
    requires Inv(l, k) && HasCurrent(k)
    ensures Flags({}, Actions(CurrentScript(k, Exit(code), n)))
            == if k.current.value == k.initproc then None else Some({})
  {
    hide Safe, Flags, Actions, Inv, ExitScript;
    var c, children := k.current.value, CurrentTask(k).children;
    forall i | 0 <= i < |children| ensures children[i] != c && children[i] != k.initproc {
      ChildrenFacts(l, k, i);
    }
    ExitSafe(c, k.initproc, children, n);
    FlagsExact(CurrentScript(k, Exit(code), n));
  }
}
