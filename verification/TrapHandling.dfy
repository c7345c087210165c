/** The trap handler (os/src/trap/mod.rs, os/src/syscall/mod.rs): which steps of the kernel a trap
    from user mode makes, and where a system call leaves its result. */
module TrapHandling {
  import opened Address
  import opened PhysicalMemory
  import opened FrameAllocation
  import opened MemorySets
  import opened ElfLoading
  import opened UserBuffers
  import opened KernelModel
  import opened KernelSteps
  import opened KernelSafety
  import opened KernelFlows
  import opened StepFacts
  import opened WaitPointers
  import opened ProcessControl

  datatype Cause = UserEnvCall | MemoryFault | IllegalInstruction | SupervisorTimer | OtherCause

  const SYSCALL_READ: nat := 63
  const SYSCALL_WRITE: nat := 64
  const SYSCALL_EXIT: nat := 93
  const SYSCALL_YIELD: nat := 124
  const SYSCALL_GET_TIME: nat := 169
  const SYSCALL_GETPID: nat := 172
  const SYSCALL_FORK: nat := 220
  const SYSCALL_EXEC: nat := 221
  const SYSCALL_WAITPID: nat := 260

  /** The services, and the numbers with which the user library asks for them (user/src/syscall.rs). */
  datatype Service = ReadService | WriteService | ExitService | YieldService | TimeService | PidService | ForkService
    | ExecService | WaitService

  function UserNumber(s: Service): nat {
    match s
    case ReadService => 63
    case WriteService => 64
    case ExitService => 93
    case YieldService => 124
    case TimeService => 169
    case PidService => 172
    case ForkService => 220
    case ExecService => 221
    case WaitService => 260
  }

  /** The service that the kernel's dispatch chooses for a number. */
  function ServiceOf(id: nat): Option<Service> {
    if id == SYSCALL_READ then Some(ReadService)
    else if id == SYSCALL_WRITE then Some(WriteService)
    else if id == SYSCALL_EXIT then Some(ExitService)
    else if id == SYSCALL_YIELD then Some(YieldService)
    else if id == SYSCALL_GET_TIME then Some(TimeService)
    else if id == SYSCALL_GETPID then Some(PidService)
    else if id == SYSCALL_FORK then Some(ForkService)
    else if id == SYSCALL_EXEC then Some(ExecService)
    else if id == SYSCALL_WAITPID then Some(WaitService)
    else None
  }

  /** Library and kernel agree: the kernel chooses a service exactly for the number that the library uses. */
  lemma NumbersAgree(id: nat, s: Service)
    ensures ServiceOf(id) == Some(s) <==> id == UserNumber(s)
  {}

  /** `as usize`: the word that is congruent to the number modulo 2^64. */
  function ToWord(r: int): (w: nat)
    ensures w < 0x1_0000_0000_0000_0000 && (w - r) % 0x1_0000_0000_0000_0000 == 0
  {
    r % TWO_64
  }

  /** `as isize`: the number in the range of 64-bit signed integers that is congruent to the word. */
  function ToSigned(w: nat): (r: int)
    ensures -0x8000_0000_0000_0000 <= r < 0x8000_0000_0000_0000 && (r - w) % 0x1_0000_0000_0000_0000 == 0
  {
    if w % TWO_64 >= TWO_64 / 2 then w % TWO_64 - TWO_64 else w % TWO_64
  }

  /** `as i32`, in the same way. */
  function ToSigned32(w: nat): (r: int)
    ensures -0x8000_0000 <= r < 0x8000_0000 && (r - w) % 0x1_0000_0000 == 0
  {
    var h := w % 0x1_0000_0000; if h >= 0x8000_0000 then h - 0x1_0000_0000 else h
  }

  /** The register reads as the number, modulo 2^64 and, if it fits, as a signed 64-bit integer. */
  predicate Reads(w: nat, r: int) {
    && w < 0x1_0000_0000_0000_0000 && (w - r) % 0x1_0000_0000_0000_0000 == 0
    && (-0x8000_0000_0000_0000 <= r < 0x8000_0000_0000_0000 ==>
          r == if w < 0x8000_0000_0000_0000 then w else w - 0x1_0000_0000_0000_0000)
  }

  lemma WordReads(r: int)
    ensures Reads(ToWord(r), r)
  {}

  /** Some events lead from one state to another. */
  ghost predicate Reaches(l: Layout, k: Kernel, events: seq<Event>, k': Kernel)
    decreases |events|
  {
    if events == [] then k' == k
    else exists m :: Next(l, k, events[0], m) && Reaches(l, m, events[1..], k')
  }

  lemma {:induction false} ReachesMore(l: Layout, k: Kernel, events: seq<Event>, m: Kernel, e: Event, k': Kernel)
    requires Reaches(l, k, events, m) && Next(l, m, e, k')
    ensures Reaches(l, k, events + [e], k')
    decreases |events|
  {
    hide Next;
    if events == [] {
      assert (events + [e])[1..] == [];
      assert Reaches(l, k', [], k');
    } else {
      var n :| Next(l, k, events[0], n) && Reaches(l, n, events[1..], m);
      ReachesMore(l, n, events[1..], m, e, k');
      assert (events + [e])[1..] == events[1..] + [e];
    }
  }

  /** The state in which a trap has written word `i` of the running task's context. */
  function Written(k: Kernel, i: nat, w: nat): Kernel
    requires HasCurrent(k) && i < 34 && w < TWO_64
  {
    k.(phys := k.phys.(mem := SetEntry(k.phys.mem, CurrentTask(k).trapCxPpn, i, w)))
  }

  lemma SaveNext(l: Layout, k: Kernel, i: nat, w: nat)
    requires Inv(l, k) && HasCurrent(k) && i < 34 && w < TWO_64
    ensures Next(l, k, SaveWord(i, w), Written(k, i, w)) && Inv(l, Written(k, i, w))
  {
    hide Inv, SetEntry;
    NextKeepsInv(l, k, SaveWord(i, w), Written(k, i, w));
  }

  /** Write one word of the running task's trap context. */
  method SaveContextWord(sys: System, i: nat, w: nat)
    requires sys.Valid() && sys.current.Some? && i < 34 && w < TWO_64
    modifies sys.ram
    ensures sys.Valid() && HasCurrent(old(sys.View())) && sys.View() == Written(old(sys.View()), i, w)
    ensures Next(sys.layout, old(sys.View()), SaveWord(i, w), sys.View())
    ensures Entry(sys.ram.mem, CurrentTask(old(sys.View())).trapCxPpn, i) == w
  {
    hide Inv, Next, System.Linked, SetEntry, Entry, MemorySet.View, StackFrameAllocator.Free,
         StackFrameAllocator.Valid, StackFrameAllocator.Pool, Pool;
    CurrentExists(sys.layout, sys.View());
    SaveNext(sys.layout, sys.View(), i, w);
    var c := sys.current.value;
    sys.Represents(c);
    SetEntryRead(sys.ram.mem, sys.tasks[c].trapCxPpn, i, w);
    sys.ram.mem := SetEntry(sys.ram.mem, sys.tasks[c].trapCxPpn, i, w);
  }

  // ---- system calls ----

  /** How a trap ends: back to user mode with a result, switched away, in a panic, or with a store
      of `sys_waitpid` outside user memory, after which nothing is known. */
  datatype Outcome = Returned(r: int) | Away | OutOfMemory | Panicked | Astray(mem: Memory)

  /** The trap ends as the kernel means it to. */
  predicate Sound(out: Outcome) { out.Returned? || out.Away? }

  /** The outcome of an exec of the application whose name is the string at `ptr`. */
  ghost predicate ExecResult(k: Kernel, apps: map<seq<Byte>, App>, sstatus: nat, ptr: nat, out: Outcome,
                             events: seq<Event>)
    requires HasCurrent(k)
  {
    var kroot, root := k.kspace.table.root, CurrentTask(k).space.table.root;
    match out
    case Panicked => StringBroken(k.phys.mem, kroot, root, ptr)
    case OutOfMemory =>
      exists path ::
          StringAt(k.phys.mem, kroot, root, ptr, path) && path in apps && |k.phys.free| <= ImageCost(apps[path].segs)
    case Returned(r) =>
      exists path ::
        && StringAt(k.phys.mem, kroot, root, ptr, path)
        && if path in apps then r == 0 && ExecsOf(events, apps[path], sstatus) else r == -1 && events == []
    case _ => false
  }

  /** The one event is an exec of the application. */
  ghost predicate ExecsOf(events: seq<Event>, app: App, sstatus: nat) {
    && |events| == 1 && events[0].Exec?
    && events[0].segs == app.segs && events[0].entry == app.entry && events[0].sstatus == sstatus
  }

  /** The outcome of `sys_waitpid`. */
  ghost predicate WaitResultOf(k: Kernel, pid: int, ptr: nat, out: Outcome, events: seq<Event>)
    requires HasCurrent(k)
  {
    if AnyZombie(k, pid) then
      exists r, e :: WaitOutcome(k, pid, ptr, r, e) && out == OfWait(r) && events == if out.Returned? then [e] else []
    else out == Returned(if AnyChild(k, pid) then -2 else -1) && events == [WaitFails(pid)]
  }

  function OfWait(r: WaitResult): Outcome {
    match r case WaitReturns(pid) => Returned(pid) case WaitPanics => Panicked case WaitAstray(mem) => Astray(mem)
  }

  /** The result of a system call and the step it makes, if any. `sstatus` and `time` are what the status
      register and the clock say. */
  ghost predicate CallResult(k: Kernel, apps: map<seq<Byte>, App>, sstatus: nat, time: nat, id: nat, a0: nat,
                             a1: nat, out: Outcome,
                             events: seq<Event>)
    requires HasCurrent(k)
  {
    match ServiceOf(id)
    case Some(ExitService) =>
      if k.current.value == k.initproc then out == Panicked && events == []
      else out == Away && events == [Exit(ToSigned32(a0))]
    case Some(YieldService) => out == Away && events == [Yield]
    case Some(TimeService) => out == Returned(time) && events == []
    case Some(PidService) => out == Returned(CurrentTask(k).pid) && events == []
    case Some(ForkService) =>
      || (out.OutOfMemory? && |k.phys.free| <= ForkCost(CurrentTask(k).space))
      || (out == Returned(PidAlloc(k.pids).0) && |events| == 1 && events[0].Fork?)
    case Some(ExecService) => ExecResult(k, apps, sstatus, a0, out, events)
    case Some(WaitService) => WaitResultOf(k, ToSigned(a0), a1, out, events)
    case _ => out == Panicked && events == []
  }

  /** `syscall`, for every number but those of console input and output. */
  method Syscall(sys: System, id: nat, a0: nat, a1: nat, apps: map<seq<Byte>, App>, sstatus: nat, time: nat)
    returns (out: Outcome, ghost events: seq<Event>)
    requires sys.Valid() && sys.current.Some? && sstatus < TWO_64 && id !in {SYSCALL_READ, SYSCALL_WRITE}
    requires forall name | name in apps :: Loadable(apps[name].segs) && apps[name].entry < TWO_64
    modifies sys, sys.manager, sys.pids, sys.ram, sys.ram.frames, sys.kernelSpace, sys.kernelSpace.table, sys.spaces
    ensures HasCurrent(old(sys.View())) && CallResult(old(sys.View()), apps, sstatus, time, id, a0, a1, out, events)
    ensures Sound(out) ==> sys.Valid() && Reaches(sys.layout, old(sys.View()), events, sys.View())
    ensures out.Returned? ==> sys.current == old(sys.current)
    ensures out.OutOfMemory? ==> sys.ram.View().free == {}
    ensures out.Astray? ==> sys.ram.mem == out.mem
  {
    hide Inv, Next, System.Linked, System.Fixed, Loadable, AnyChild, AnyZombie, Reaches, StackFrameAllocator.Free,
         MemorySet.View, PidAlloc, ImageCost, ForkCost, WaitResultOf, ExecResult;
    ghost var l, k := sys.layout, sys.View();
    CurrentExists(l, k);
    ReachesNone(l, k);
    out, events := Panicked, [];
    if id == SYSCALL_EXIT {
      var ok := sys.ExitCurrent(ToSigned32(a0));
      if ok {
        out, events := Away, [Exit(ToSigned32(a0))];
        ReachesOne(l, k, Exit(ToSigned32(a0)), sys.View());
      }
    } else if id == SYSCALL_YIELD {
      sys.SuspendCurrent();
      out, events := Away, [Yield];
      ReachesOne(l, k, Yield, sys.View());
    } else if id == SYSCALL_GET_TIME {
      out := Returned(time);
    } else if id == SYSCALL_GETPID {
      sys.Represents(sys.current.value);
      out := Returned(sys.tasks[sys.current.value].pid);
    } else if id == SYSCALL_FORK {
      var r;
      ghost var e;
      r, e := sys.SysFork();
      if r.None? {
        out := OutOfMemory;
      } else {
        ReachesOne(l, k, e, sys.View());
        ForkedPid(l, k, e, sys.View());
        out, events := Returned(r.value), [e];
      }
    } else if id == SYSCALL_EXEC {
      out, events := CallExec(sys, a0, apps, sstatus);
    } else if id == SYSCALL_WAITPID {
      var r;
      ghost var e;
      r, e := sys.SysWaitpid(ToSigned(a0), a1);
      out := OfWait(r);
      events := if out.Returned? then [e] else [];
      WaitShape(k, ToSigned(a0), a1, r, e);
      if out.Returned? {
        ReachesOne(l, k, e, sys.View());
      }
    }
  }

  lemma WaitShape(k: Kernel, pid: int, ptr: nat, r: WaitResult, e: Event)
    requires HasCurrent(k)
    requires if AnyZombie(k, pid) then WaitOutcome(k, pid, ptr, r, e)
             else r == WaitReturns(if AnyChild(k, pid) then -2 else -1) && e == WaitFails(pid)
    ensures WaitResultOf(k, pid, ptr, OfWait(r), if OfWait(r).Returned? then [e] else [])
  {
    hide AnyZombie, AnyChild, WaitOutcome;
  }

  /** `sys_exec` */
  method CallExec(sys: System, ptr: nat, apps: map<seq<Byte>, App>, sstatus: nat) returns (out: Outcome,
                  ghost events: seq<Event>)
    requires sys.Valid() && sys.current.Some? && sstatus < TWO_64
    requires forall name | name in apps :: Loadable(apps[name].segs) && apps[name].entry < TWO_64
    modifies sys, sys.ram, sys.ram.frames
    ensures HasCurrent(old(sys.View())) && ExecResult(old(sys.View()), apps, sstatus, ptr, out, events)
    ensures out.Returned? ==>
              sys.Valid() && Reaches(sys.layout, old(sys.View()), events, sys.View()) && sys.current == old(sys.current)
    ensures !out.Away? && !out.Astray?
    ensures out.OutOfMemory? ==> sys.ram.View().free == {}
  {
    hide Inv, Next, System.Linked, System.Fixed, Loadable, Reaches, StackFrameAllocator.Free, ImageCost, StringAt,
         StringBroken, CharAt;
    ghost var l, k := sys.layout, sys.View();
    CurrentExists(l, k);
    ReachesNone(l, k);
    sys.Represents(sys.current.value);
    ghost var bound := StringEnds(l, k, ptr);
    var path := TranslatedStr(sys.ram, sys.kernelSpace.table.rootPpn,
        sys.tasks[sys.current.value].memorySet.table.rootPpn, ptr, bound);
    if path.None? {
      return Panicked, [];
    }
    assert StringAt(k.phys.mem, k.kspace.table.root, CurrentTask(k).space.table.root, ptr, path.value);
    var r;
    ghost var e;
    r, e := sys.SysExec(apps, path.value, sstatus);
    if r.None? {
      return OutOfMemory, [];
    }
    out, events := Returned(r.value), [];
    if path.value in apps {
      ReachesOne(l, k, e, sys.View());
      events := [e];
    }
  }

  lemma ReachesNone(l: Layout, k: Kernel)
    ensures Reaches(l, k, [], k)
  {}

  lemma ReachesOne(l: Layout, k: Kernel, e: Event, k': Kernel)
    requires Next(l, k, e, k')
    ensures Reaches(l, k, [e], k')
    ensures k'.current == if e.Dispatch? then k'.current else if e.Yield? || e.Exit? then None else k.current
  {
    hide Next;
    ReachesMore(l, k, [], k, e, k');
    assert [] + [e] == [e];
    CurrentStep(l, k, e, k');
  }

  lemma ForkedPid(l: Layout, k: Kernel, e: Event, k': Kernel)
    requires e.Fork? && Next(l, k, e, k')
    ensures k.nextId in k'.tasks && k'.tasks[k.nextId].pid == PidAlloc(k.pids).0
  {
    hide ForkContext, StackArea, KernelStackTop, TrapCxPpn, PidAlloc;
  }

  // ---- the handler ----

  /** Registers of the running task in its trap context. */
  function SavedWord(k: Kernel, i: nat): (w: nat)
    requires HasCurrent(k) && i < 512
    ensures w < TWO_64
  {
    Entry(k.phys.mem, CurrentTask(k).trapCxPpn, i)
  }

  /** The state in which the handler has moved `sepc` past the `ecall`. */
  function Advanced(k: Kernel): Kernel
    requires HasCurrent(k)
  {
    Written(k, 33, (SavedWord(k, 33) + 4) % TWO_64)
  }

  /** The number of the system call that the running task makes. */
  function CallNumber(k: Kernel): nat
    requires HasCurrent(k)
  {
    SavedWord(Advanced(k), 17)
  }

  /** The steps of a trap: a system call moves `sepc`, does its work and leaves the result in x10 of the
      context that is current by then; a fault kills the task, which `initproc` does not survive, and the
      timer suspends it. */
  ghost predicate TrapResult(k: Kernel, apps: map<seq<Byte>, App>, sstatus: nat, time: nat, cause: Cause, out: Outcome,
                             events: seq<Event>)
    requires HasCurrent(k)
  {
    match cause
    case UserEnvCall =>
      var k1 := Advanced(k);
      exists work ::
        && CallResult(k1, apps, sstatus, time, CallNumber(k), SavedWord(k1, 10), SavedWord(k1, 11), out, work)
        && events == [SaveWord(33, (SavedWord(k, 33) + 4) % TWO_64)] + work
                     + (if out.Returned? then [SaveWord(10, ToWord(out.r))] else [])
    case MemoryFault => Killed(k, -2, out, events)
    case IllegalInstruction => Killed(k, -3, out, events)
    case SupervisorTimer => out == Away && events == [Yield]
    case OtherCause => out == Panicked && events == []
  }

  ghost predicate Killed(k: Kernel, code: int, out: Outcome, events: seq<Event>)
    requires HasCurrent(k)
  {
    if k.current.value == k.initproc then out == Panicked && events == [] else out == Away && events == [Exit(code)]
  }

  /** `exit_current_and_run_next` from the handler. */
  method Kill(sys: System, code: int) returns (out: Outcome, ghost events: seq<Event>)
    requires sys.Valid() && sys.current.Some?
    modifies sys, sys.ram.frames, sys.spaces
    ensures HasCurrent(old(sys.View())) && Killed(old(sys.View()), code, out, events)
    ensures Sound(out) ==> sys.Valid() && Reaches(sys.layout, old(sys.View()), events, sys.View())
  {
    hide Inv, Next, System.Linked, System.Fixed, Reaches, StackFrameAllocator.Free, MemorySet.View;
    ghost var l, k := sys.layout, sys.View();
    CurrentExists(l, k);
    var ok := sys.ExitCurrent(code);
    if ok {
      ReachesOne(l, k, Exit(code), sys.View());
    }
    out := if ok then Away else Panicked;
    events := if ok then [Exit(code)] else [];
  }

  /** The branch of a system call. */
  method HandleCall(sys: System, apps: map<seq<Byte>, App>, sstatus: nat, time: nat) returns (out: Outcome,
                    ghost events: seq<Event>)
    requires sys.Valid() && sys.current.Some? && HasCurrent(sys.View()) && sstatus < TWO_64
    requires CallNumber(sys.View()) !in {SYSCALL_READ, SYSCALL_WRITE}
    requires forall name | name in apps :: Loadable(apps[name].segs) && apps[name].entry < TWO_64
    modifies sys, sys.manager, sys.pids, sys.ram, sys.ram.frames, sys.kernelSpace, sys.kernelSpace.table, sys.spaces
    ensures TrapResult(old(sys.View()), apps, sstatus, time, UserEnvCall, out, events)
    ensures Sound(out) ==> sys.Valid() && Reaches(sys.layout, old(sys.View()), events, sys.View())
    ensures out.Returned? ==>
              sys.current == old(sys.current) && HasCurrent(sys.View()) && Reads(SavedWord(sys.View(), 10), out.r)
    ensures out.OutOfMemory? ==> sys.ram.View().free == {}
    ensures out.Astray? ==> sys.ram.mem == out.mem
  {
    hide Inv, Next, System.Linked, System.Fixed, Loadable, CallResult, Reaches, StackFrameAllocator.Free,
         MemorySet.View, ToWord, Reads, Entry, SetEntry;
    ghost var l, k := sys.layout, sys.View();
    sys.Represents(sys.current.value);
    var cx := sys.tasks[sys.current.value].trapCxPpn;
    SaveContextWord(sys, 33, (Entry(sys.ram.mem, cx, 33) + 4) % TWO_64);
    ghost var k1 := sys.View();
    ghost var first := SaveWord(33, (SavedWord(k, 33) + 4) % TWO_64);
    ReachesOne(l, k, first, k1);
    ghost var work;
    out, work :=
        Syscall(sys, Entry(sys.ram.mem, cx, 17), Entry(sys.ram.mem, cx, 10), Entry(sys.ram.mem, cx, 11), apps,
            sstatus, time);
    assert CallResult(k1, apps, sstatus, time, CallNumber(k), SavedWord(k1, 10), SavedWord(k1, 11), out, work);
    events := [first] + work;
    assert events == [first] + work + [];
    if Sound(out) {
      ReachesBoth(l, k, first, k1, work, sys.View());
    }
    if out.Returned? {
      ghost var k2 := sys.View();
      SaveContextWord(sys, 10, ToWord(out.r));
      WordReads(out.r);
      ReachesMore(l, k, events, k2, SaveWord(10, ToWord(out.r)), sys.View());
      events := events + [SaveWord(10, ToWord(out.r))];
    }
  }

  /** `trap_handler` */
  method Handle(sys: System, cause: Cause, apps: map<seq<Byte>, App>, sstatus: nat, time: nat)
    returns (out: Outcome, ghost events: seq<Event>)
    requires sys.Valid() && sys.current.Some? && HasCurrent(sys.View()) && sstatus < TWO_64
    requires cause == UserEnvCall ==> CallNumber(sys.View()) !in {SYSCALL_READ, SYSCALL_WRITE}
    requires forall name | name in apps :: Loadable(apps[name].segs) && apps[name].entry < TWO_64
    modifies sys, sys.manager, sys.pids, sys.ram, sys.ram.frames, sys.kernelSpace, sys.kernelSpace.table, sys.spaces
    ensures TrapResult(old(sys.View()), apps, sstatus, time, cause, out, events)
    ensures Sound(out) ==> sys.Valid() && Reaches(sys.layout, old(sys.View()), events, sys.View())
    ensures out.Returned? ==>
              sys.current == old(sys.current) && HasCurrent(sys.View()) && Reads(SavedWord(sys.View(), 10), out.r)
    ensures out.OutOfMemory? ==> sys.ram.View().free == {}
    ensures out.Astray? ==> sys.ram.mem == out.mem
  {
    hide Inv, Next, System.Linked, System.Fixed, Loadable, CallResult, Reaches, StackFrameAllocator.Free,
         MemorySet.View, ToWord, Reads, Entry, SetEntry, Advanced, SavedWord, CallNumber;
    ghost var l, k := sys.layout, sys.View();
    match cause {
      case UserEnvCall =>
        out, events := HandleCall(sys, apps, sstatus, time);
      case MemoryFault =>
        out, events := Kill(sys, -2);
      case IllegalInstruction =>
        out, events := Kill(sys, -3);
      case SupervisorTimer =>
        sys.SuspendCurrent();
        out, events := Away, [Yield];
        ReachesOne(l, k, Yield, sys.View());
      case OtherCause =>
        out, events := Panicked, [];
    }
  }

  /** The rest of the handler when a task that yielded by a system call runs again: `sys_yield` returns 0. */
  method FinishYield(sys: System)
    requires sys.Valid() && sys.current.Some?
    modifies sys.ram
    ensures sys.Valid() && Next(sys.layout, old(sys.View()), SaveWord(10, 0), sys.View())
    ensures HasCurrent(sys.View()) && SavedWord(sys.View(), 10) == 0
  {
    hide Inv, Next, System.Linked, System.Fixed, Entry, SetEntry, MemorySet.View;
    SaveContextWord(sys, 10, ToWord(0));
  }

  lemma ReachesBoth(l: Layout, k: Kernel, e: Event, k1: Kernel, work: seq<Event>, k': Kernel)
    requires Next(l, k, e, k1) && Reaches(l, k1, work, k')
    ensures Reaches(l, k, [e] + work, k')
  {
    hide Next;
    assert ([e] + work)[1..] == work;
  }
}
