/** A trap from user mode to the handler and back, on the objects of the kernel and the registers of
    the hart (os/src/trap/trap.S, os/src/trap/mod.rs): the context page is the one that the tables
    of the running task lead to, and what the handler does to it is what user mode finds. */
module TrapPath {
  import opened Address
  import opened PhysicalMemory
  import opened PageTableEntries
  import opened FrameAllocation
  import opened TableModel
  import opened HardwareWalk
  import opened SpaceModel
  import opened MemorySets
  import opened ElfLoading
  import opened UserBuffers
  import opened KernelAccess
  import opened KernelModel
  import opened KernelSteps
  import opened KernelMemory
  import opened KernelExec
  import opened KernelReap
  import opened KernelSafety
  import opened KernelTheorems
  import opened KernelIsolation
  import opened StepFacts
  import opened ProcessControl
  import opened TrapHandling
  import opened Contexts

  // ---- the context of the running task ----

  lemma ContextEntry(l: Layout, k: Kernel)
    requires Inv(l, k) && HasCurrent(k)
    ensures var t := CurrentTask(k);
            && TableOk(k.phys.mem, t.space.table) && t.trapCxPpn !in t.space.table.roles && t.trapCxPpn < TWO_44
            && TRAP_CONTEXT_VPN in t.space.table.flat
                && t.space.table.flat[TRAP_CONTEXT_VPN] == LeafPte(t.trapCxPpn, RW)
  {
    hide Inv, LeafPte, DataFrames, TableOk, TrapContextOk, Owned, InjectiveFrames, DisjointAreas, NothingElse,
         ShapesOk;
    CurrentHoldings(l, k);
    var t := CurrentTask(k);
    TrapPageOwned(l, k.phys.mem, k.kspace.table.root, t);
    assert Covers(t.space.areas[|t.space.areas| - 1], TRAP_CONTEXT_VPN);
  }

  lemma ContextCanonical(i: nat)
    requires i < 512
    ensures Canonical(WordAddress(i)) && Floor(VirtAddrFrom(WordAddress(i))) == TRAP_CONTEXT_VPN
    ensures PageOffset(WordAddress(i)) == 8 * i
  {
    ContextAddress(i);
    SameOffset(WordAddress(i));
  }

  /** With the token of the running task in `satp`, the trap context is its context page. */
  lemma RunningContext(l: Layout, k: Kernel)
    requires Inv(l, k) && HasCurrent(k)
    ensures ContextAt(k.phys.mem, CurrentSatp(k), CurrentTask(k).trapCxPpn)
  {
    hide Inv, TableOk, Physical, Token, WordAddress, Canonical, Floor, VirtAddrFrom, LeafPte, FrameAt, SatpMode,
         SatpPpn, SatpAsid, PageOffset;
    var mem, t := k.phys.mem, CurrentTask(k);
    ContextEntry(l, k);
    TableRoot(mem, t.space.table);
    TokenFields(t.space.table.root);
    forall m: Memory, i: nat, acc: Access | SameOff(mem, m, {t.trapCxPpn}) && i < 512 && !acc.Fetch?
      ensures Physical(m, Token(t.space.table.root), WordAddress(i), acc, Supervisor)
              == Some(t.trapCxPpn * PAGE_SIZE + 8 * i)
    {
      TableFrame(mem, m, t.space.table);
      ContextCanonical(i);
      MappedAddress(m, t.space.table, Token(t.space.table.root), WordAddress(i), t.trapCxPpn, RW, acc, Supervisor);
    }
  }

  // ---- entry ----

  /** The words are below those of the kernel. */
  ghost predicate UserWords(ws: seq<(nat, Word64)>) { forall n | 0 <= n < |ws| :: ws[n].0 < 34 }

  ghost function SaveEvents(ws: seq<(nat, Word64)>): (es: seq<Event>)
    ensures |es| == |ws|
  {
    seq(|ws|, n requires 0 <= n < |ws| => SaveWord(ws[n].0, ws[n].1))
  }

  /** The kernel after the words have been stored in the running task's context. */
  ghost function AfterSaves(k: Kernel, ws: seq<(nat, Word64)>): Kernel
    requires HasCurrent(k) && UserWords(ws)
  {
    k.(phys := k.phys.(mem := StoreAll(k.phys.mem, CurrentTask(k).trapCxPpn, ws)))
  }

  /** Storing words of the context, one after the other, is a run of `SaveWord` steps. */
  lemma {:induction false} SavesReach(l: Layout, k: Kernel, ws: seq<(nat, Word64)>)
    requires Inv(l, k) && HasCurrent(k) && UserWords(ws)
    ensures Reaches(l, k, SaveEvents(ws), AfterSaves(k, ws)) && Inv(l, AfterSaves(k, ws))
    decreases |ws|
  {
    hide Inv, Next, SetEntry;
    if ws == [] {
      assert AfterSaves(k, ws) == k;
    } else {
      var n := |ws| - 1;
      var m := AfterSaves(k, ws[..n]);
      SavesReach(l, k, ws[..n]);
      SaveNext(l, m, ws[n].0, ws[n].1);
      assert AfterSaves(k, ws) == Written(m, ws[n].0, ws[n].1);
      ReachesMore(l, k, SaveEvents(ws[..n]), m, SaveWord(ws[n].0, ws[n].1), AfterSaves(k, ws));
      assert SaveEvents(ws) == SaveEvents(ws[..n]) + [SaveWord(ws[n].0, ws[n].1)];
    }
  }

  /** `satp` switches Sv39 on, with this root and address space 0. */
  predicate Installed(satp: nat, root: nat) { SatpMode(satp) == 8 && SatpAsid(satp) == 0 && SatpPpn(satp) == root }

  /** There is one such value. */
  lemma InstalledIs(satp: nat, root: nat)
    requires root < TWO_44
    ensures Installed(satp, root) <==> satp == Token(root)
  {
    TokenFields(root);
    var q := satp / 0x1000_0000_0000;
    assert satp == q * 0x1000_0000_0000 + SatpPpn(satp);
    assert q == SatpMode(satp) * 0x1_0000 + SatpAsid(satp);
  }

  /** The hart runs the current task in user mode, or is ready to. */
  ghost predicate OnCurrent(k: Kernel, h: Hart)
    reads h
  {
    HasCurrent(k) && h.sscratch == TRAP_CONTEXT && Installed(h.satp, CurrentTask(k).space.table.root)
  }

  lemma CurrentInstalled(l: Layout, k: Kernel, satp: nat)
    requires Inv(l, k) && HasCurrent(k)
    ensures Installed(satp, CurrentTask(k).space.table.root) <==> satp == CurrentSatp(k)
    ensures CurrentSatp(k) < TWO_64
    ensures Installed(Token(k.kspace.table.root), k.kspace.table.root)
  {
    hide Inv, TableOk, Installed, Token;
    CurrentHoldings(l, k);
    TableRoot(k.phys.mem, CurrentTask(k).space.table);
    KernelSpaceFacts(l, k);
    TokenFields(CurrentTask(k).space.table.root);
    InstalledIs(satp, CurrentTask(k).space.table.root);
    InstalledIs(Token(k.kspace.table.root), k.kspace.table.root);
  }

  /** `__alltraps` while a task runs: a run of `SaveWord` steps of the kernel that puts the user
      registers into the task's context, and the kernel's table, the task's kernel stack and the handler
      are what it goes on with. */
  method TrapEntry(sys: System, h: Hart) returns (handler: Word64, ghost events: seq<Event>)
    requires sys.Valid() && OnCurrent(sys.View(), h)
    modifies h, sys.ram
    ensures sys.Valid() && HasCurrent(sys.View()) && sys.View() == old(sys.View()).(phys := sys.View().phys)
    ensures events == SaveEvents(SavedWords(old(h.x), old(h.sstatus), old(h.sepc)))
    ensures Reaches(sys.layout, old(sys.View()), events, sys.View())
    ensures forall i: nat | i < 512 ::
              SavedWord(sys.View(), i)
                  == TrapWord(old(h.x), old(h.sstatus), old(h.sepc), SavedWord(old(sys.View()), i), i)
    ensures Installed(h.satp, sys.kernelSpace.View().table.root) && handler == sys.layout.trapHandler
    ensures h.x[SP] == KernelStackTop(CurrentTask(sys.View()).pid)
  {
    hide Inv, Next, System.Linked, Reaches, SetEntry, Entry, MemorySet.View, StackFrameAllocator.Free,
         StackFrameAllocator.Valid, StackFrameAllocator.Pool, Pool, ContextAt, SaveEvents, StoreAll, TrapWord, Token,
         KernelStackTop;
    ghost var l, k, ws := sys.layout, sys.View(), SavedWords(h.x, h.sstatus, h.sepc);
    ghost var cx := CurrentTask(k).trapCxPpn;
    RunningContext(l, k);
    CurrentInstalled(l, k, h.satp);
    SavesReach(l, k, ws);
    KernelWords(l, k);
    handler := h.AllTraps(sys.ram, cx);
    events := SaveEvents(ws);
    assert sys.View() == AfterSaves(k, ws);
  }

  lemma KernelWords(l: Layout, k: Kernel)
    requires Inv(l, k) && HasCurrent(k)
    ensures SavedWord(k, 34) == Token(k.kspace.table.root) && SavedWord(k, 35) == KernelStackTop(CurrentTask(k).pid)
    ensures SavedWord(k, 36) == l.trapHandler
  {
    hide Inv, Entry, Token, KernelStackTop, SpaceOk, TrapPageOk;
    CurrentHoldings(l, k);
    LiveTrapPage(l, k, k.current.value);
  }

  // ---- return ----

  /** `trap_return` while a task runs, from any registers of the kernel: the words of the task's
      context are the registers of user mode. */
  method TrapReturn(sys: System, h: Hart, work: Registers)
    requires sys.Valid() && HasCurrent(sys.View())
    modifies h
    ensures OnCurrent(sys.View(), h)
    ensures h.sstatus == SavedWord(sys.View(), 32) && h.sepc == SavedWord(sys.View(), 33)
    ensures forall i | 1 <= i < 32 && i != TP :: h.x[i] == SavedWord(sys.View(), i)
    ensures h.x[TP] == work[TP]
  {
    hide Inv, System.Linked, System.Fixed, Entry, ContextAt, Token, Installed;
    ghost var k := sys.View();
    RunningContext(sys.layout, k);
    CurrentInstalled(sys.layout, k, CurrentSatp(k));
    sys.Represents(sys.current.value);
    var token := Token(sys.tasks[sys.current.value].memorySet.table.rootPpn);
    h.x := Put(Put(work, A0, TRAP_CONTEXT), A1, token);
    h.Restore(sys.ram, CurrentTask(k).trapCxPpn);
  }

  // ---- what the handler leaves in the context ----

  /** The task on the processor is the same, in the same space with the same context page. */
  ghost predicate SameTask(k: Kernel, k': Kernel) {
    && HasCurrent(k) && HasCurrent(k') && k'.current == k.current
    && CurrentTask(k').trapCxPpn == CurrentTask(k).trapCxPpn && CurrentTask(k').space == CurrentTask(k).space
  }

  /** A step of a system call that does not replace the address space. */
  predicate InPlace(e: Event) { e.Fork? || e.Reap? || e.WaitFails? || e.SaveWord? }

  /** Word `w` after the events, if it was `v` before. */
  function LastSaved(events: seq<Event>, w: nat, v: nat): nat
    decreases |events|
  {
    if events == [] then v
    else LastSaved(events[1..], w, if events[0].SaveWord? && events[0].i == w then events[0].w else v)
  }

  lemma ForkKeepsParent(l: Layout, k: Kernel, e: Event, k': Kernel, w: nat)
    requires Inv(l, k) && e.Fork? && ForkStep(l, k, e, k') && w < 512
    ensures SameTask(k, k') && SavedWord(k', w) == SavedWord(k, w)
  {
    assert HasCurrent(k) && HasCurrent(k') && k'.current == k.current by {
      hide Inv, ForkContext, KernelStackTop, StackArea, TrapCxPpn;
    }
    hide Inv, ForkStep, Owned, FrameAt, Word, SameOn, TaskMemoryOk, TableOk;
    var t := CurrentTask(k);
    CurrentHoldings(l, k);
    ForkUntouched(l, k, e, k', k.current.value);
    InOwned(k.phys.mem, k'.phys.mem, Owned(t.space), t.trapCxPpn);
  }

  lemma InOwned(mem: Memory, mem': Memory, ps: set<nat>, f: nat)
    requires SameOn(mem, mem', ps) && f in ps
    ensures FrameAt(mem', f) == FrameAt(mem, f)
  {}

  lemma ReapKeepsTask(l: Layout, k: Kernel, e: Event, k': Kernel)
    requires e.Reap? && ReapStep(l, k, e, k')
    ensures SameTask(k, k')
  {
    hide StoreExitCode, PointerOk, SpaceOk, Removed, FirstStart, StackStart, Owned, RemoveAt;
  }

  lemma ReapKeepsParent(l: Layout, k: Kernel, e: Event, k': Kernel, w: nat)
    requires Inv(l, k) && e.Reap? && ReapStep(l, k, e, k') && w < 512
    ensures SameTask(k, k') && SavedWord(k', w) == SavedWord(k, w)
  {
    hide Inv, ReapStep, Owned, FrameAt, Word, TaskMemoryOk, TableOk, Location, PutBytes, ExitCodeBytes, SameOn,
         PageOffset, VirtAddrFrom;
    ReapKeepsTask(l, k, e, k');
    var t := CurrentTask(k);
    CurrentHoldings(l, k);
    TrapPageOwned(l, k.phys.mem, k.kspace.table.root, t);
    var f := Location(k.phys.mem, t.space.table.root, VirtAddrFrom(e.ptr)).0;
    ReapFrame(l, k, e, k', f);
    InOwned(k.phys.mem, k'.phys.mem, Owned(t.space) - {f}, t.trapCxPpn);
  }

  lemma StepKeepsContext(l: Layout, k: Kernel, e: Event, k': Kernel, w: nat)
    requires Inv(l, k) && Next(l, k, e, k') && InPlace(e) && w < 512
    ensures SameTask(k, k') && SavedWord(k', w) == if e.SaveWord? && e.i == w then e.w else SavedWord(k, w)
  {
    hide Inv, ForkStep, ReapStep, Entry, SetEntry, AnyZombie;
    match e
    case Fork(_, _, _, _) => ForkKeepsParent(l, k, e, k', w);
    case Reap(_, _, _, _) => ReapKeepsParent(l, k, e, k', w);
    case WaitFails(_) =>
    case SaveWord(i, v) => SetEntryRead(k.phys.mem, CurrentTask(k).trapCxPpn, i, v);
  }

  /** Over any number of such steps the task stays, and each word of its context is what was last
      saved there. */
  lemma {:induction false} EventsKeepContext(l: Layout, k: Kernel, events: seq<Event>, k': Kernel, w: nat)
    requires Inv(l, k) && HasCurrent(k) && Reaches(l, k, events, k') && w < 512
    requires forall i | 0 <= i < |events| :: InPlace(events[i])
    ensures SameTask(k, k') && SavedWord(k', w) == LastSaved(events, w, SavedWord(k, w))
    decreases |events|
  {
    hide Inv, Next, SavedWord, InPlace;
    if events != [] {
      var m :| Next(l, k, events[0], m) && Reaches(l, m, events[1..], k');
      NextKeepsInv(l, k, events[0], m);
      StepKeepsContext(l, k, events[0], m, w);
      EventsKeepContext(l, m, events[1..], k', w);
    }
  }

  // ---- the whole way ----

  /** The work of a system call that returns is at most one step. */
  lemma WorkShape(k: Kernel, apps: map<seq<Byte>, App>, sstatus: nat, time: nat, id: nat, a0: nat, a1: nat,
                  out: Outcome, work: seq<Event>)
    requires HasCurrent(k) && CallResult(k, apps, sstatus, time, id, a0, a1, out, work) && out.Returned?
    ensures work == [] || (|work| == 1 && !work[0].SaveWord? && (InPlace(work[0]) || work[0].Exec?))
    ensures work != [] && work[0].Exec? ==> out.r == 0 && work[0].sstatus == sstatus
  {
    hide StringAt, StringBroken, AnyZombie, AnyChild, ForkCost, ImageCost, FirstZombie, PointerOk, WaitStore;
  }

  /** The events of a system call that returns. */
  ghost predicate CallEvents(k: Kernel, work: seq<Event>, r: int, events: seq<Event>)
    requires HasCurrent(k)
  {
    && events == [SaveWord(33, (SavedWord(k, 33) + 4) % TWO_64)] + work + [SaveWord(10, ToWord(r))]
    && (work == [] || (|work| == 1 && !work[0].SaveWord? && (InPlace(work[0]) || work[0].Exec?)))
    && (work != [] && work[0].Exec? ==> r == 0)
  }

  lemma ReturnedCall(k: Kernel, apps: map<seq<Byte>, App>, sstatus: nat, time: nat, cause: Cause, out: Outcome,
                     events: seq<Event>)
    returns (work: seq<Event>)
    requires HasCurrent(k) && TrapResult(k, apps, sstatus, time, cause, out, events) && out.Returned?
    ensures cause.UserEnvCall? && CallEvents(k, work, out.r, events)
  {
    hide SavedWord, CallNumber, CallResult, ToWord, SetEntry;
    var k1 := Advanced(k);
    work :| && CallResult(k1, apps, sstatus, time, CallNumber(k), SavedWord(k1, 10), SavedWord(k1, 11), out, work)
            && events == [SaveWord(33, (SavedWord(k, 33) + 4) % TWO_64)] + work + (if out.Returned? then
                [SaveWord(10, ToWord(out.r))] else []);
    WorkShape(k1, apps, sstatus, time, CallNumber(k), SavedWord(k1, 10), SavedWord(k1, 11), out, work);
  }

  /** The context after a call that stays in its address space. */
  lemma CallContext(l: Layout, k: Kernel, work: seq<Event>, r: int, events: seq<Event>, k': Kernel, w: nat)
    requires Inv(l, k) && HasCurrent(k) && CallEvents(k, work, r, events) && (work != [] ==> !work[0].Exec?)
    requires Reaches(l, k, events, k') && w < 512
    ensures SameTask(k, k')
    ensures SavedWord(k', w) == if w == 10 then ToWord(r) else if w == 33 then (SavedWord(k, 33) + 4) % TWO_64
              else SavedWord(k, w)
  {
    hide Inv, Reaches, SavedWord, ToWord;
    EventsKeepContext(l, k, events, k', w);
    LastSavedOfCall(events[0], work, SaveWord(10, ToWord(r)), w, SavedWord(k, w));
  }

  lemma LastSavedOfCall(first: Event, work: seq<Event>, last: Event, w: nat, v: nat)
    requires first.SaveWord? && last.SaveWord? && (work == [] || (|work| == 1 && !work[0].SaveWord?))
    ensures LastSaved([first] + work + [last], w, v) == if w == last.i then last.w else if w == first.i then first.w
              else v
  {
    var v1 := if w == first.i then first.w else v;
    var events := [first] + work + [last];
    assert events[1..] == work + [last];
    assert LastSaved(events, w, v) == LastSaved(work + [last], w, v1);
    assert [last][1..] == [];
    assert LastSaved([last], w, v1) == if w == last.i then last.w else v1;
    if work == [] {
      assert work + [last] == [last];
    } else {
      assert (work + [last])[1..] == [last] && (work + [last])[0] == work[0];
    }
  }

  /** The context of a program that `exec` has just loaded. */
  function StartWord(e: Event, w: nat): nat
    requires e.Exec?
  {
    if w == SP then StackTop(e.segs) else if w == 32 then UserStatus(e.sstatus) else if w == 33 then e.entry else 0
  }

  lemma ExecContext(l: Layout, k: Kernel, e: Event, k': Kernel, w: nat)
    requires e.Exec? && ExecStep(l, k, e, k') && w < 34
    ensures HasCurrent(k') && SavedWord(k', w) == StartWord(e, w)
  {
    hide Loaded, Loadable, Plan, TrapCxPpn, KernelStackTop, StackTop, Owned, ContextPage, Word;
    var cx := TrapCxPpn(e.space);
    ContextPageWords(FrameAt(e.loaded.mem, cx), e.entry, StackTop(e.segs), e.sstatus, k.kspace.table.root,
                     KernelStackTop(CurrentTask(k).pid), l.trapHandler);
  }

  /** The context after an exec: that of the new program. */
  lemma ExecCallContext(l: Layout, k: Kernel, work: seq<Event>, r: int, events: seq<Event>, k': Kernel, w: nat)
    requires Inv(l, k) && HasCurrent(k) && CallEvents(k, work, r, events) && work != [] && work[0].Exec?
    requires Reaches(l, k, events, k') && w < 34
    ensures HasCurrent(k') && SavedWord(k', w) == StartWord(work[0], w)
  {
    hide Inv, Next, SavedWord, StartWord;
    var last := SaveWord(10, ToWord(r));
    assert events[1..] == [work[0], last] && events[1..][1..] == [last];
    var k1 :| Next(l, k, events[0], k1) && Reaches(l, k1, events[1..], k');
    var k2 :| Next(l, k1, work[0], k2) && Reaches(l, k2, [last], k');
    var k3 :| Next(l, k2, last, k3) && Reaches(l, k3, [last][1..], k');
    assert [last][1..] == [] && k3 == k';
    NextKeepsInv(l, k, events[0], k1);
    NextKeepsInv(l, k1, work[0], k2);
    ExecIs(l, k1, work[0], k2);
    ExecContext(l, k1, work[0], k2, w);
    StepKeepsContext(l, k2, last, k', w);
    StartsAtZero(work[0]);
  }

  lemma ExecIs(l: Layout, k: Kernel, e: Event, k': Kernel)
    requires Next(l, k, e, k') && e.Exec?
    ensures ExecStep(l, k, e, k')
  {
    hide ExecStep;
  }

  lemma StartsAtZero(e: Event)
    requires e.Exec?
    ensures StartWord(e, 10) == 0 == ToWord(0)
  {}

  /** User mode goes on after a system call with result `r`: the result in x10, the next instruction, and
      every other register but tp as it was. */
  ghost predicate Continues(x: Registers, sstatus: nat, sepc: nat, r: int, x': Registers, sstatus': nat, sepc': nat) {
    && Reads(x'[10], r) && sepc' == (sepc + 4) % TWO_64 && sstatus' == sstatus
    && forall i | 1 <= i < 32 && i != 4 && i != 10 :: x'[i] == x[i]
  }

  /** User mode begins a program: at its entry point, with the top of its stack in sp and the bit SPP of
      `sstatus` clear, so that `sret` goes to user mode. */
  ghost predicate Begins(e: Event, x': Registers, sstatus': nat, sepc': nat) {
    && e.Exec? && sepc' == e.entry && x'[2] == StackTop(e.segs)
    && (forall i | 1 <= i < 32 && i != 4 && i != 2 :: x'[i] == 0)
    && sstatus' / 0x100 % 2 == 0 && (sstatus' == e.sstatus || sstatus' + 0x100 == e.sstatus)
  }

  /** A trap, the handler and the return, on whatever registers the kernel uses meanwhile (`work`): when the
      call returns, user mode has all its registers back except for the result in x10 and tp, and goes
      on after the `ecall`; after a successful exec it begins the new program. */
  method ServeTrap(sys: System, h: Hart, cause: Cause, apps: map<seq<Byte>, App>, sstatus: nat, time: nat,
                   work: Registers)
    returns (out: Outcome, ghost saves: seq<Event>, ghost events: seq<Event>)
    requires sys.Valid() && OnCurrent(sys.View(), h) && sstatus < TWO_64
    requires cause == UserEnvCall ==> h.x[17] !in {SYSCALL_READ, SYSCALL_WRITE}
    requires forall name | name in apps :: Loadable(apps[name].segs) && apps[name].entry < TWO_64
    modifies h, sys, sys.manager, sys.pids, sys.ram, sys.ram.frames, sys.kernelSpace, sys.kernelSpace.table, sys.spaces
    ensures saves == SaveEvents(SavedWords(old(h.x), old(h.sstatus), old(h.sepc)))
    ensures Sound(out) ==> sys.Valid() && Reaches(sys.layout, old(sys.View()), saves + events, sys.View())
    ensures out.Returned? ==>
              cause == UserEnvCall && OnCurrent(sys.View(), h) && sys.current == old(sys.current) && h.x[TP] == work[TP]
    ensures out.Returned? && (forall i | 0 <= i < |events| :: !events[i].Exec?) ==>
              Continues(old(h.x), old(h.sstatus), old(h.sepc), out.r, h.x, h.sstatus, h.sepc)
    ensures out.Returned? ==>
              forall i | 0 <= i < |events| && events[i].Exec? :: Begins(events[i], h.x, h.sstatus, h.sepc)
  {
    hide Inv, Next, System.Linked, System.Fixed, Loadable, TrapResult, Reaches, SetEntry, Entry, MemorySet.View,
         Token, KernelStackTop, SaveEvents;
    ghost var l, k0 := sys.layout, sys.View();
    ghost var x, st, pc := h.x, h.sstatus, h.sepc;
    var handler;
    handler, saves := TrapEntry(sys, h);
    ghost var k1 := sys.View();
    NumberKept(k1);
    out, events := Handle(sys, cause, apps, sstatus, time);
    ghost var k2 := sys.View();
    if Sound(out) {
      ReachesThrough(l, k0, saves, k1, events, k2);
    }
    if out.Returned? {
      TrapReturn(sys, h, work);
      ghost var done := ReturnedCall(k1, apps, sstatus, time, cause, out, events);
      BackInUserMode(l, k1, done, out.r, events, k2, x, st, pc, h.x, h.sstatus, h.sepc);
    }
  }

  lemma {:induction false} ReachesThrough(l: Layout, k: Kernel, es: seq<Event>, m: Kernel, fs: seq<Event>, k': Kernel)
    requires Reaches(l, k, es, m) && Reaches(l, m, fs, k')
    ensures Reaches(l, k, es + fs, k')
    decreases |es|
  {
    hide Next;
    if es == [] {
      assert es + fs == fs;
    } else {
      var n :| Next(l, k, es[0], n) && Reaches(l, n, es[1..], m);
      ReachesThrough(l, n, es[1..], m, fs, k');
      assert (es + fs)[1..] == es[1..] + fs;
    }
  }

  lemma NumberKept(k: Kernel)
    requires HasCurrent(k)
    ensures CallNumber(k) == SavedWord(k, 17)
  {
    hide Entry, SetEntry;
    SetEntryRead(k.phys.mem, CurrentTask(k).trapCxPpn, 33, (SavedWord(k, 33) + 4) % TWO_64);
  }

  /** From the words of the context to the registers of user mode. */
  lemma BackInUserMode(l: Layout, k: Kernel, work: seq<Event>, r: int, events: seq<Event>, k': Kernel, x: Registers,
                       sstatus: Word64, sepc: Word64,
                       x': Registers, sstatus': nat, sepc': nat)
    requires Inv(l, k) && HasCurrent(k) && CallEvents(k, work, r, events) && Reaches(l, k, events, k') && HasCurrent(k')
    requires SavedWord(k, 32) == sstatus && SavedWord(k, 33) == sepc
    requires forall i: nat | 1 <= i < 32 && i != TP :: SavedWord(k, i) == x[i]
    requires sstatus' == SavedWord(k', 32) && sepc' == SavedWord(k', 33)
    requires forall i: nat | 1 <= i < 32 && i != TP :: x'[i] == SavedWord(k', i)
    ensures (forall i | 0 <= i < |events| :: !events[i].Exec?) ==> Continues(x, sstatus, sepc, r, x', sstatus', sepc')
    ensures forall i | 0 <= i < |events| && events[i].Exec? :: Begins(events[i], x', sstatus', sepc')
  {
    hide Inv, Reaches, SavedWord, ToWord, StackTop, Reads;
    WordReads(r);
    if work != [] && work[0].Exec? {
      assert events[1] == work[0];
      forall w: nat | w < 34 ensures SavedWord(k', w) == StartWord(work[0], w) {
        ExecCallContext(l, k, work, r, events, k', w);
      }
    } else {
      forall w: nat | w < 34
        ensures SavedWord(k', w) == if w == 10 then ToWord(r) else if w == 33 then (SavedWord(k, 33) + 4) % TWO_64
                  else SavedWord(k, w)
      {
        CallContext(l, k, work, r, events, k', w);
      }
    }
  }
}
