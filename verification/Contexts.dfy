/** Saving and restoring registers: `__alltraps` and `__restore` on the trap context page
    (os/src/trap/trap.S, os/src/trap/context.rs) and `__switch` between two task contexts
    (os/src/task/switch.S, os/src/task/context.rs). Control flow is not modelled: what counts is
    where every register goes. Loads and stores go through the page table that `satp` names. */
module Contexts {
  import opened Address
  import opened PhysicalMemory
  import opened FrameAllocation
  import opened HardwareWalk

  type Word64 = w: nat | w < TWO_64

  /** The general registers x0 to x31. */
  type Registers = x: seq<Word64> | |x| == 32 witness seq(32, (_: nat) => 0 as Word64)

  const RA: nat := 1
  const SP: nat := 2
  const TP: nat := 4
  const A0: nat := 10
  const A1: nat := 11

  /** The number of s0 to s11 among the general registers. */
  function SavedRegister(n: nat): (r: nat)
    requires n < 12
    ensures r in {8, 9} || 18 <= r < 28
  {
    if n < 2 then 8 + n else 16 + n
  }

  lemma SavedRegistersDiffer(m: nat, n: nat)
    requires m < 12 && n < 12 && SavedRegister(m) == SavedRegister(n)
    ensures m == n
  {}

  /** What `__alltraps` must leave in word `i` of the context: x1 to x31 except x4, then `sstatus`
      and `sepc`; the words of the kernel stay. */
  function TrapWord(x: Registers, sstatus: Word64, sepc: Word64, before: Word64, i: nat): Word64 {
    if 1 <= i < 32 && i != 4 then x[i] else if i == 32 then sstatus else if i == 33 then sepc else before
  }

  /** The word that store number `n` of `__alltraps` writes, and the number of the store that writes word `i`. */
  function SaveIndex(n: nat): (i: nat)
    requires n < 32
    ensures 1 <= i < 34 && i != TP && SavePosition(i) == n
  {
    if n == 0 then 1 else if n == 1 then 3 else if n < 31 then n + 3 else 2
  }

  function SavePosition(i: nat): nat
    requires 1 <= i < 34 && i != TP
  {
    if i == 1 then 0 else if i == 2 then 31 else if i == 3 then 1 else i - 3
  }

  /** The stores of `__alltraps` in their order: the word of the context and its value. */
  function SavedWords(x: Registers, sstatus: Word64, sepc: Word64): (ws: seq<(nat, Word64)>)
    ensures |ws| == 32 && forall n | 0 <= n < 32 :: ws[n] == (SaveIndex(n), TrapWord(x, sstatus, sepc, 0, SaveIndex(n)))
  {
    seq(32, n requires 0 <= n < 32 => (SaveIndex(n), TrapWord(x, sstatus, sepc, 0, SaveIndex(n))))
  }

  ghost predicate InPage(ws: seq<(nat, Word64)>) { forall n | 0 <= n < |ws| :: ws[n].0 < 512 }

  /** Memory after some words of the frame `cx` have been stored one after the other. */
  ghost function StoreAll(mem: Memory, cx: nat, ws: seq<(nat, Word64)>): Memory
    requires InPage(ws)
  {
    if ws == [] then mem
    else var n := |ws| - 1; SetEntry(StoreAll(mem, cx, ws[..n]), cx, ws[n].0, ws[n].1)
  }

  lemma StoreNext(mem: Memory, cx: nat, ws: seq<(nat, Word64)>, n: nat)
    requires InPage(ws) && n < |ws|
    ensures StoreAll(mem, cx, ws[..n + 1]) == SetEntry(StoreAll(mem, cx, ws[..n]), cx, ws[n].0, ws[n].1)
  {
    hide SetEntry;
    assert ws[..n + 1][..n] == ws[..n];
  }

  /** After the first `n` stores of a trap the words they wrote are the registers; the rest is as before. */
  lemma {:induction false} SavedSoFar(mem: Memory, cx: nat, x: Registers, sstatus: Word64, sepc: Word64, n: nat, i: nat)
    requires n <= 32 && i < 512
    ensures Entry(StoreAll(mem, cx, SavedWords(x, sstatus, sepc)[..n]), cx, i)
            == if 1 <= i < 34 && i != TP && SavePosition(i) < n then TrapWord(x, sstatus, sepc, 0, i)
               else Entry(mem, cx, i)
    ensures SameOff(mem, StoreAll(mem, cx, SavedWords(x, sstatus, sepc)[..n]), {cx})
  {
    hide Entry, SetEntry, TrapWord;
    var ws := SavedWords(x, sstatus, sepc);
    if n > 0 {
      SavedSoFar(mem, cx, x, sstatus, sepc, n - 1, i);
      assert ws[..n][..n - 1] == ws[..n - 1];
      SetEntryRead(StoreAll(mem, cx, ws[..n - 1]), cx, SaveIndex(n - 1), ws[n - 1].1);
    }
  }

  /** What a trap leaves in memory: every word of the context as it should be, and nothing else changed. */
  lemma SavedContext(mem: Memory, cx: nat, x: Registers, sstatus: Word64, sepc: Word64)
    ensures var mem' := StoreAll(mem, cx, SavedWords(x, sstatus, sepc));
            && (forall i: nat | i < 512 :: Entry(mem', cx, i) == TrapWord(x, sstatus, sepc, Entry(mem, cx, i), i))
            && SameOff(mem, mem', {cx})
  {
    hide Entry;
    var ws := SavedWords(x, sstatus, sepc);
    assert ws[..32] == ws;
    SavedSoFar(mem, cx, x, sstatus, sepc, 32, 0);
    forall i: nat | i < 512
      ensures Entry(StoreAll(mem, cx, ws), cx, i) == TrapWord(x, sstatus, sepc, Entry(mem, cx, i), i)
    {
      SavedSoFar(mem, cx, x, sstatus, sepc, 32, i);
    }
  }

  // ---- the page of the context ----

  /** The address of word `i` of the trap context. */
  function WordAddress(i: nat): nat { TRAP_CONTEXT + 8 * i }

  /** Loads and stores of supervisor mode to the trap context reach frame `cx`, and go on doing so
      whatever is written to that frame. */
  ghost predicate ContextAt(mem: Memory, satp: nat, cx: nat) {
    forall m: Memory, i: nat, acc: Access | SameOff(mem, m, {cx}) && i < 512 && !acc.Fetch? ::
      Physical(m, satp, WordAddress(i), acc, Supervisor) == Some(cx * PAGE_SIZE + 8 * i)
  }

  lemma ContextStays(mem: Memory, mem': Memory, satp: nat, cx: nat)
    requires ContextAt(mem, satp, cx) && SameOff(mem, mem', {cx})
    ensures ContextAt(mem', satp, cx)
  {
    hide Physical, WordAddress, FrameAt;
    forall m: Memory, i: nat, acc: Access | SameOff(mem', m, {cx}) && i < 512 && !acc.Fetch?
      ensures Physical(m, satp, WordAddress(i), acc, Supervisor) == Some(cx * PAGE_SIZE + 8 * i)
    {
      assert SameOff(mem, m, {cx});
    }
  }

  /** The frame and the word of the physical address behind word `i`. */
  lemma WordReached(mem: Memory, satp: nat, cx: nat, i: nat, acc: Access)
    requires ContextAt(mem, satp, cx) && i < 512 && !acc.Fetch?
    ensures Physical(mem, satp, TRAP_CONTEXT + 8 * i, acc, Supervisor) == Some(cx * PAGE_SIZE + 8 * i)
    ensures (cx * PAGE_SIZE + 8 * i) / 0x1000 == cx && (cx * PAGE_SIZE + 8 * i) % 0x1000 / 8 == i
  {
    hide Physical;
    assert SameOff(mem, mem, {cx}) && WordAddress(i) == TRAP_CONTEXT + 8 * i;
  }

  /** The registers s0 to s11. */
  type Callee = s: seq<Word64> | |s| == 12 witness seq(12, (_: nat) => 0 as Word64)

  function Put(x: Registers, i: nat, w: Word64): Registers
    requires i < 32
  {
    x[i := w]
  }

  class TaskContext {
    var ra: Word64
    var sp: Word64
    var s: Callee

    constructor (ra: Word64, sp: Word64)
      ensures this.ra == ra && this.sp == sp && forall n | 0 <= n < 12 :: s[n] == 0
    {
      this.ra, this.sp := ra, sp;
      s := seq(12, (_: nat) => 0 as Word64);
    }
  }

  class Hart {
    var x: Registers
    var sepc: Word64
    var sstatus: Word64
    var sscratch: Word64
    var satp: Word64

    constructor (x: Registers, sepc: Word64, sstatus: Word64, sscratch: Word64, satp: Word64)
      ensures this.x == x && this.sepc == sepc && this.sstatus == sstatus && this.sscratch == sscratch
      ensures this.satp == satp
    {
      this.x, this.sepc, this.sstatus, this.sscratch, this.satp := x, sepc, sstatus, sscratch, satp;
    }

    /** `sd` of `w` at `8 * i` from sp on. */
    method Store(ram: Ram, i: nat, w: Word64, ghost cx: nat)
      requires i < 512 && x[SP] == TRAP_CONTEXT && ContextAt(ram.mem, satp, cx)
      modifies ram
      ensures ram.mem == SetEntry(old(ram.mem), cx, i, w) && ContextAt(ram.mem, satp, cx)
    {
      hide Entry, SetEntry, Physical;
      var va := x[SP] + 8 * i;
      WordReached(ram.mem, satp, cx, i, Access.Store);
      var pa := Physical(ram.mem, satp, va, Access.Store, Supervisor);
      SetEntryRead(ram.mem, cx, i, w);
      ContextStays(ram.mem, SetEntry(ram.mem, cx, i, w), satp, cx);
      ram.mem := SetEntry(ram.mem, pa.value / 0x1000, pa.value % 0x1000 / 8, w);
    }

    /** `ld` from `8 * i` from sp on. */
    method Load(ram: Ram, i: nat, ghost cx: nat) returns (w: Word64)
      requires i < 512 && x[SP] == TRAP_CONTEXT && ContextAt(ram.mem, satp, cx)
      ensures w == Entry(ram.mem, cx, i)
    {
      hide Entry, Physical;
      var va := x[SP] + 8 * i;
      WordReached(ram.mem, satp, cx, i, Access.Load);
      var pa := Physical(ram.mem, satp, va, Access.Load, Supervisor);
      w := Entry(ram.mem, pa.value / 0x1000, pa.value % 0x1000 / 8);
    }

    /** `__alltraps` from user mode, with the address of the context in `sscratch`: the entry point of the
        handler. The user registers go to the context, one word after the other, and nothing else in memory
        changes; the words of the kernel come from there. */
    method AllTraps(ram: Ram, ghost cx: nat) returns (handler: Word64)
      requires sscratch == TRAP_CONTEXT && ContextAt(ram.mem, satp, cx)
      modifies this, ram
      ensures ram.mem == StoreAll(old(ram.mem), cx, SavedWords(old(x), old(sstatus), old(sepc)))
      ensures forall i: nat | i < 512 ::
                Entry(ram.mem, cx, i) == TrapWord(old(x), old(sstatus), old(sepc), Entry(old(ram.mem), cx, i), i)
      ensures SameOff(old(ram.mem), ram.mem, {cx})
      ensures satp == Entry(old(ram.mem), cx, 34) && x[2] == Entry(old(ram.mem), cx, 35)
      ensures handler == Entry(old(ram.mem), cx, 36)
    {
      hide Entry, SetEntry, ContextAt, SameOff;
      ghost var mem, ws := ram.mem, SavedWords(x, sstatus, sepc);
      var t := x[SP];
      x := Put(x, SP, sscratch);
      sscratch := t;
      Store(ram, 1, x[1], cx);
      Store(ram, 3, x[3], cx);
      StoreNext(mem, cx, ws, 0);
      StoreNext(mem, cx, ws, 1);
      for n := 5 to 32
        invariant x == old(x)[SP := old(sscratch)] && sscratch == old(x)[SP] && sstatus == old(sstatus)
                  && sepc == old(sepc)
        invariant satp == old(satp) && ContextAt(ram.mem, satp, cx) && ram.mem == StoreAll(mem, cx, ws[..n - 3])
      {
        Store(ram, n, x[n], cx);
        StoreNext(mem, cx, ws, n - 3);
      }
      var t0, t1 := sstatus, sepc;
      Store(ram, 32, t0, cx);
      StoreNext(mem, cx, ws, 29);
      Store(ram, 33, t1, cx);
      StoreNext(mem, cx, ws, 30);
      var t2 := sscratch;
      Store(ram, 2, t2, cx);
      StoreNext(mem, cx, ws, 31);
      assert ws[..32] == ws;
      SavedContext(mem, cx, old(x), old(sstatus), old(sepc));
      t0 := Load(ram, 34, cx);
      t1 := Load(ram, 36, cx);
      var sp := Load(ram, 35, cx);
      x := Put(Put(Put(Put(x, 5, t0), 6, t1), 7, t2), SP, sp);
      satp := t0;
      handler := t1;
    }

    /** `__restore`, with the address of the context in a0 and the token of the space in a1: every register
        but x0 and tp comes from the context. */
    method Restore(ram: Ram, ghost cx: nat)
      requires x[A0] == TRAP_CONTEXT && ContextAt(ram.mem, x[A1], cx)
      modifies this
      ensures satp == old(x)[A1] && sscratch == TRAP_CONTEXT
      ensures sstatus == Entry(ram.mem, cx, 32) && sepc == Entry(ram.mem, cx, 33)
      ensures forall i | 1 <= i < 32 && i != 4 :: x[i] == Entry(ram.mem, cx, i)
      ensures x[0] == old(x)[0] && x[4] == old(x)[4]
    {
      hide Entry, ContextAt;
      satp := x[A1];
      sscratch := x[A0];
      x := Put(x, SP, x[A0]);
      var t0 := Load(ram, 32, cx);
      var t1 := Load(ram, 33, cx);
      x := Put(Put(x, 5, t0), 6, t1);
      sstatus := x[5];
      sepc := x[6];
      var ra := Load(ram, 1, cx);
      var gp := Load(ram, 3, cx);
      x := Put(Put(x, 1, ra), 3, gp);
      for n := 5 to 32
        invariant satp == old(x)[A1] && sscratch == TRAP_CONTEXT && x[SP] == TRAP_CONTEXT
        invariant sstatus == Entry(ram.mem, cx, 32) && sepc == Entry(ram.mem, cx, 33)
        invariant forall i | 1 <= i < n && i != TP && i != SP :: x[i] == Entry(ram.mem, cx, i)
        invariant x[0] == old(x)[0] && x[TP] == old(x)[TP]
      {
        var w := Load(ram, n, cx);
        x := Put(x, n, w);
      }
      var sp := Load(ram, 2, cx);
      x := Put(x, SP, sp);
    }

    /** `__switch`: the callee-saved registers go to `current` and come from `next`; no other register
        changes. A context switched to itself is left as it is. */
    method Switch(current: TaskContext, next: TaskContext)
      modifies this, current
      ensures current.ra == old(x)[1] && current.sp == old(x)[2]
      ensures forall n | 0 <= n < 12 :: current.s[n] == old(x)[if n < 2 then 8 + n else 16 + n]
      ensures current != next ==> x[1] == old(next.ra) && x[2] == old(next.sp)
      ensures current != next ==> forall n | 0 <= n < 12 :: x[if n < 2 then 8 + n else 16 + n] == old(next.s)[n]
      ensures current == next ==> x == old(x)
      ensures forall i | 0 <= i < 32 && i !in {1, 2, 8, 9} && !(18 <= i < 28) :: x[i] == old(x)[i]
      ensures sepc == old(sepc) && sstatus == old(sstatus) && sscratch == old(sscratch) && satp == old(satp)
    {
      current.sp := x[SP];
      current.ra := x[RA];
      for n := 0 to 12
        modifies current
        invariant current.ra == x[RA] && current.sp == x[SP]
        invariant current != next ==> next.ra == old(next.ra) && next.sp == old(next.sp) && next.s == old(next.s)
        invariant forall i | 0 <= i < n :: current.s[i] == x[SavedRegister(i)]
      {
        current.s := current.s[n := x[SavedRegister(n)]];
      }
      x := Put(x, RA, next.ra);
      for n := 0 to 12
        modifies this
        invariant forall i | 0 <= i < n :: x[SavedRegister(i)] == next.s[i]
        invariant x[RA] == next.ra && x[SP] == old(x)[SP]
        invariant current == next ==> x == old(x)
        invariant forall i | 0 <= i < 32 && i !in {RA, SP, 8, 9} && !(18 <= i < 28) :: x[i] == old(x)[i]
        invariant sepc == old(sepc) && sstatus == old(sstatus) && sscratch == old(sscratch) && satp == old(satp)
      {
        forall i | 0 <= i < n ensures SavedRegister(i) != SavedRegister(n) {
          if SavedRegister(i) == SavedRegister(n) {
            SavedRegistersDiffer(i, n);
          }
        }
        x := Put(x, SavedRegister(n), next.s[n]);
      }
      x := Put(x, SP, next.sp);
    }
  }

  /** A trap followed by a return to the same context: user mode has every register but tp back,
      with `sepc` and `sstatus`, whatever the kernel did with the registers in between. */
  method TrapAndReturn(h: Hart, ram: Ram, ghost cx: nat, work: Registers)
    requires h.sscratch == TRAP_CONTEXT && ContextAt(ram.mem, h.satp, cx)
    modifies h, ram
    ensures forall i | 1 <= i < 32 && i != TP :: h.x[i] == old(h.x)[i]
    ensures h.sepc == old(h.sepc) && h.sstatus == old(h.sstatus) && h.satp == old(h.satp) && h.sscratch == TRAP_CONTEXT
    ensures h.x[TP] == work[TP]
    ensures forall i: nat | 34 <= i < 512 || i in {0, TP} :: Entry(ram.mem, cx, i) == Entry(old(ram.mem), cx, i)
    ensures SameOff(old(ram.mem), ram.mem, {cx})
  {
    hide Entry, SameOff, ContextAt;
    var token := h.satp;
    var _ := h.AllTraps(ram, cx);
    ContextStays(old(ram.mem), ram.mem, token, cx);
    h.x := Put(Put(work, A0, TRAP_CONTEXT), A1, token);
    h.Restore(ram, cx);
  }
}
