/** The stack-style frame allocator and the memory it hands out (os/src/mm/frame_allocator.rs). */
module FrameAllocation {
  import opened Address
  import opened PhysicalMemory

  datatype Option<+T> = None | Some(value: T)

  ghost function Elements(s: seq<nat>): set<nat> { set p | p in s }

  lemma ElementsOfNone()
    ensures Elements([]) == {}
  {}

  lemma PopLast(s: seq<nat>)
    requires |s| > 0
    requires forall i, j :: 0 <= i < j < |s| ==> s[i] != s[j]
    ensures s[|s| - 1] in Elements(s)
    ensures Elements(s[..|s| - 1]) == Elements(s) - {s[|s| - 1]}
  {
    assert s == s[..|s| - 1] + [s[|s| - 1]];
  }

  class StackFrameAllocator {
    var current: nat
    var end: nat
    var recycled: seq<nat>
    /** Where the pool began; `init` does not keep it. */
    ghost var start: nat

    ghost predicate Valid()
      reads this
    {
      && start <= current <= end <= TWO_44
      && (forall i :: 0 <= i < |recycled| ==> start <= recycled[i] < current)
      && (forall i, j :: 0 <= i < j < |recycled| ==> recycled[i] != recycled[j])
    }

    /** The frames the allocator can still hand out. */
    ghost function Free(): set<nat>
      reads this
    {
      Elements(recycled) + Pages(current, end)
    }

    ghost function Pool(): set<nat>
      reads this
    {
      Pages(start, end)
    }

    constructor ()
      ensures Valid() && Free() == {} && Pool() == {}
    {
      current, end, recycled, start := 0, 0, [], 0;
    }

    method Init(l: nat, r: nat)
      requires l <= r <= TWO_44 && recycled == []
      modifies this
      ensures Valid() && Free() == Pool() == Pages(l, r)
    {
      current, end, start := l, r, l;
    }

    /** Fails exactly when nothing is free; prefers the most recently recycled frame. */
    method Alloc() returns (r: Option<nat>)
      requires Valid()
      modifies this
      ensures Valid() && Pool() == old(Pool())
      ensures r.None? <==> old(Free()) == {}
      ensures r.None? ==> Free() == old(Free())
      ensures r.Some? ==> r.value in old(Free()) && Free() == old(Free()) - {r.value}
      ensures end == old(end) && start == old(start)
      ensures var n := |old(recycled)|; n > 0 ==>
                r == Some(old(recycled)[n - 1]) && recycled == old(recycled)[..n - 1] && current == old(current)
    {
      hide Elements;
      if |recycled| > 0 {
        var ppn := recycled[|recycled| - 1];
        PopLast(recycled);
        recycled := recycled[..|recycled| - 1];
        r := Some(PhysPageNumFrom(ppn));
      } else if current == end {
        ElementsOfNone();
        assert recycled == [] && Pages(current, end) == {};
        r := None;
      } else {
        ElementsOfNone();
        assert current in Pages(current, end);
        assert Pages(current, end) == {current} + Pages(current + 1, end);
        current := current + 1;
        r := Some(PhysPageNumFrom(current - 1));
      }
    }

    /** The panic "has not been allocated" of `dealloc`. */
    predicate Rejects(ppn: nat)
      reads this
    {
      ppn >= current || ppn in recycled
    }

    /** Given back a frame of the pool that is not free, the check passes and the frame is free. */
    method Dealloc(ppn: nat)
      requires Valid() && !Rejects(ppn) && start <= ppn
      modifies this
      ensures Valid() && Pool() == old(Pool())
      ensures ppn !in old(Free()) && Free() == old(Free()) + {ppn}
      ensures recycled == old(recycled) + [ppn] && current == old(current) && end == old(end)
    {
      recycled := recycled + [ppn];
      assert forall p :: p in recycled <==> p in old(recycled) || p == ppn;
    }

    /** The check of `dealloc` rejects a pool frame exactly when the frame is free. It does not
        know where the pool begins: a frame below `start` passes it. */
    lemma RejectsExactly(ppn: nat)
      requires Valid()
      ensures ppn in Pool() ==> (Rejects(ppn) <==> ppn in Free())
      ensures ppn < start ==> !Rejects(ppn)
    {}
  }

  /** A frame pushed by `dealloc` is the next one `alloc` returns, and the pair leaves the
      allocator as it was. */
  method DeallocThenAlloc(a: StackFrameAllocator, ppn: nat) returns (r: Option<nat>)
    requires a.Valid() && ppn in a.Pool() && ppn !in a.Free()
    modifies a
    ensures r == Some(ppn)
    ensures a.current == old(a.current) && a.recycled == old(a.recycled) && a.end == old(a.end)
  {
    a.RejectsExactly(ppn);
    a.Dealloc(ppn);
    r := a.Alloc();
  }

  /** What the rest of memory management sees: the bytes and the frames still free. */
  datatype Phys = Phys(mem: Memory, free: set<nat>)

  /** At most `n` of the frames that were free have been taken. */
  ghost predicate Spent(before: set<nat>, after: set<nat>, n: nat) { |before| <= |after| + n }

  lemma SpentOne(free: set<nat>, p: nat)
    ensures Spent(free, free, 0) && Spent(free, free - {p}, 1)
  {
    if p in free {
      assert free == free - {p} + {p};
    } else {
      assert free - {p} == free;
    }
  }

  lemma SpentThen(a: set<nat>, b: set<nat>, c: set<nat>, m: nat, n: nat, total: nat)
    requires Spent(a, b, m) && Spent(b, c, n) && m + n <= total
    ensures Spent(a, c, total)
  {}

  lemma SpentMore(a: set<nat>, b: set<nat>, m: nat, n: nat)
    requires Spent(a, b, m) && m <= n
    ensures Spent(a, b, n)
  {}

  /** When everything is spent, no more was there than could be spent. */
  lemma SpentAll(a: set<nat>, n: nat)
    requires Spent(a, {}, n)
    ensures |a| <= n
  {}

  /** Physical memory together with its allocator, behind `frame_alloc` and `FrameTracker`. */
  class Ram {
    var mem: Memory
    const frames: StackFrameAllocator

    ghost predicate Valid()
      reads this, frames
    {
      frames.Valid()
    }

    ghost function View(): Phys
      reads this, frames
    {
      Phys(mem, frames.Free())
    }

    ghost function Pool(): set<nat>
      reads this, frames
    {
      frames.Pool()
    }

    constructor (mem: Memory, frames: StackFrameAllocator)
      ensures this.mem == mem && this.frames == frames
    {
      this.mem := mem;
      this.frames := frames;
    }

    /** `frame_alloc`: take a frame and clear it byte by byte (`FrameTracker::new`). */
    method FrameAlloc() returns (r: Option<nat>)
      requires Valid()
      modifies this, frames
      ensures Valid() && Pool() == old(Pool())
      ensures r.None? ==> View() == old(View()) && View().free == {}
      ensures r.Some? ==> r.value in old(View()).free && r.value < TWO_44
      ensures r.Some? ==> View() == Phys(old(mem)[r.value := ZeroFrame()], old(View()).free - {r.value})
    {
      r := frames.Alloc();
      match r
      case None =>
      case Some(ppn) =>
        var bytes := FrameAt(mem, ppn);
        for i := 0 to 4096
          invariant forall k :: 0 <= k < i ==> bytes[k] == 0
        {
          bytes := PutByte(bytes, i, 0);
        }
        assert bytes == ZeroFrame();
        mem := mem[ppn := bytes];
    }

    /** `FrameTracker::drop` on a frame that is owned: the panic of `dealloc` is unreachable. */
    method FrameDealloc(ppn: nat)
      requires Valid() && ppn in Pool() && ppn !in View().free
      modifies frames
      ensures Valid() && Pool() == old(Pool())
      ensures View() == Phys(old(mem), old(View()).free + {ppn})
    {
      frames.RejectsExactly(ppn);
      frames.Dealloc(ppn);
    }
  }
}
