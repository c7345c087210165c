/** Reaching user memory from the kernel: `translate_va`, `translated_byte_buffer`,
    `translated_str` and `translated_refmut` (os/src/mm/page_table.rs). */
module UserBuffers {
  import opened Address
  import opened PhysicalMemory
  import opened PageTableEntries
  import opened FrameAllocation
  import opened TableModel
  import opened PageTables
  import opened SpaceModel
  import opened SpaceCopies
  import opened HardwareWalk
  import opened KernelAccess

  /** `token`: `8usize << 60 | root`. */
  function Token(root: nat): nat { 8 * 0x1000_0000_0000_0000 + root }

  /** The root that `from_token` takes out of a token. */
  function RootOfToken(satp: nat): nat { satp % TWO_44 }

  lemma TokenRoundTrip(root: nat)
    requires root < TWO_44
    ensures RootOfToken(Token(root)) == root
  {}

  /** As the hardware reads it, a token switches Sv39 on, with the root and address space 0. */
  lemma TokenFields(root: nat)
    requires root < TWO_44
    ensures SatpMode(Token(root)) == SV39 && SatpAsid(Token(root)) == 0 && SatpPpn(Token(root)) == root
    ensures Token(root) < TWO_64
  {}

  /** `translate_va`: the physical address that the walk yields, whatever the flags of the leaf. */
  function TranslateVa(mem: Memory, root: nat, va: nat): (pa: Option<nat>) {
    match Translate(mem, root, Floor(VirtAddrFrom(va)))
    case None => None
    case Some(pte) => Some(PtePpn(pte) * PAGE_SIZE + PageOffset(VirtAddrFrom(va)))
  }

  /** The page of `va` has a leaf entry, valid or not. */
  predicate HasLeaf(mem: Memory, root: nat, va: nat) {
    Translate(mem, root, Floor(VirtAddrFrom(va))).Some?
  }

  /** The frame and offset behind a virtual address. */
  function Location(mem: Memory, root: nat, va: nat): (nat, nat) {
    (PtePpn(EntryOf(mem, root, Floor(va))), PageOffset(va))
  }

  /** The locations behind the `n` addresses from `va` on. */
  ghost function LocationsFrom(mem: Memory, root: nat, va: nat, n: nat): (l: seq<(nat, nat)>)
    ensures |l| == n
  {
    seq(n, k requires 0 <= k < n => Location(mem, root, va + k))
  }

  /** A slice [from, to) of one frame. */
  datatype Slice = Slice(ppn: nat, from: nat, to: nat)

  ghost function SliceLocations(s: Slice): seq<(nat, nat)>
    requires s.from <= s.to
  {
    seq(s.to - s.from, k requires 0 <= k < s.to - s.from => (s.ppn, s.from + k))
  }

  ghost predicate SlicesOk(v: seq<Slice>) {
    forall i | 0 <= i < |v| :: v[i].from < v[i].to <= PAGE_SIZE
  }

  ghost function Flatten(v: seq<Slice>): seq<(nat, nat)>
    requires SlicesOk(v)
  {
    if v == [] then [] else Flatten(v[..|v| - 1]) + SliceLocations(v[|v| - 1])
  }

  /** Where the loop of `translated_byte_buffer` goes on after the page of `start`. */
  function NextStart(start: nat, end: nat): nat {
    Min((Floor(VirtAddrFrom(start)) + 1) * PAGE_SIZE, VirtAddrFrom(end))
  }

  /** `start + len` in 64 bits. */
  function EndOf(ptr: nat, len: nat): nat { (ptr + len) % TWO_64 }

  /** The value of `start` after `n` rounds of the loop, on pages that all have a leaf entry. */
  function LoopAt(ptr: nat, end: nat, n: nat): nat {
    if n == 0 then ptr
    else
      var start := LoopAt(ptr, end, n - 1);
      if start < end then NextStart(start, end) else start
  }

  ghost predicate LoopEnds(ptr: nat, end: nat) { exists n: nat :: LoopAt(ptr, end, n) >= end }

  /** Below 2^39 every round makes progress. */
  lemma {:induction false} LoopProgress(ptr: nat, end: nat, n: nat)
    requires ptr <= end < TWO_39
    ensures Min(ptr + n, end) <= LoopAt(ptr, end, n) <= end
  {
    hide NextStart;
    if n > 0 {
      LoopProgress(ptr, end, n - 1);
      var start := LoopAt(ptr, end, n - 1);
      if start < end {
        EndOfSlice(start, end);
      }
    }
  }

  /** From 2^39 on the truncated end is never the end. */
  lemma {:induction false} LoopStuck(ptr: nat, end: nat, n: nat)
    requires ptr < end && end >= TWO_39
    ensures LoopAt(ptr, end, n) < end
  {
    if n > 0 {
      LoopStuck(ptr, end, n - 1);
    }
  }

  /** When does the call return? With a leaf entry for every page it looks at, exactly when there is
      nothing to do, when the buffer ends below 2^39, or when the 64-bit sum wraps around; in the last
      case it returns without a single byte. */
  lemma BufferReturns(ptr: nat, len: nat)
    requires ptr < TWO_64 && len < TWO_64
    ensures LoopEnds(ptr, EndOf(ptr, len)) <==> len == 0 || ptr + len < TWO_39 || ptr + len >= TWO_64
    ensures LoopEnds(ptr, EndOf(ptr, len)) && 0 < len <= EndOf(ptr, len) - ptr <==> 0 < len && ptr + len < TWO_39
  {
    hide LoopAt, EndOf;
    var end := EndOf(ptr, len);
    EndOfSum(ptr, len);
    if end <= ptr {
      LoopStart(ptr, end);
      assert LoopAt(ptr, end, 0) >= end;
    } else if end < TWO_39 {
      LoopProgress(ptr, end, end - ptr);
      assert LoopAt(ptr, end, end - ptr) >= end;
    } else {
      forall n: nat ensures LoopAt(ptr, end, n) < end {
        LoopStuck(ptr, end, n);
      }
    }
  }

  lemma EndOfSum(ptr: nat, len: nat)
    requires ptr < TWO_64 && len < TWO_64
    ensures EndOf(ptr, len) == if ptr + len < TWO_64 then ptr + len else ptr + len - TWO_64
  {}

  lemma LoopStart(ptr: nat, end: nat)
    ensures LoopAt(ptr, end, 0) == ptr
  {}

  lemma LocationsExtend(mem: Memory, root: nat, ptr: nat, start: nat, next: nat, ppn: nat)
    requires ptr <= start < next <= (Floor(start) + 1) * PAGE_SIZE
    requires ppn == PtePpn(EntryOf(mem, root, Floor(start)))
    ensures LocationsFrom(mem, root, ptr, next - ptr)
            == LocationsFrom(mem, root, ptr, start - ptr)
               + SliceLocations(Slice(ppn, PageOffset(start), PageOffset(start) + (next - start)))
  {
    hide EntryOf, PtePpn;
    var l, r := LocationsFrom(mem, root, ptr, next - ptr), LocationsFrom(mem, root, ptr, start - ptr);
    var s := SliceLocations(Slice(ppn, PageOffset(start), PageOffset(start) + (next - start)));
    forall k | 0 <= k < next - start ensures l[start - ptr + k] == s[k] {
      assert ptr + (start - ptr + k) == start + k;
      assert l[start - ptr + k] == Location(mem, root, start + k);
    }
  }

  lemma SamePage(start: nat, k: nat)
    requires start + k < (Floor(start) + 1) * PAGE_SIZE
    ensures Floor(start + k) == Floor(start) && PageOffset(start + k) == PageOffset(start) + k
  {}

  /** `translated_byte_buffer`, wherever it returns: the slices, one after the other, are exactly the
      locations of the buffer's bytes in order, or nothing if the sum wraps around. `None` stands for
      the panic on a page without a leaf entry. */
  method TranslatedByteBuffer(ram: Ram, root: nat, ptr: nat, len: nat) returns (r: Option<seq<Slice>>)
    requires ptr < TWO_64 && len < TWO_64 && (len == 0 || ptr + len < TWO_39 || ptr + len >= TWO_64)
    ensures r.None? <==> exists va: nat :: ptr <= va < EndOf(ptr, len) && !HasLeaf(ram.mem, root, va)
    ensures r.Some? ==> SlicesOk(r.value)
                        && Flatten(r.value) == LocationsFrom(ram.mem, root, ptr, if ptr + len < TWO_64 then len else 0)
  {
    hide PtePpn, Translate, Floor, VirtAddrFrom, PageOffset, LocationsFrom, SliceLocations;
    var start, end := ptr, EndOf(ptr, len);
    assert LocationsFrom(ram.mem, root, ptr, 0) == [];
    if end <= start {
      return Some([]);
    }
    var v := [];
    var table := new PageTable.WithRoot(root);
    while start < end
      invariant ptr <= start <= end && SlicesOk(v) && table.rootPpn == root
      invariant Flatten(v) == LocationsFrom(ram.mem, root, ptr, start - ptr)
      invariant forall va: nat | ptr <= va < start :: HasLeaf(ram.mem, root, va)
    {
      var startVa := VirtAddrFrom(start);
      var vpn := Floor(startVa);
      var pte := table.TranslateIn(ram, vpn);
      if pte.None? {
        assert !HasLeaf(ram.mem, root, start);
        return None;
      }
      var ppn := PtePpn(pte.value);
      vpn := vpn + 1;
      var endVa := Min(vpn * PAGE_SIZE, VirtAddrFrom(end));
      var slice := if PageOffset(endVa) == 0 then Slice(ppn, PageOffset(startVa), PAGE_SIZE)
                   else Slice(ppn, PageOffset(startVa), PageOffset(endVa));
      LowAddress(start);
      EndOfSlice(start, end);
      LocationsExtend(ram.mem, root, ptr, start, endVa, ppn);
      forall va: nat | start <= va < endVa ensures HasLeaf(ram.mem, root, va) {
        SamePage(start, va - start);
        LowAddress(va);
      }
      assert (v + [slice])[..|v|] == v;
      v := v + [slice];
      start := endVa;
    }
    r := Some(v);
  }

  lemma LowAddress(va: nat)
    requires va < TWO_39
    ensures VirtAddrFrom(va) == va
  {}

  lemma EndOfSlice(start: nat, end: nat)
    requires start < end < TWO_39
    ensures var endVa := NextStart(start, end);
            && start < endVa <= end && endVa <= (Floor(start) + 1) * PAGE_SIZE
            && (if PageOffset(endVa) == 0 then PAGE_SIZE else PageOffset(endVa)) == PageOffset(start) + (endVa - start)
  {}

  /** The character that `translated_str` reads `k` bytes after `ptr`, with the kernel table `kroot`
      active; `None` stands for a panic: no leaf entry, or a frame that the kernel cannot read. */
  function CharAt(mem: Memory, kroot: nat, root: nat, ptr: nat, k: nat): Option<Byte> {
    match TranslateVa(mem, root, ptr + k)
    case None => None
    case Some(pa) => match Deref(mem, kroot, pa, false) case None => None case Some((f, o)) => Some(FrameAt(mem, f)[o])
  }

  /** `text` is the string at `ptr`: the bytes before the first zero byte. */
  ghost predicate StringAt(mem: Memory, kroot: nat, root: nat, ptr: nat, text: seq<Byte>) {
    && (forall k: nat | k < |text| :: text[k] != 0 && CharAt(mem, kroot, root, ptr, k) == Some(text[k]))
    && CharAt(mem, kroot, root, ptr, |text|) == Some(0)
  }

  /** The string at `ptr` runs into a byte that cannot be read. */
  ghost predicate StringBroken(mem: Memory, kroot: nat, root: nat, ptr: nat) {
    exists n: nat ::
      CharAt(mem, kroot, root, ptr, n) == None && forall k: nat | k < n ::
          CharAt(mem, kroot, root, ptr, k) !in {None, Some(0)}
  }

  /** At an address there is one string, or none because it is broken. */
  lemma StringUnique(mem: Memory, kroot: nat, root: nat, ptr: nat, a: seq<Byte>, b: seq<Byte>)
    requires StringAt(mem, kroot, root, ptr, a) && StringAt(mem, kroot, root, ptr, b)
    ensures a == b && !StringBroken(mem, kroot, root, ptr)
  {
    hide CharAt;
  }

  /** `translated_str` on a string whose end, a zero byte or a byte that cannot be read, is not
      further than `bound`: exactly the bytes before the first zero byte. `None` stands for the
      panic on a byte that cannot be read. */
  method TranslatedStr(ram: Ram, kroot: nat, root: nat, ptr: nat, ghost bound: nat) returns (r: Option<seq<Byte>>)
    requires CharAt(ram.mem, kroot, root, ptr, bound) in {None, Some(0)}
    ensures r.Some? ==> StringAt(ram.mem, kroot, root, ptr, r.value)
    ensures r.None? ==> StringBroken(ram.mem, kroot, root, ptr)
  {
    hide PtePpn, Translate, FrameAt, Deref;
    var text: seq<Byte> := [];
    var va := ptr;
    var table := new PageTable.WithRoot(root);
    while true
      invariant va == ptr + |text| && |text| <= bound && table.rootPpn == root
      invariant forall k: nat | k < |text| :: text[k] != 0 && CharAt(ram.mem, kroot, root, ptr, k) == Some(text[k])
      decreases bound - |text|
    {
      var pte := table.TranslateIn(ram, Floor(VirtAddrFrom(va)));
      if pte.None? {
        assert CharAt(ram.mem, kroot, root, ptr, |text|) == None;
        return None;
      }
      var place := Deref(ram.mem, kroot, PtePpn(pte.value) * PAGE_SIZE + PageOffset(VirtAddrFrom(va)), false);
      if place.None? {
        assert CharAt(ram.mem, kroot, root, ptr, |text|) == None;
        return None;
      }
      var ch := FrameAt(ram.mem, place.value.0)[place.value.1];
      assert CharAt(ram.mem, kroot, root, ptr, |text|) == Some(ch);
      if ch == 0 {
        return Some(text);
      }
      text := text + [ch];
      va := va + 1;
    }
  }

  /** The kernel table maps the data of the space, as it maps all managed memory, to itself; it
      maps the trampoline frame without W and frame 0 not at all. */
  ghost predicate KernelSees(mem: Memory, kroot: nat, s: Space, tramp: nat) {
    && (forall f, store | f in DataFrames(s.areas) :: KernelPage(mem, kroot, f, store) == Some(f))
    && KernelPage(mem, kroot, tramp, true) == None && KernelPage(mem, kroot, tramp, false) == Some(tramp)
    && (forall store :: KernelPage(mem, kroot, 0, store) == None)
  }

  /** Where `translated_refmut` leads: a store is possible exactly when the page belongs to an area of
      the space, and then it goes to the frame of that page; everywhere else it is a panic. A load is
      possible in the trampoline page as well. */
  lemma RefmutTarget(mem: Memory, kroot: nat, s: Space, tramp: nat, va: nat, store: bool)
    requires SpaceOk(mem, s, tramp) && AllFramed(s.areas) && 0 < tramp < TWO_44 && KernelSees(mem, kroot, s, tramp)
    ensures var pa, v := TranslateVa(mem, s.table.root, va), Floor(VirtAddrFrom(va));
            && ((pa.Some? && Deref(mem, kroot, pa.value, store).Some?)
                <==> InSomeArea(s.areas, v) || (!store && v == TRAMPOLINE_VPN))
            && (InSomeArea(s.areas, v) ==>
                  && Floor(pa.value) in DataFrames(s.areas)
                  && Deref(mem, kroot, pa.value, store) == Some((Floor(pa.value), PageOffset(VirtAddrFrom(va)))))
  {
    hide TableOk, AreasOk, KernelSees, TranslateVa, Deref, Floor, VirtAddrFrom, PageOffset, DataFrames, AllFramed;
    var v := Floor(VirtAddrFrom(va));
    if InSomeArea(s.areas, v) {
      RefmutInside(mem, kroot, s, tramp, va, store);
    } else {
      RefmutOutside(mem, kroot, s, tramp, va, store);
    }
  }

  lemma RefmutInside(mem: Memory, kroot: nat, s: Space, tramp: nat, va: nat, store: bool)
    requires SpaceOk(mem, s, tramp) && AllFramed(s.areas) && KernelSees(mem, kroot, s, tramp)
    requires InSomeArea(s.areas, Floor(VirtAddrFrom(va)))
    ensures var pa := TranslateVa(mem, s.table.root, va);
            && pa.Some? && Floor(pa.value) in DataFrames(s.areas)
            && Deref(mem, kroot, pa.value, store) == Some((Floor(pa.value), PageOffset(VirtAddrFrom(va))))
  {
    var v := Floor(VirtAddrFrom(va));
    assert v < VPN_LIMIT;
    hide TableOk, AreasOk, DataFrames, LeafPte, PtePpn, Translate, TranslateVa, Floor, VirtAddrFrom, KernelPage,
         PageOffset;
    PaParts(mem, s.table.root, va);
    var i :| 0 <= i < |s.areas| && Covers(s.areas[i], v);
    FramedPage(mem, s, tramp, i, v);
    var f := s.areas[i].frames[v];
    assert KernelPage(mem, kroot, 0, store) == None;
    assert KernelPage(mem, kroot, f, store) == Some(f);
    var pa := TranslateVa(mem, s.table.root, va).value;
    FloorNull(pa);
  }

  lemma RefmutOutside(mem: Memory, kroot: nat, s: Space, tramp: nat, va: nat, store: bool)
    requires SpaceOk(mem, s, tramp) && AllFramed(s.areas) && 0 < tramp < TWO_44 && KernelSees(mem, kroot, s, tramp)
    requires !InSomeArea(s.areas, Floor(VirtAddrFrom(va)))
    ensures var pa := TranslateVa(mem, s.table.root, va);
            (pa.Some? && Deref(mem, kroot, pa.value, store).Some?)
            <==> !store && Floor(VirtAddrFrom(va)) == TRAMPOLINE_VPN
  {
    var v := Floor(VirtAddrFrom(va));
    assert v < VPN_LIMIT;
    hide TableOk, AreasOk, DataFrames, LeafPte, PtePpn, Translate, TranslateVa, Floor, VirtAddrFrom, KernelPage,
         PageOffset;
    PaParts(mem, s.table.root, va);
    TranslateRefinesFlat(mem, s.table, v);
    OutsideAreas(s, tramp, v);
    assert KernelPage(mem, kroot, 0, store) == None;
  }

  lemma FloorNull(pa: nat)
    ensures pa == 0 ==> Floor(pa) == 0
  {}

  lemma PaParts(mem: Memory, root: nat, va: nat)
    ensures var pte := Translate(mem, root, Floor(VirtAddrFrom(va)));
            && (pte.Some? <==> TranslateVa(mem, root, va).Some?)
            && (pte.Some? ==> Floor(TranslateVa(mem, root, va).value) == PtePpn(pte.value)
                              && PageOffset(TranslateVa(mem, root, va).value) == PageOffset(VirtAddrFrom(va)))
  {
    hide Translate, PtePpn;
  }

  lemma OutsideAreas(s: Space, tramp: nat, v: nat)
    requires AreasOk(s, tramp) && !InSomeArea(s.areas, v) && tramp < TWO_44
    ensures v in s.table.flat <==> v == TRAMPOLINE_VPN
    ensures v in s.table.flat ==> PtePpn(s.table.flat[v]) == tramp
    ensures PtePpn(0) == 0
  {
    hide LeafPte, DataFrames, ShapesOk, DisjointAreas, AreasMapped, InjectiveFrames;
    LeafPteFields(tramp, RX);
  }
}
