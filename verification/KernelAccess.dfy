/** How the kernel reaches physical memory. It runs on its own page table (os/src/trap/trap.S, line 41), so
    a physical address that it dereferences (os/src/mm/address.rs) is translated like any other: a
    page that the kernel table does not map, or maps without the permission, is a fault, and a
    fault in the kernel is a panic (os/src/trap/mod.rs, line 132). */
module KernelAccess {
  import opened Address
  import opened PhysicalMemory
  import opened PageTableEntries
  import opened FrameAllocation
  import opened TableModel
  import opened HardwareWalk

  /** Pages below this one have canonical addresses. */
  const CANONICAL_PAGES: nat := 0x400_0000

  /** The frame that a load (or, with `store`, a store) of the kernel to physical page `p` reaches;
      `None` is a fault. */
  function KernelPage(mem: Memory, kroot: nat, p: nat, store: bool): Option<nat> {
    if p >= CANONICAL_PAGES then None
    else
      match Walk(mem, kroot, p, 2)
      case PageFault => None
      case Leaf(level, pte) =>
        if Permits(pte, if store then Store else Load, Supervisor) then Some(LeafPage(pte, p, level)) else None
  }

  /** The byte behind a physical address: its frame and offset. `get_mut` panics on the null pointer. */
  function Deref(mem: Memory, kroot: nat, pa: nat, store: bool): (r: Option<(nat, nat)>)
    ensures r.Some? ==> pa > 0 && r.value.1 == PageOffset(pa) < PAGE_SIZE
  {
    if pa == 0 then None
    else match KernelPage(mem, kroot, Floor(pa), store) case None => None case Some(f) => Some((f, PageOffset(pa)))
  }

  /** Bytes stored from physical address `pa` on, with the translations of memory `mem0`. */
  function StoreBytes(mem0: Memory, mem: Memory, kroot: nat, pa: nat, bs: seq<Byte>): Option<Memory>
    decreases |bs|
  {
    if bs == [] then Some(mem)
    else
      match Deref(mem0, kroot, pa, true)
      case None => None
      case Some((f, o)) => StoreBytes(mem0, mem[f := PutByte(FrameAt(mem, f), o, bs[0])], kroot, pa + 1, bs[1..])
  }

  /** Bytes stored one after the other from offset `off` on. */
  function PutBytes(f: Frame, off: nat, bs: seq<Byte>): Frame
    requires off + |bs| <= PAGE_SIZE
  {
    f[..off] + bs + f[off + |bs|..]
  }

  /** A store that stays in one page that the kernel maps to itself. */
  lemma {:induction false} StoreInPage(mem0: Memory, mem: Memory, kroot: nat, p: nat, off: nat, bs: seq<Byte>)
    requires 0 < p && KernelPage(mem0, kroot, p, true) == Some(p) && off + |bs| <= PAGE_SIZE && bs != []
    ensures StoreBytes(mem0, mem, kroot, p * PAGE_SIZE + off, bs) == Some(mem[p := PutBytes(FrameAt(mem, p), off, bs)])
    decreases |bs|
  {
    hide KernelPage, FrameAt;
    var pa, f := p * PAGE_SIZE + off, FrameAt(mem, p);
    assert Floor(pa) == p && PageOffset(pa) == off;
    var g := PutByte(f, off, bs[0]);
    var mem' := mem[p := g];
    if |bs| == 1 {
      assert g == PutBytes(f, off, bs);
    } else {
      StoreInPage(mem0, mem', kroot, p, off + 1, bs[1..]);
      assert FrameAt(mem', p) == g by { Overwritten(mem, p, g); }
      assert PutBytes(g, off + 1, bs[1..]) == PutBytes(f, off, bs);
      assert mem'[p := PutBytes(f, off, bs)] == mem[p := PutBytes(f, off, bs)];
    }
  }

  lemma Overwritten(mem: Memory, p: nat, g: Frame)
    ensures FrameAt(mem[p := g], p) == g
  {}

  /** A store in two parts. */
  lemma {:induction false} StoreParts(mem0: Memory, mem: Memory, kroot: nat, pa: nat, a: seq<Byte>, b: seq<Byte>)
    ensures StoreBytes(mem0, mem, kroot, pa, a + b)
            == match StoreBytes(mem0, mem, kroot, pa, a)
               case None => None
               case Some(m) => StoreBytes(mem0, m, kroot, pa + |a|, b)
    decreases |a|
  {
    hide Deref, FrameAt;
    if a == [] {
      assert a + b == b;
    } else {
      assert (a + b)[1..] == a[1..] + b;
      match Deref(mem0, kroot, pa, true) {
        case None =>
        case Some((f, o)) => StoreParts(mem0, mem[f := PutByte(FrameAt(mem, f), o, a[0])], kroot, pa + 1, a[1..], b);
      }
    }
  }

  lemma PageAddress(p: nat, o: nat)
    requires o < PAGE_SIZE
    ensures var va := p * PAGE_SIZE + o;
            && va / 0x1000 == p && va % 0x1000 == o && (p < CANONICAL_PAGES ==> p % 0x800_0000 == p)
            && (p < TWO_44 ==> (Canonical(va) <==> p < CANONICAL_PAGES))
  {}

  /** With the kernel's table in `satp` that is where an access to the addresses of the page leads. */
  lemma KernelPageIs(mem: Memory, satp: nat, p: nat, o: nat, store: bool)
    requires p < TWO_44 && o < PAGE_SIZE && SatpMode(satp) == SV39
    ensures Physical(mem, satp, p * PAGE_SIZE + o, if store then Store else Load, Supervisor)
            == match KernelPage(mem, SatpPpn(satp), p, store) case None => None case Some(f) => Some(f * PAGE_SIZE + o)
  {
    hide Walk, Permits, SatpMode, SatpPpn;
    PageAddress(p, o);
  }

  lemma MappedPage(mem: Memory, t: Table, p: nat, f: nat, perm: Permission, store: bool)
    requires TableOk(mem, t) && p < CANONICAL_PAGES && p in t.flat && t.flat[p] == LeafPte(f, perm) && f < TWO_44
    requires perm.r && !perm.u
    ensures KernelPage(mem, t.root, p, store) == if !store || perm.w then Some(f) else None
  {
    WalkAgrees(mem, t, p);
    LeafPermits(f, perm, if store then Store else Load, Supervisor);
    LeafPermits(f, perm, Load, Supervisor);
    FieldsAgree();
    hide TableOk, LeafPte, Walk, LegalLeaf, Permits, PtePpn, FieldPpn, BitV, BitR, BitW, BitX, BitU, FieldVpn;
  }

  /** A page without an entry, or without a canonical address, is a fault. */
  lemma UnmappedPage(mem: Memory, t: Table, p: nat, store: bool)
    requires TableOk(mem, t) && p < TWO_44 && (p < CANONICAL_PAGES ==> p !in t.flat)
    ensures KernelPage(mem, t.root, p, store) == None
  {
    hide TableOk, LegalLeaf, Walk;
    if p < CANONICAL_PAGES {
      WalkAgrees(mem, t, p);
    }
  }
}
