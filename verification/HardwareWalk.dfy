/** The address translation of the hardware: sections 4.1.11, 4.3.2 and 4.4 of the RISC-V Privileged
    Specification (version 20211203) for Sv39, accessed and dirty bits aside, with the SUM and MXR bits
    of `sstatus` clear. The fields of registers and entries are written out here as the specification
    numbers them; that the kernel's own tests of an entry agree with them is proved. */
module HardwareWalk {
  import opened Address
  import opened PhysicalMemory
  import opened PageTableEntries
  import opened FrameAllocation
  import opened TableModel

  datatype WalkResult = PageFault | Leaf(level: nat, pte: nat)

  datatype Access = Fetch | Load | Store

  datatype Privilege = User | Supervisor

  // ---- fields ----

  /** Figure 4.21: the bits V, R, W, X, U, A and D of an entry and its page number, bits 53 to 10. */
  predicate BitV(pte: nat) { pte % 2 == 1 }
  predicate BitR(pte: nat) { pte / 2 % 2 == 1 }
  predicate BitW(pte: nat) { pte / 4 % 2 == 1 }
  predicate BitX(pte: nat) { pte / 8 % 2 == 1 }
  predicate BitU(pte: nat) { pte / 16 % 2 == 1 }
  predicate BitA(pte: nat) { pte / 64 % 2 == 1 }
  predicate BitD(pte: nat) { pte / 128 % 2 == 1 }
  function FieldPpn(pte: nat): nat { pte / 1024 % 0x1000_0000_0000 }

  /** Figure 4.19: the nine bits of a page number that level `i` of the walk uses; level 2 is the root. */
  function FieldVpn(vpn: nat, i: nat): (k: nat)
    requires i < 3
    ensures k < 512
  {
    if i == 0 then vpn % 512 else if i == 1 then vpn / 512 % 512 else vpn / 0x4_0000 % 512
  }

  /** Figure 4.12: the fields of `satp`, bits 63 to 60, 59 to 44 and 43 to 0. */
  function SatpMode(satp: nat): nat { satp / 0x1000_0000_0000_0000 }
  function SatpAsid(satp: nat): nat { satp / 0x1000_0000_0000 % 0x1_0000 }
  function SatpPpn(satp: nat): nat { satp % 0x1000_0000_0000 }

  /** Table 4.4: translation and protection are off, or Sv39. */
  const BARE: nat := 0
  const SV39: nat := 8

  /** The kernel's tests of an entry and its indexes are the fields of the hardware. */
  lemma FieldsAgree()
    ensures forall pte: nat :: BitV(pte) == IsValid(pte) && BitR(pte) == Readable(pte) && BitW(pte) == Writable(pte)
    ensures forall pte: nat :: BitX(pte) == Executable(pte) && BitU(pte) == UserAccessible(pte)
    ensures forall pte: nat :: FieldPpn(pte) == PtePpn(pte)
    ensures forall vpn: nat, i: nat | i < 3 :: FieldVpn(vpn, i) == Index(vpn, 2 - i)
  {}

  // ---- the walk ----

  /** Bits 54 to 63 of an entry are reserved and must be zero. */
  predicate ReservedSet(pte: nat) { pte >= 0x40_0000_0000_0000 }

  /** For an inner entry the U, A and D bits are reserved as well. */
  predicate PointerReservedSet(pte: nat) { BitU(pte) || BitA(pte) || BitD(pte) }

  /** The number of pages of a leaf at level `i`. */
  function LeafPages(i: nat): nat
    requires i < 3
  {
    if i == 0 then 1 else if i == 1 then 512 else 0x4_0000
  }

  /** Steps 2 to 5 of section 4.3.2 at level `i`, with `a` the page number of the node. A superpage must
      begin at a multiple of its size. */
  function Walk(mem: Memory, a: nat, vpn: nat, i: nat): (w: WalkResult)
    requires i < 3
    ensures w.Leaf? ==> w.level <= i
    decreases i
  {
    var pte := Entry(mem, a, FieldVpn(vpn, i));
    if !BitV(pte) || (!BitR(pte) && BitW(pte)) || ReservedSet(pte) then PageFault
    else if BitR(pte) || BitX(pte) then
      if i > 0 && FieldPpn(pte) % LeafPages(i) != 0 then PageFault
      else Leaf(i, pte)
    else if PointerReservedSet(pte) || i == 0 then PageFault
    else Walk(mem, FieldPpn(pte), vpn, i - 1)
  }

  /** Section 4.4: bits 63 to 39 of an address must equal bit 38. */
  predicate Canonical(va: nat) { va < TWO_39 / 2 || TWO_64 - TWO_39 / 2 <= va < TWO_64 }

  /** The walk for an address: bits 38 to 12 are its page number. */
  function Translation(mem: Memory, root: nat, va: nat): (w: WalkResult)
    ensures w.Leaf? ==> w.level < 3
  {
    if Canonical(va) then Walk(mem, root, va / 0x1000 % 0x800_0000, 2) else PageFault
  }

  /** Step 6: the access that a leaf permits. */
  predicate Permits(pte: nat, acc: Access, priv: Privilege) {
    && (match acc case Fetch => BitX(pte) case Load => BitR(pte) case Store => BitW(pte))
    && (priv.User? <==> BitU(pte))
  }

  /** The physical page behind page `vpn` of a leaf at level `i`. */
  function LeafPage(pte: nat, vpn: nat, i: nat): nat
    requires i < 3
  {
    FieldPpn(pte) + vpn % LeafPages(i)
  }

  /** The physical address that an access to `va` reaches with this `satp`; `None` is a fault. */
  function Physical(mem: Memory, satp: nat, va: nat, acc: Access, priv: Privilege): Option<nat> {
    if SatpMode(satp) == BARE then Some(va)
    else if SatpMode(satp) != SV39 then None
    else
      match Translation(mem, SatpPpn(satp), va)
      case PageFault => None
      case Leaf(level, pte) =>
        if Permits(pte, acc, priv) then Some(LeafPage(pte, va / 0x1000, level) * 0x1000 + va % 0x1000) else None
  }

  // ---- on the tables of the kernel ----

  /** The permissions of a leaf that the hardware accepts. */
  predicate LegalLeaf(bits: nat) {
    (Readable(bits) || Executable(bits)) && (Writable(bits) ==> Readable(bits)) && !ReservedSet(bits)
  }

  lemma NodePtePointer(mem: Memory, a: nat, vpn: nat, i: nat, c: nat)
    requires 0 < i < 3 && c < TWO_44 && Entry(mem, a, Index(vpn, 2 - i)) == NodePte(c)
    ensures Walk(mem, a, vpn, i) == Walk(mem, c, vpn, i - 1)
  {
    NodePteFields(c);
    PteRoundTrip(c, FLAG_V);
    FieldsAgree();
    assert !PointerReservedSet(NodePte(c)) by { PointerBits(c); }
    hide PtePpn, NodePte, IsValid, Readable, Writable, Executable, UserAccessible, PointerReservedSet, Index, Entry,
         BitV, BitR, BitW, BitX, FieldPpn, FieldVpn;
  }

  lemma PointerBits(c: nat)
    ensures !PointerReservedSet(c * 1024 + 1)
  {
    var bits := c * 1024 + 1;
    assert bits / 16 == c * 64;
    assert bits / 64 == c * 16;
    assert bits / 128 == c * 8;
  }

  lemma LastLevel(mem: Memory, a: nat, vpn: nat)
    ensures var e := Entry(mem, a, Index(vpn, 2));
            Walk(mem, a, vpn, 0) == if IsValid(e) && LegalLeaf(e) then Leaf(0, e) else PageFault
  {
    FieldsAgree();
    hide Entry, Index, PtePpn, IsValid, Readable, Writable, Executable, UserAccessible, BitV, BitR, BitW, BitX,
         FieldPpn, FieldVpn, ReservedSet, PointerReservedSet;
  }

  /** A node without a valid entry ends the walk. */
  lemma NoEntry(mem: Memory, a: nat, vpn: nat, i: nat)
    requires i < 3 && !IsValid(Entry(mem, a, Index(vpn, 2 - i)))
    ensures Walk(mem, a, vpn, i) == PageFault
  {
    FieldsAgree();
    hide Entry, Index, IsValid, BitV, FieldVpn;
  }

  /** The hardware walk reaches, at the last level, exactly the entry of the flat map if its
      permissions are legal; it never stops at a superpage and faults everywhere else. */
  lemma WalkAgrees(mem: Memory, t: Table, vpn: nat)
    requires TableOk(mem, t) && vpn < VPN_LIMIT
    ensures Walk(mem, t.root, vpn, 2)
            == if vpn in t.flat && LegalLeaf(t.flat[vpn]) then Leaf(0, t.flat[vpn]) else PageFault
  {
    WalkRoles(mem, t, vpn);
    TranslateRefinesFlat(mem, t, vpn);
    hide Walk, LegalLeaf;
    var e0 := Entry(mem, t.root, Index(vpn, 0));
    if IsValid(e0) {
      var n1 := PtePpn(e0);
      NodePtePointer(mem, t.root, vpn, 2, n1);
      assert PointsToChild(mem, t, n1, Index(vpn, 1));
      var e1 := Entry(mem, n1, Index(vpn, 1));
      if IsValid(e1) {
        NodePtePointer(mem, n1, vpn, 1, PtePpn(e1));
        LastLevel(mem, PtePpn(e1), vpn);
      } else {
        NoEntry(mem, n1, vpn, 1);
      }
    } else {
      NoEntry(mem, t.root, vpn, 2);
    }
    hide PtePpn, NodePte, IsValid, Index, Entry, FlatOk;
  }

  lemma PageNumber(va: nat)
    ensures va / 0x1000 % 0x800_0000 == Floor(VirtAddrFrom(va)) < VPN_LIMIT && PageOffset(va) == va % 0x1000
  {
    var q, r := va / TWO_39, va % TWO_39;
    assert va / 0x1000 == q * 0x800_0000 + r / 0x1000;
  }

  /** The same for addresses: one that is not canonical always faults. */
  lemma TranslationAgrees(mem: Memory, t: Table, va: nat)
    requires TableOk(mem, t)
    ensures var v := Floor(VirtAddrFrom(va));
            Translation(mem, t.root, va)
            == if Canonical(va) && v in t.flat && LegalLeaf(t.flat[v]) then Leaf(0, t.flat[v]) else PageFault
  {
    PageNumber(va);
    hide TableOk, Walk, LegalLeaf, Canonical, Floor, VirtAddrFrom;
    WalkAgrees(mem, t, Floor(VirtAddrFrom(va)));
  }

  /** With a table of the kernel in `satp`: exactly the pages of the flat map can be reached, each with
      the accesses that its entry permits, and lead to their frames. */
  lemma PhysicalAgrees(mem: Memory, t: Table, satp: nat, va: nat, acc: Access, priv: Privilege)
    requires TableOk(mem, t) && SatpMode(satp) == SV39 && SatpPpn(satp) == t.root
    ensures var v := Floor(VirtAddrFrom(va));
            Physical(mem, satp, va, acc, priv)
            == if Canonical(va) && v in t.flat && LegalLeaf(t.flat[v]) && Permits(t.flat[v], acc, priv)
               then Some(PtePpn(t.flat[v]) * PAGE_SIZE + PageOffset(va)) else None
  {
    FieldsAgree();
    PageNumber(va);
    TranslationAgrees(mem, t, va);
    hide TableOk, Translation, LegalLeaf, Canonical, Floor, VirtAddrFrom, PtePpn, FieldPpn, Permits, SatpMode,
         SatpPpn, PageOffset;
  }

  /** The accesses that a permission allows. */
  predicate Allows(perm: Permission, acc: Access, priv: Privilege) {
    && (match acc case Fetch => perm.x case Load => perm.r case Store => perm.w)
    && perm.u == priv.User? && (perm.r || perm.x) && (perm.w ==> perm.r)
  }

  /** What is reached through the entry that `map` writes. */
  lemma MappedAddress(mem: Memory, t: Table, satp: nat, va: nat, f: nat, perm: Permission, acc: Access, priv: Privilege)
    requires TableOk(mem, t) && SatpMode(satp) == SV39 && SatpPpn(satp) == t.root && f < TWO_44
    requires Floor(VirtAddrFrom(va)) in t.flat && t.flat[Floor(VirtAddrFrom(va))] == LeafPte(f, perm)
    ensures Physical(mem, satp, va, acc, priv)
            == if Canonical(va) && Allows(perm, acc, priv) then Some(f * PAGE_SIZE + PageOffset(va)) else None
  {
    PhysicalAgrees(mem, t, satp, va, acc, priv);
    LeafPermits(f, perm, acc, priv);
    hide TableOk, LeafPte, PtePpn, Physical, Canonical, Floor, VirtAddrFrom, LegalLeaf, Permits, Allows, SatpMode,
         SatpPpn, PageOffset;
  }

  lemma LeafPermits(f: nat, perm: Permission, acc: Access, priv: Privilege)
    requires f < TWO_44
    ensures PtePpn(LeafPte(f, perm)) == f
    ensures LegalLeaf(LeafPte(f, perm)) && Permits(LeafPte(f, perm), acc, priv) <==> Allows(perm, acc, priv)
  {
    LeafPteFields(f, perm);
    FieldsAgree();
    hide LeafPte, PtePpn, IsValid, Readable, Writable, Executable, UserAccessible, BitV, BitR, BitW, BitX, BitU;
  }
}
