/** Sv39 page table entries (os/src/mm/page_table.rs, `PTEFlags` and `PageTableEntry`;
    os/src/mm/memory_set.rs, `MapPermission`). An entry is its 64-bit word; bits 10 to 53 hold
    the physical page number and bits 0 to 7 the flags. */
module PageTableEntries {
  import opened Address

  const FLAG_V: nat := 1
  const FLAG_R: nat := 2
  const FLAG_W: nat := 4
  const FLAG_X: nat := 8
  const FLAG_U: nat := 16

  // The flag tests of an entry, and of a bare set of flags.
  predicate IsValid(bits: nat) { bits % 2 == 1 }
  predicate Readable(bits: nat) { bits / 2 % 2 == 1 }
  predicate Writable(bits: nat) { bits / 4 % 2 == 1 }
  predicate Executable(bits: nat) { bits / 8 % 2 == 1 }
  predicate UserAccessible(bits: nat) { bits / 16 % 2 == 1 }

  /** `PageTableEntry::new`: the shift drops what leaves the 64-bit word. */
  function PteNew(ppn: nat, flags: nat): (bits: nat)
    requires flags < 256
    ensures bits < TWO_64
  {
    (ppn * 1024 + flags) % TWO_64
  }

  function PtePpn(bits: nat): (ppn: nat)
    ensures ppn < TWO_44
  {
    bits / 1024 % TWO_44
  }

  function PteFlags(bits: nat): (flags: nat)
    ensures flags < 256
  {
    bits % 256
  }

  /** `flags | PTEFlags::V` */
  function WithValid(flags: nat): (r: nat)
    requires flags < 256
    ensures r < 256
  {
    if IsValid(flags) then flags else flags + FLAG_V
  }

  /** `MapPermission`, a subset of the entry flags. */
  datatype Permission = Permission(r: bool, w: bool, x: bool, u: bool) {
    function Bits(): (flags: nat)
      ensures flags < 32 && flags % 2 == 0
    {
      (if r then FLAG_R else 0) + (if w then FLAG_W else 0) + (if x then FLAG_X else 0) + (if u then FLAG_U else 0)
    }
  }

  /** The entry of an inner node: a pointer carries no permission. */
  function NodePte(ppn: nat): (bits: nat)
    ensures bits < TWO_64
  {
    PteNew(ppn, FLAG_V)
  }

  /** The leaf entry that `map` writes. */
  function LeafPte(ppn: nat, perm: Permission): (bits: nat)
    ensures bits < TWO_64
  {
    PteNew(ppn, WithValid(perm.Bits()))
  }

  /** Page number and flags survive the encoding of an entry. */
  lemma PteRoundTrip(ppn: nat, flags: nat)
    requires ppn < TWO_44 && flags < 256
    ensures PteNew(ppn, flags) == ppn * 1024 + flags
    ensures PtePpn(PteNew(ppn, flags)) == ppn
    ensures PteFlags(PteNew(ppn, flags)) == flags
  {
    hide PteNew;
    NoOverflow(ppn, flags);
    Fields(ppn, flags);
    assert ppn % TWO_44 == ppn;
  }

  lemma NoOverflow(ppn: nat, flags: nat)
    requires ppn < TWO_44 && flags < 256
    ensures PteNew(ppn, flags) == ppn * 1024 + flags
  {
    assert ppn * 1024 + flags < TWO_64;
  }

  lemma Fields(ppn: nat, flags: nat)
    requires flags < 256
    ensures (ppn * 1024 + flags) / 1024 == ppn && (ppn * 1024 + flags) % 256 == flags
  {
    hide *;
    HighPart(ppn, flags);
    LowPart(4 * ppn, flags);
  }

  lemma HighPart(q: nat, r: nat)
    requires r < 1024
    ensures (q * 1024 + r) / 1024 == q
  {
    hide *;
  }

  lemma LowPart(q: nat, r: nat)
    requires r < 256
    ensures (q * 256 + r) % 256 == r
  {
    hide *;
  }

  /** The flags of an entry are the flags it was built with. */
  lemma PteTests(ppn: nat, flags: nat)
    requires ppn < TWO_44 && flags < 256
    ensures IsValid(PteNew(ppn, flags)) == IsValid(flags)
    ensures Readable(PteNew(ppn, flags)) == Readable(flags)
    ensures Writable(PteNew(ppn, flags)) == Writable(flags)
    ensures Executable(PteNew(ppn, flags)) == Executable(flags)
    ensures UserAccessible(PteNew(ppn, flags)) == UserAccessible(flags)
  {
    hide PteNew;
    PteRoundTrip(ppn, flags);
    ShiftedFlags(ppn, flags);
  }

  lemma ShiftedFlags(ppn: nat, flags: nat)
    requires flags < 256
    ensures var bits := ppn * 1024 + flags;
            && bits % 2 == flags % 2 && bits / 2 % 2 == flags / 2 % 2 && bits / 4 % 2 == flags / 4 % 2
            && bits / 8 % 2 == flags / 8 % 2 && bits / 16 % 2 == flags / 16 % 2
  {
    hide *;
    LowBit(ppn * 512, flags, 1);
    LowBit(ppn * 256, flags, 2);
    LowBit(ppn * 128, flags, 4);
    LowBit(ppn * 64, flags, 8);
    LowBit(ppn * 32, flags, 16);
  }

  /** A bit below `2 * d` does not see what lies above. */
  lemma LowBit(high: nat, low: nat, d: nat)
    requires d in {1, 2, 4, 8, 16}
    ensures (high * (2 * d) + low) / d % 2 == low / d % 2
  {
    var q, r := low / d, low % d;
    assert low == q * d + r;
    assert high * (2 * d) + low == (2 * high + q) * d + r;
    assert (high * (2 * d) + low) / d == 2 * high + q;
  }

  lemma NodePteFields(ppn: nat)
    requires ppn < TWO_44
    ensures IsValid(NodePte(ppn)) && PtePpn(NodePte(ppn)) == ppn && NodePte(ppn) < TWO_44 * 1024
    ensures !Readable(NodePte(ppn)) && !Writable(NodePte(ppn)) && !Executable(NodePte(ppn))
  {
    PteRoundTrip(ppn, FLAG_V);
    PteTests(ppn, FLAG_V);
  }

  /** A leaf entry carries its page and exactly the permissions it was mapped with. */
  lemma LeafPteFields(ppn: nat, perm: Permission)
    requires ppn < TWO_44
    ensures IsValid(LeafPte(ppn, perm)) && PtePpn(LeafPte(ppn, perm)) == ppn
    ensures LeafPte(ppn, perm) < TWO_44 * 1024
    ensures Readable(LeafPte(ppn, perm)) == perm.r && Writable(LeafPte(ppn, perm)) == perm.w
    ensures Executable(LeafPte(ppn, perm)) == perm.x && UserAccessible(LeafPte(ppn, perm)) == perm.u
  {
    var flags := WithValid(perm.Bits());
    FlagsOf(perm);
    hide PteNew, PtePpn, IsValid, Readable, Writable, Executable, UserAccessible, WithValid;
    PteRoundTrip(ppn, flags);
    PteTests(ppn, flags);
  }

  /** The flags that `map` writes for a permission. */
  lemma FlagsOf(perm: Permission)
    ensures var flags := WithValid(perm.Bits());
            && IsValid(flags) && Readable(flags) == perm.r && Writable(flags) == perm.w
            && Executable(flags) == perm.x && UserAccessible(flags) == perm.u
  {}
}
