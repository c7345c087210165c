/** Sv39 addresses and page numbers (os/src/mm/address.rs, os/src/config.rs).
    All quantities are 64-bit words of the target; the masking conversions are written out. */
module Address {

  const PAGE_SIZE: nat := 0x1000
  const TWO_39: nat := 0x80_0000_0000
  const TWO_44: nat := 0x1000_0000_0000
  const TWO_64: nat := 0x1_0000_0000_0000_0000

  /** Page numbers of the 39-bit virtual address space are below this limit. */
  const VPN_LIMIT: nat := 0x800_0000

  const TRAMPOLINE: nat := TWO_64 - PAGE_SIZE
  const TRAP_CONTEXT: nat := TRAMPOLINE - PAGE_SIZE
  const USER_STACK_SIZE: nat := 2 * PAGE_SIZE
  const KERNEL_STACK_SIZE: nat := 2 * PAGE_SIZE

  /** The trampoline and the trap context after the 39-bit truncation of `VirtAddr::from`. */
  const TRAMPOLINE_VPN: nat := VPN_LIMIT - 1
  const TRAP_CONTEXT_VPN: nat := VPN_LIMIT - 2

  function VirtAddrFrom(v: nat): nat { v % TWO_39 }

  function PhysPageNumFrom(v: nat): nat { v % TWO_44 }

  function Floor(a: nat): nat { a / PAGE_SIZE }

  function Ceil(a: nat): nat { (a + PAGE_SIZE - 1) / PAGE_SIZE }

  function PageOffset(a: nat): (r: nat)
    ensures r < PAGE_SIZE
  {
    a % PAGE_SIZE
  }

  /** The page numbers in [lo, hi). */
  function Pages(lo: nat, hi: nat): (s: set<nat>)
    ensures forall p: nat :: p in s <==> lo <= p < hi
    decreases hi - lo
  {
    if lo >= hi then {} else {lo} + Pages(lo + 1, hi)
  }

  lemma {:induction false} PagesCount(lo: nat, hi: nat)
    requires lo <= hi
    ensures |Pages(lo, hi)| == hi - lo
    decreases hi - lo
  {
    if lo < hi {
      PagesCount(lo + 1, hi);
    }
  }

  function Min(a: nat, b: nat): nat { if a <= b then a else b }

  /** The table index that level `i` of a walk uses for page `vpn` (level 0 is the root). */
  function Index(vpn: nat, i: nat): (r: nat)
    requires i < 3
    ensures r < 512
  {
    if i == 0 then vpn / 0x4_0000 % 512 else if i == 1 then vpn / 512 % 512 else vpn % 512
  }

  /** `VirtPageNum::indexes`: peel off nine bits at a time, filling the array from the back. */
  method Indexes(vpn: nat) returns (idx: array<nat>)
    ensures fresh(idx) && idx.Length == 3
    ensures forall i :: 0 <= i < 3 ==> idx[i] == Index(vpn, i)
  {
    idx := new nat[3](_ => 0);
    var rest := vpn;
    var i := 3;
    while i > 0
      invariant 0 <= i <= 3
      invariant rest == (if i == 3 then vpn else if i == 2 then vpn / 512
                         else if i == 1 then vpn / 0x4_0000 else vpn / 0x800_0000)
      invariant forall k :: i <= k < 3 ==> idx[k] == Index(vpn, k)
    {
      i := i - 1;
      idx[i] := rest % 512;
      rest := rest / 512;
    }
  }

  /** Two pages use the same three indexes exactly when they agree in the low 27 bits. */
  lemma IndexesInjective(a: nat, b: nat)
    ensures (Index(a, 0) == Index(b, 0) && Index(a, 1) == Index(b, 1) && Index(a, 2) == Index(b, 2))
            <==> a % VPN_LIMIT == b % VPN_LIMIT
  {
    Reassemble(a);
    Reassemble(b);
    if a % VPN_LIMIT == b % VPN_LIMIT {
      DigitsUnique(Index(a, 0), Index(a, 1), Index(a, 2), Index(b, 0), Index(b, 1), Index(b, 2));
    }
  }

  lemma DigitsUnique(a0: nat, a1: nat, a2: nat, b0: nat, b1: nat, b2: nat)
    requires a0 < 512 && a1 < 512 && a2 < 512 && b0 < 512 && b1 < 512 && b2 < 512
    requires a0 * 0x4_0000 + a1 * 512 + a2 == b0 * 0x4_0000 + b1 * 512 + b2
    ensures a0 == b0 && a1 == b1 && a2 == b2
  {}

  lemma Reassemble(vpn: nat)
    ensures vpn % VPN_LIMIT == Index(vpn, 0) * 0x4_0000 + Index(vpn, 1) * 512 + Index(vpn, 2)
  {
    var mid := vpn / 512;
    var top := mid / 512;
    assert vpn == 512 * mid + Index(vpn, 2);
    assert mid == 512 * top + mid % 512;
    assert top == 512 * (top / 512) + top % 512;
    assert vpn / 0x4_0000 == top;
  }

  /** Below 2^27 a page number is determined by its indexes. */
  lemma IndexesDetermine(a: nat, b: nat)
    requires a < VPN_LIMIT && b < VPN_LIMIT
    requires Index(a, 0) == Index(b, 0) && Index(a, 1) == Index(b, 1) && Index(a, 2) == Index(b, 2)
    ensures a == b
  {
    hide Index;
    IndexesInjective(a, b);
  }
}
