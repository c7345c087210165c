/** The page table of an address space, kept in the frames of physical memory
    (os/src/mm/page_table.rs). */
module PageTables {
  import opened Address
  import opened PhysicalMemory
  import opened PageTableEntries
  import opened FrameAllocation
  import opened TableModel

  /** From `(ph, t)` to `(ph', t')` the table kept its nodes and took new ones from the free
      frames; no byte outside its own nodes changed. */
  ghost predicate Grown(ph: Phys, t: Table, ph': Phys, t': Table) {
    && t'.root == t.root
    && t.roles.Keys <= t'.roles.Keys
    && t'.roles.Keys - t.roles.Keys <= ph.free
    && ph'.free == ph.free - (t'.roles.Keys - t.roles.Keys)
    && SameOff(ph.mem, ph'.mem, t'.roles.Keys)
  }

  /** The walk for `vpn` reaches node `p` at level `i`. */
  ghost predicate PathTo(mem: Memory, root: nat, vpn: nat, i: nat, p: nat)
    requires i < 3
  {
    if i == 0 then p == root
    else
      && IsValid(Entry(mem, root, Index(vpn, 0)))
      && var n := PtePpn(Entry(mem, root, Index(vpn, 0)));
         if i == 1 then p == n
         else IsValid(Entry(mem, n, Index(vpn, 1))) && p == PtePpn(Entry(mem, n, Index(vpn, 1)))
  }

  lemma GrownTransitive(ph0: Phys, t0: Table, ph1: Phys, t1: Table, ph2: Phys, t2: Table)
    requires Grown(ph0, t0, ph1, t1) && Grown(ph1, t1, ph2, t2)
    ensures Grown(ph0, t0, ph2, t2)
  {
    var k0, k1, k2 := t0.roles.Keys, t1.roles.Keys, t2.roles.Keys;
    assert k2 - k0 == (k2 - k1) + (k1 - k0);
  }

  /** The nodes that mapping page `vpn` may need: none when the page before it, in the same block of
      512 pages, is mapped. */
  ghost function NodeCost(t: Table, vpn: nat): nat {
    if vpn % 512 != 0 && vpn - 1 in t.flat then 0 else 2
  }

  lemma SameBlock(vpn: nat)
    requires vpn % 512 != 0
    ensures Index(vpn, 0) == Index(vpn - 1, 0) && Index(vpn, 1) == Index(vpn - 1, 1)
  {
    assert vpn / 512 == (vpn - 1) / 512;
    assert vpn / 0x4_0000 == vpn / 512 / 512 && (vpn - 1) / 0x4_0000 == (vpn - 1) / 512 / 512;
  }

  /** Pages of one block share the nodes of their walks. */
  lemma NeighbourFound(mem: Memory, t: Table, vpn: nat)
    requires TableOk(mem, t) && vpn < VPN_LIMIT && NodeCost(t, vpn) == 0
    ensures FindPte(mem, t.root, vpn).Some?
  {
    hide TableOk, Entry, IsValid, PtePpn, Index;
    TranslateRefinesFlat(mem, t, vpn - 1);
    SameBlock(vpn);
  }

  ghost predicate AtNode(ph: Phys, t: Table, vpn: nat, i: nat, p: nat) {
    && TableOk(ph.mem, t) && t.roles.Keys !! ph.free
    && i < 3 && PathTo(ph.mem, t.root, vpn, i, p)
    && p in t.roles && t.roles[p] == RoleAt(vpn, i)
  }

  /** Where the walk for `vpn` stops, `find_pte` finds nothing. */
  lemma StopsHere(ph: Phys, t: Table, vpn: nat, i: nat, p: nat)
    requires AtNode(ph, t, vpn, i, p) && i < 2 && !IsValid(Entry(ph.mem, p, Index(vpn, i)))
    ensures FindPte(ph.mem, t.root, vpn).None?
  {
    hide TableOk, Entry, IsValid, PtePpn, Index;
  }

  /** Memory after clearing frame `c` and pointing entry `k` of node `p` to it. */
  function HangNode(mem: Memory, p: nat, k: nat, c: nat): Memory
    requires k < 512
  {
    SetEntry(mem[c := ZeroFrame()], p, k, NodePte(c))
  }

  lemma HangNodeReads(ph: Phys, t: Table, p: nat, k: nat, c: nat)
    requires p in t.roles && t.roles.Keys !! ph.free && c in ph.free && k < 512
    ensures var m := HangNode(ph.mem, p, k, c);
            && Entry(m, p, k) == NodePte(c)
            && (forall q: nat, j: nat | q != c && j < 512 && !(q == p && j == k) ::
                  Entry(m, q, j) == Entry(ph.mem, q, j))
            && SameOff(ph.mem, m, {p, c})
  {
    hide Word, SetEntry, NodePte;
    SetEntryRead(ph.mem[c := ZeroFrame()], p, k, NodePte(c));
  }

  /** Hanging a fresh node keeps the table and its flat map. */
  lemma NodeStepTable(ph: Phys, t: Table, vpn: nat, i: nat, p: nat, c: nat)
    requires AtNode(ph, t, vpn, i, p) && i < 2 && !IsValid(Entry(ph.mem, p, Index(vpn, i)))
    requires c in ph.free && c < TWO_44
    ensures TableOk(HangNode(ph.mem, p, Index(vpn, i), c), AddNode(t, p, Index(vpn, i), c))
  {
    var k := Index(vpn, i);
    var cleared := ph.mem[c := ZeroFrame()];
    assert SameOn(ph.mem, cleared, t.roles.Keys);
    TableFrame(ph.mem, cleared, t);
    hide TableOk, SetEntry, NodePte, IsValid, Index, Word;
    AddNodeKeepsTable(cleared, t, p, k, c);
  }

  lemma NodeStepGrows(ph: Phys, t: Table, vpn: nat, i: nat, p: nat, c: nat)
    requires AtNode(ph, t, vpn, i, p) && i < 2 && c in ph.free
    ensures var k := Index(vpn, i);
            Grown(ph, t, Phys(HangNode(ph.mem, p, k, c), ph.free - {c}), AddNode(t, p, k, c))
  {
    hide TableOk, HangNode, Index, Entry, PathTo;
    HangNodeReads(ph, t, p, Index(vpn, i), c);
    assert AddNode(t, p, Index(vpn, i), c).roles.Keys - t.roles.Keys == {c};
  }

  lemma NodeStepPath(ph: Phys, t: Table, vpn: nat, i: nat, p: nat, c: nat)
    requires AtNode(ph, t, vpn, i, p) && i < 2 && !IsValid(Entry(ph.mem, p, Index(vpn, i)))
    requires c in ph.free && c < TWO_44
    ensures PathTo(HangNode(ph.mem, p, Index(vpn, i), c), t.root, vpn, i + 1, c)
    ensures PtePpn(NodePte(c)) == c
  {
    HangNodeReads(ph, t, p, Index(vpn, i), c);
    NodePteFields(c);
    WalkRoles(ph.mem, t, vpn);
    hide Entry, HangNode, NodePte, PtePpn, IsValid, Index, FlatOk, FramesOk;
  }

  /** Hanging the freshly cleared frame `c` below the node that the walk has reached. */
  lemma NodeStep(ph: Phys, t: Table, vpn: nat, i: nat, p: nat, c: nat)
    requires AtNode(ph, t, vpn, i, p) && i < 2 && !IsValid(Entry(ph.mem, p, Index(vpn, i)))
    requires c in ph.free && c < TWO_44
    ensures var k := Index(vpn, i);
            var ph', t' := Phys(HangNode(ph.mem, p, k, c), ph.free - {c}), AddNode(t, p, k, c);
            && Grown(ph, t, ph', t') && t'.flat == t.flat && AtNode(ph', t', vpn, i + 1, c)
            && PtePpn(NodePte(c)) == c
  {
    hide Entry, HangNode, NodePte, PtePpn, IsValid, Index, TableOk, PathTo, Grown;
    NodeStepTable(ph, t, vpn, i, p, c);
    NodeStepGrows(ph, t, vpn, i, p, c);
    NodeStepPath(ph, t, vpn, i, p, c);
  }

  lemma DescendStep(ph: Phys, t: Table, vpn: nat, i: nat, p: nat)
    requires AtNode(ph, t, vpn, i, p) && i < 2 && IsValid(Entry(ph.mem, p, Index(vpn, i)))
    ensures AtNode(ph, t, vpn, i + 1, PtePpn(Entry(ph.mem, p, Index(vpn, i)))) && Grown(ph, t, ph, t)
  {
    assert t.roles.Keys - t.roles.Keys == {};
    WalkRoles(ph.mem, t, vpn);
    hide Entry, NodePte, PtePpn, IsValid, Index, FlatOk, FramesOk;
  }

  lemma AtRoot(ph: Phys, t: Table, vpn: nat)
    requires TableOk(ph.mem, t) && t.roles.Keys !! ph.free
    ensures AtNode(ph, t, vpn, 0, t.root) && Grown(ph, t, ph, t)
  {
    assert t.roles.Keys - t.roles.Keys == {};
  }

  lemma AtLeafNode(ph: Phys, t: Table, vpn: nat, p: nat)
    requires AtNode(ph, t, vpn, 2, p)
    ensures TableOk(ph.mem, t) && FindPte(ph.mem, t.root, vpn) == Some((p, Index(vpn, 2)))
  {
    hide Entry, PtePpn, IsValid, Index, TableOk;
  }

  lemma LeafWriteLocal(mem: Memory, t: Table, vpn: nat, bits: nat)
    requires CanSetLeaf(mem, t, vpn, bits)
    ensures SameOff(mem, WriteLeaf(mem, t, vpn, bits), t.roles.Keys)
  {
    WalkRoles(mem, t, vpn);
    hide TableOk, Index, Entry, SetEntry, FindPte, FrameAt;
    var (n, k) := FindPte(mem, t.root, vpn).value;
    SetEntryRead(mem, n, k, bits);
  }

  /** Writing one leaf entry stays inside the table's own nodes. */
  lemma LeafStep(ph: Phys, t: Table, vpn: nat, bits: nat)
    requires CanSetLeaf(ph.mem, t, vpn, bits) && (IsValid(bits) || bits == 0)
    ensures var ph', t' := ph.(mem := WriteLeaf(ph.mem, t, vpn, bits)), SetLeaf(t, vpn, bits);
            TableOk(ph'.mem, t') && Grown(ph, t, ph', t')
  {
    hide TableOk, FindPte, IsValid, WriteLeaf, FrameAt;
    SetLeafKeepsTable(ph.mem, t, vpn, bits);
    LeafWriteLocal(ph.mem, t, vpn, bits);
    assert t.roles.Keys - t.roles.Keys == {};
  }

  /** A table that owns just a cleared root maps nothing. */
  lemma BareTable(mem: Memory, root: nat)
    requires FrameAt(mem, root) == ZeroFrame() && root < TWO_44
    ensures TableOk(mem, Table(root, [root], map[root := Root], map[]))
  {
    hide Entry, Index, PtePpn, NodePte, IsValid;
    forall i: nat | i < 512 ensures Entry(mem, root, i) == 0 && !IsValid(Entry(mem, root, i)) {
      NewNodeEmpty(mem, root, i);
    }
  }

  class PageTable {
    const rootPpn: nat
    /** The frames of all nodes; dropping the table gives them back. */
    var frames: seq<nat>
    ghost var roles: map<nat, Role>
    ghost var flat: map<nat, nat>

    ghost function View(): Table
      reads this
    {
      Table(rootPpn, frames, roles, flat)
    }

    constructor WithRoot(root: nat)
      ensures View() == Table(root, [root], map[root := Root], map[])
    {
      rootPpn, frames, roles, flat := root, [root], map[root := Root], map[];
    }

    /** A cleared frame becomes the node below `ppn`, or the panic when memory runs out. */
    method CreateNode(ram: Ram, vpn: nat, i: nat, ppn: nat) returns (frame: Option<nat>)
      requires ram.Valid() && AtNode(ram.View(), View(), vpn, i, ppn) && i < 2
      requires !IsValid(Entry(ram.mem, ppn, Index(vpn, i)))
      modifies this, ram, ram.frames
      ensures ram.Valid() && ram.Pool() == old(ram.Pool()) && Spent(old(ram.View().free), ram.View().free, 1)
      ensures frame.None? ==> ram.View().free == {}
      ensures frame.Some? ==> Grown(old(ram.View()), old(View()), ram.View(), View()) && flat == old(flat)
      ensures frame.Some? ==> AtNode(ram.View(), View(), vpn, i + 1, frame.value)
    {
      hide TableOk, Entry, SetEntry, IsValid, PtePpn, Index, PathTo, Grown, StackFrameAllocator.Free, Spent;
      ghost var ph, t := ram.View(), View();
      frame := ram.FrameAlloc();
      SpentOne(ph.free, if frame.Some? then frame.value else 0);
      if frame.None? {
        return;
      }
      NodeStep(ph, t, vpn, i, ppn, frame.value);
      ram.mem := SetEntry(ram.mem, ppn, Index(vpn, i), PteNew(frame.value, FLAG_V));
      roles := roles[frame.value := ChildRole(roles[ppn], Index(vpn, i))];
      frames := frames + [frame.value];
    }

    /** One level further down, with a new node if there is none. */
    method Descend(ram: Ram, vpn: nat, i: nat, ppn: nat, idx: nat) returns (next: Option<nat>)
      requires ram.Valid() && AtNode(ram.View(), View(), vpn, i, ppn) && i < 2 && idx == Index(vpn, i)
      modifies this, ram, ram.frames
      ensures ram.Valid() && ram.Pool() == old(ram.Pool())
      ensures next.None? ==> ram.View().free == {}
      ensures next.Some? ==> Grown(old(ram.View()), old(View()), ram.View(), View()) && flat == old(flat)
      ensures next.Some? ==> AtNode(ram.View(), View(), vpn, i + 1, next.value)
      ensures (ram.View() == old(ram.View()) && next.Some?)
              || (Spent(old(ram.View().free), ram.View().free, 1) && FindPte(old(ram.mem), rootPpn, vpn).None?)
    {
      hide TableOk, Entry, SetEntry, IsValid, PtePpn, Index, AtNode, Grown, StackFrameAllocator.Free, Ram.Valid,
           Ram.Pool, Spent, FindPte;
      ghost var ph, t := ram.View(), View();
      var pte := Entry(ram.mem, ppn, idx);
      if IsValid(pte) {
        DescendStep(ph, t, vpn, i, ppn);
        next := Some(PtePpn(pte));
      } else {
        StopsHere(ph, t, vpn, i, ppn);
        next := CreateNode(ram, vpn, i, ppn);
      }
    }

    /** `find_pte_create`: like `find_pte`, but missing inner nodes are created on the way.
        `None` stands for the panic when memory runs out. */
    method FindPteCreate(ram: Ram, vpn: nat) returns (r: Option<(nat, nat)>)
      requires ram.Valid() && TableOk(ram.mem, View()) && roles.Keys !! ram.View().free
      modifies this, ram, ram.frames
      ensures ram.Valid() && ram.Pool() == old(ram.Pool())
      ensures r.None? ==> ram.View().free == {}
      ensures r.Some? ==> TableOk(ram.mem, View()) && Grown(old(ram.View()), old(View()), ram.View(), View())
      ensures r.Some? ==> flat == old(flat) && FindPte(ram.mem, rootPpn, vpn) == r
      ensures Spent(old(ram.View().free), ram.View().free, if FindPte(old(ram.mem), rootPpn, vpn).Some? then 0 else 2)
    {
      hide TableOk, Entry, SetEntry, IsValid, PtePpn, Index, AtNode, Grown, StackFrameAllocator.Free, Ram.Valid,
           Ram.Pool, Spent, FindPte;
      ghost var free0, mem0 := ram.View().free, ram.mem;
      ghost var taken: nat := 0;
      SpentOne(free0, 0);
      var indexes := Indexes(vpn);
      var idxs := indexes[..];
      var ppn := rootPpn;
      var i := 0;
      AtRoot(ram.View(), View(), vpn);
      while i < 2
        invariant 0 <= i <= 2
        invariant ram.Valid() && ram.Pool() == old(ram.Pool())
        invariant Grown(old(ram.View()), old(View()), ram.View(), View()) && flat == old(flat)
        invariant AtNode(ram.View(), View(), vpn, i, ppn)
        invariant taken <= i && Spent(free0, ram.View().free, taken)
        invariant if taken == 0 then ram.mem == mem0 else FindPte(mem0, rootPpn, vpn).None?
      {
        ghost var ph, t := ram.View(), View();
        var next := Descend(ram, vpn, i, ppn, idxs[i]);
        if ram.View() != ph || next.None? {
          SpentThen(free0, ph.free, ram.View().free, taken, 1, taken + 1);
          taken := taken + 1;
        }
        if next.None? {
          SpentMore(free0, ram.View().free, taken, 2);
          return None;
        }
        GrownTransitive(old(ram.View()), old(View()), ph, t, ram.View(), View());
        ppn := next.value;
        i := i + 1;
      }
      AtLeafNode(ram.View(), View(), vpn, ppn);
      SpentMore(free0, ram.View().free, taken, 2);
      r := Some((ppn, idxs[2]));
    }

    /** `find_pte` */
    method FindPteIn(ram: Ram, vpn: nat) returns (r: Option<(nat, nat)>)
      ensures r == FindPte(ram.mem, rootPpn, vpn)
    {
      hide Entry, IsValid, PtePpn, Index;
      var idxs := Indexes(vpn);
      var ppn := rootPpn;
      var i := 0;
      while i < 2
        invariant 0 <= i <= 2 && PathTo(ram.mem, rootPpn, vpn, i, ppn)
      {
        var pte := Entry(ram.mem, ppn, idxs[i]);
        if !IsValid(pte) {
          return None;
        }
        ppn := PtePpn(pte);
        i := i + 1;
      }
      r := Some((ppn, idxs[2]));
    }

    /** `map` of a page that is not mapped. Fails only when memory runs out. */
    method Map(ram: Ram, vpn: nat, ppn: nat, flags: nat) returns (ok: bool)
      requires ram.Valid() && TableOk(ram.mem, View()) && roles.Keys !! ram.View().free
      requires vpn < VPN_LIMIT && vpn !in flat && ppn < TWO_44 && flags < 256
      modifies this, ram, ram.frames
      ensures ram.Valid() && ram.Pool() == old(ram.Pool())
      ensures !ok ==> ram.View().free == {}
      ensures ok ==> TableOk(ram.mem, View()) && Grown(old(ram.View()), old(View()), ram.View(), View())
      ensures ok ==> flat == old(flat)[vpn := PteNew(ppn, WithValid(flags))]
      ensures Spent(old(ram.View().free), ram.View().free, NodeCost(old(View()), vpn))
    {
      hide TableOk, Entry, SetEntry, IsValid, Index, FindPte, Grown, PteNew, StackFrameAllocator.Free, Spent;
      if NodeCost(View(), vpn) == 0 {
        NeighbourFound(ram.mem, View(), vpn);
      }
      var pte := FindPteCreate(ram, vpn);
      SpentMore(old(ram.View().free), ram.View().free, if FindPte(old(ram.mem), rootPpn, vpn).Some? then 0 else 2,
                NodeCost(old(View()), vpn));
      if pte.None? {
        return false;
      }
      var (node, k) := pte.value;
      TranslateRefinesFlat(ram.mem, View(), vpn);
      assert !IsValid(Entry(ram.mem, node, k)); // "is mapped before mapping"
      ghost var ph, t := ram.View(), View();
      var bits := PteNew(ppn, WithValid(flags));
      ValidLeaf(ppn, flags);
      LeafStep(ph, t, vpn, bits);
      ram.mem := SetEntry(ram.mem, node, k, bits);
      flat := flat[vpn := bits];
      GrownTransitive(old(ram.View()), old(View()), ph, t, ram.View(), View());
      ok := true;
    }

    /** `unmap` of a mapped page: the entry becomes empty, the nodes stay. */
    method Unmap(ram: Ram, vpn: nat)
      requires TableOk(ram.mem, View()) && vpn in flat
      modifies this, ram
      ensures ram.View() == old(ram.View()).(mem := ram.mem) && SameOff(old(ram.mem), ram.mem, roles.Keys)
      ensures TableOk(ram.mem, View()) && View() == old(View()).(flat := old(flat) - {vpn})
    {
      assert vpn < VPN_LIMIT;
      hide TableOk, Entry, SetEntry, IsValid, Index, FindPte, StackFrameAllocator.Free;
      TranslateRefinesFlat(ram.mem, View(), vpn);
      var pte := FindPteIn(ram, vpn);
      var (node, k) := pte.value;
      assert IsValid(Entry(ram.mem, node, k)); // "is invalid before unmapping"
      LeafStep(ram.View(), View(), vpn, 0);
      ram.mem := SetEntry(ram.mem, node, k, 0);
      flat := flat - {vpn};
    }

    /** `translate` */
    method TranslateIn(ram: Ram, vpn: nat) returns (r: Option<nat>)
      ensures r == Translate(ram.mem, rootPpn, vpn)
    {
      var pte := FindPteIn(ram, vpn);
      match pte
      case None => r := None;
      case Some((node, k)) => r := Some(Entry(ram.mem, node, k));
    }

    /** Dropping the table drops the trackers in `frames` one by one. */
    method Drop(ram: Ram)
      requires ram.Valid() && FramesOk(View()) && roles.Keys <= ram.Pool() && roles.Keys !! ram.View().free
      modifies ram.frames
      ensures ram.Valid() && ram.Pool() == old(ram.Pool())
      ensures ram.View() == Phys(old(ram.mem), old(ram.View().free) + roles.Keys)
    {
      hide StackFrameAllocator.Free, StackFrameAllocator.Valid, StackFrameAllocator.Pool;
      for i := 0 to |frames|
        invariant ram.Valid() && ram.Pool() == old(ram.Pool())
        invariant ram.View() == Phys(old(ram.mem), old(ram.View().free) + Elements(frames[..i]))
      {
        assert frames[i] in Elements(frames);
        assert Elements(frames[..i + 1]) == Elements(frames[..i]) + {frames[i]};
        ram.FrameDealloc(frames[i]);
      }
      assert frames[..|frames|] == frames;
    }

    /** `PageTable::new`: one cleared frame as the root, or the panic when memory runs out. */
    static method New(ram: Ram) returns (t: PageTable?)
      requires ram.Valid()
      modifies ram, ram.frames
      ensures ram.Valid() && ram.Pool() == old(ram.Pool())
      ensures t == null ==> ram.View().free == {}
      ensures t != null ==> fresh(t) && TableOk(ram.mem, t.View())
      ensures t != null ==> t.roles.Keys == {t.rootPpn} && t.flat == map[] && t.rootPpn in old(ram.View().free)
      ensures t != null ==> ram.View().free == old(ram.View().free) - {t.rootPpn}
      ensures t != null ==> SameOff(old(ram.mem), ram.mem, {t.rootPpn})
      ensures Spent(old(ram.View().free), ram.View().free, 1)
    {
      hide TableOk, StackFrameAllocator.Free;
      var frame := ram.FrameAlloc();
      SpentOne(old(ram.View().free), if frame.Some? then frame.value else 0);
      if frame.None? {
        return null;
      }
      BareTable(ram.mem, frame.value);
      t := new PageTable.WithRoot(frame.value);
    }
  }

  lemma ValidLeaf(ppn: nat, flags: nat)
    requires ppn < TWO_44 && flags < 256
    ensures IsValid(PteNew(ppn, WithValid(flags)))
  {
    assert IsValid(WithValid(flags));
    hide PteNew, Readable, Writable, Executable, UserAccessible;
    PteTests(ppn, WithValid(flags));
  }
}
