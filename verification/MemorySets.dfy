/** Address spaces and the areas in them, as the kernel builds and takes them apart
    (os/src/mm/memory_set.rs). */
module MemorySets {
  import opened Address
  import opened PhysicalMemory
  import opened PageTableEntries
  import opened FrameAllocation
  import opened TableModel
  import opened PageTables
  import opened SpaceModel

  /** The part of `area` below page `vpn`, the part that has been mapped so far. */
  function Below(area: MapArea, vpn: nat): MapArea { area.(end := vpn) }

  // ---- how many frames an area needs ----

  /** The blocks of 512 pages, each behind one lowest table node, that [start, end) touches. */
  function Blocks(start: nat, end: nat): nat { if start < end then (end - 1) / 512 - start / 512 + 1 else 0 }

  /** The most frames that mapping an area takes: its data, and two table nodes for each block. */
  function AreaCost(a: MapArea): nat {
    (if a.kind.Framed? && a.start <= a.end then a.end - a.start else 0) + 2 * Blocks(a.start, a.end)
  }

  function AreasCost(areas: seq<MapArea>): (c: nat)
    ensures areas == [] ==> c == 0
  {
    if areas == [] then 0 else AreasCost(areas[..|areas| - 1]) + AreaCost(areas[|areas| - 1])
  }

  lemma {:induction false} CostOfMore(areas: seq<MapArea>, n: nat)
    requires n <= |areas|
    ensures AreasCost(areas[..n]) <= AreasCost(areas)
    ensures n < |areas| ==> AreasCost(areas[..n + 1]) == AreasCost(areas[..n]) + AreaCost(areas[n])
    decreases |areas|
  {
    hide AreaCost;
    if n < |areas| {
      assert areas[..n + 1][..n] == areas[..n];
      var front := areas[..|areas| - 1];
      assert front[..n] == areas[..n];
      CostOfMore(front, n);
    } else {
      assert areas[..n] == areas;
    }
  }

  /** One more of the areas of a new space. */
  lemma CostOfNext(free0: set<nat>, free: set<nat>, free': set<nat>, areas: seq<MapArea>, i: nat)
    requires i < |areas| && Spent(free0, free, 3 + AreasCost(areas[..i]))
    requires Spent(free, free', AreaCost(areas[i].(frames := map[])))
    ensures Spent(free0, free', 3 + AreasCost(areas[..i + 1])) && Spent(free0, free', 3 + AreasCost(areas))
  {
    hide AreasCost;
    CostOfMore(areas, i);
    CostOfMore(areas, i + 1);
  }

  /** What `map_one` takes: a data frame if the area is framed, and nodes at the start of a block only. */
  ghost function PageCost(a: MapArea, t: Table, vpn: nat): nat { (if a.kind.Framed? then 1 else 0) + NodeCost(t, vpn) }

  /** Page by page an area takes no more than its cost. */
  lemma CostStep(a: MapArea, t: Table, vpn: nat)
    requires a.start <= vpn && (a.start < vpn ==> vpn - 1 in t.flat)
    ensures AreaCost(a.(end := vpn)) + PageCost(a, t, vpn) <= AreaCost(a.(end := vpn + 1))
    ensures AreaCost(a.(end := a.start)) == 0
  {
    if a.start < vpn {
      assert vpn / 512 == (vpn - 1) / 512 + (if vpn % 512 == 0 then 1 else 0);
    }
  }

  lemma CostGrows(a: MapArea, vpn: nat)
    requires a.start <= vpn <= a.end
    ensures AreaCost(a.(end := vpn)) <= AreaCost(a)
  {
    assert vpn < a.end ==> vpn - 1 <= a.end - 1;
    if a.start < vpn {
      assert (vpn - 1) / 512 <= (a.end - 1) / 512;
    }
  }

  /** `MapArea::map_one`, on the area whose pages below `vpn` are mapped already. */
  method MapOne(area: MapArea, table: PageTable, ram: Ram, vpn: nat, ghost others: seq<MapArea>, ghost tramp: nat)
    returns (ok: bool, area': MapArea)
    requires ram.Valid() && vpn < TRAMPOLINE_VPN
    requires SpaceOk(ram.mem, Space(table.View(), others + [Below(area, vpn)]), tramp)
    requires Owned(Space(table.View(), others + [Below(area, vpn)])) !! ram.View().free
    requires !InSomeArea(others + [Below(area, vpn)], vpn)
    modifies table, ram, ram.frames
    ensures ram.Valid() && ram.Pool() == old(ram.Pool())
    ensures !ok ==> ram.View().free == {}
    ensures ok ==>
              var s, s' :=
                  old(Space(table.View(), others + [Below(area, vpn)])),
                      Space(table.View(), others + [Below(area', vpn + 1)]);
              && SpaceOk(ram.mem, s', tramp) && SpaceGrown(old(ram.View()), s, ram.View(), s')
                  && Owned(s') !! ram.View().free
    ensures ok ==> area' == area.(frames := area'.frames)
    ensures ok && area.kind.Framed? ==> vpn in area'.frames && area'.frames == area.frames[vpn := area'.frames[vpn]]
                                        && FrameAt(ram.mem, area'.frames[vpn]) == ZeroFrame()
    ensures ok && area.kind.Identical? ==> area' == area
    ensures Spent(old(ram.View().free), ram.View().free, PageCost(area, old(table.View()), vpn))
  {
    hide AreasOk, TableOk, Grown, SpaceGrown, PteNew, WithValid, DataFrames, InSomeArea, FrameAt,
         StackFrameAllocator.Free, Spent, NodeCost;
    ghost var ph, s := ram.View(), Space(table.View(), others + [Below(area, vpn)]);
    ghost var a := Below(area, vpn);
    assert TableOk(ram.mem, table.View());
    var ppn := vpn;
    area' := area;
    if area.kind.Framed? {
      var frame := ram.FrameAlloc();
      if frame.None? {
        SpentMore(ph.free, ram.View().free, 0, PageCost(area, table.View(), vpn));
        return false, area;
      }
      ppn := frame.value;
      area' := area.(frames := area.frames[vpn := ppn]);
      WriteElsewhere(ph.mem, table.View(), ppn, ZeroFrame());
    }
    ghost var ph1 := ram.View();
    NotYetMapped(s, tramp, vpn);
    ok := table.Map(ram, vpn, ppn, area.perm.Bits());
    SpentThen(ph.free, ph1.free, ram.View().free, if area.kind.Framed? then 1 else 0, NodeCost(s.table, vpn),
              PageCost(area, s.table, vpn));
    if ok {
      MapOneStep(ph, s, tramp, a, ppn, ph1, ram.View(), table.View());
      assert ExtendLast(s, a, ppn) == others + [Below(area', vpn + 1)];
    }
  }

  lemma NotYetMapped(s: Space, tramp: nat, vpn: nat)
    requires AreasOk(s, tramp) && !InSomeArea(s.areas, vpn) && vpn < TRAMPOLINE_VPN
    ensures vpn !in s.table.flat
  {
    hide LeafPte, DataFrames;
  }

  /** The frames of `area` are all cleared. */
  ghost predicate Cleared(mem: Memory, area: MapArea) {
    forall v | v in area.frames :: FrameAt(mem, area.frames[v]) == ZeroFrame()
  }

  /** No page of `area` is in one of the areas. */
  ghost predicate Apart(areas: seq<MapArea>, area: MapArea) {
    forall v: nat | Covers(area, v) :: !InSomeArea(areas, v)
  }

  /** `MapArea::map`: every page of a new area gets its entry and, if framed, a cleared frame. */
  method MapPages(area: MapArea, table: PageTable, ram: Ram, ghost others: seq<MapArea>, ghost tramp: nat)
    returns (ok: bool, area': MapArea)
    requires ram.Valid() && SpaceOk(ram.mem, Space(table.View(), others), tramp)
    requires Owned(Space(table.View(), others)) !! ram.View().free
    requires area.frames == map[] && area.start <= area.end <= TRAMPOLINE_VPN && Apart(others, area)
    modifies table, ram, ram.frames
    ensures ram.Valid() && ram.Pool() == old(ram.Pool())
    ensures !ok ==> ram.View().free == {}
    ensures ok ==>
              var s, s' := old(Space(table.View(), others)), Space(table.View(), others + [area']);
              SpaceOk(ram.mem, s', tramp) && SpaceGrown(old(ram.View()), s, ram.View(), s')
                  && Owned(s') !! ram.View().free
    ensures ok ==> area' == area.(frames := area'.frames) && Cleared(ram.mem, area')
    ensures Spent(old(ram.View().free), ram.View().free, AreaCost(area))
  {
    hide AreasOk, TableOk, SpaceGrown, DataFrames, InSomeArea, FrameAt, ZeroFrame, Owned, StackFrameAllocator.Free,
         Spent, AreaCost, PageCost, NodeCost;
    SpentOne(ram.View().free, 0);
    CostStep(area, table.View(), area.start);
    ghost var ph0, s0 := ram.View(), Space(table.View(), others);
    area' := area;
    ghost var s := Space(table.View(), others + [Below(area', area.start)]);
    GrownByEmptyArea(ph0, s0, tramp, Below(area, area.start));
    var vpn := area.start;
    while vpn < area.end
      invariant area.start <= vpn <= area.end && area' == area.(frames := area'.frames)
      invariant ram.Valid() && ram.Pool() == old(ram.Pool())
      invariant s == Space(table.View(), others + [Below(area', vpn)])
      invariant SpaceOk(ram.mem, s, tramp) && SpaceGrown(ph0, s0, ram.View(), s) && Owned(s) !! ram.View().free
      invariant Cleared(ram.mem, area')
      invariant Spent(ph0.free, ram.View().free, AreaCost(Below(area, vpn)))
    {
      NextPageFree(others, area', vpn);
      ghost var ph, before := ram.View(), area';
      PageBeforeMapped(s, tramp, vpn);
      CostStep(area, s.table, vpn);
      CostGrows(area, vpn + 1);
      ok, area' := MapOne(area', table, ram, vpn, others, tramp);
      SameCost(before, area, s.table, vpn);
      SpentThen(ph0.free, ph.free, ram.View().free, AreaCost(Below(area, vpn)), PageCost(area, s.table, vpn),
          AreaCost(Below(area, vpn + 1)));
      SpentMore(ph0.free, ram.View().free, AreaCost(Below(area, vpn + 1)), AreaCost(area));
      if !ok {
        return;
      }
      ghost var s' := Space(table.View(), others + [Below(area', vpn + 1)]);
      SpaceGrownTransitive(ph0, s0, ph, s, ram.View(), s');
      StillCleared(ph, s, tramp, ram.View(), s', before, area', vpn);
      s := s';
      vpn := vpn + 1;
    }
    assert Below(area', area.end) == area';
    assert Below(area, area.end) == area;
    ok := true;
  }

  lemma SameCost(a: MapArea, b: MapArea, t: Table, vpn: nat)
    requires a.kind == b.kind
    ensures PageCost(a, t, vpn) == PageCost(b, t, vpn)
  {}

  /** In an area that is mapped up to `vpn` the page before has an entry. */
  lemma PageBeforeMapped(s: Space, tramp: nat, vpn: nat)
    requires AreasOk(s, tramp) && |s.areas| > 0 && s.areas[|s.areas| - 1].end == vpn
    ensures s.areas[|s.areas| - 1].start < vpn ==> vpn - 1 in s.table.flat
  {
    hide LeafPte, DataFrames, InjectiveFrames, NothingElse, DisjointAreas;
    assert s.areas[|s.areas| - 1].start < vpn ==> Covers(s.areas[|s.areas| - 1], vpn - 1);
  }

  lemma NextPageFree(others: seq<MapArea>, area: MapArea, vpn: nat)
    requires Covers(area, vpn) && Apart(others, area)
    ensures !InSomeArea(others + [Below(area, vpn)], vpn)
  {
    var areas := others + [Below(area, vpn)];
    assert !InSomeArea(others, vpn);
    forall i | 0 <= i < |areas| ensures !Covers(areas[i], vpn) {
      assert i < |others| ==> areas[i] == others[i];
    }
  }

  lemma StillCleared(ph: Phys, s: Space, tramp: nat, ph': Phys, s': Space, area: MapArea, area': MapArea, vpn: nat)
    requires AreasOk(s, tramp) && SpaceGrown(ph, s, ph', s') && Owned(s) !! ph.free && Cleared(ph.mem, area)
    requires |s.areas| > 0 && s.areas[|s.areas| - 1].frames == area.frames
    requires area.kind == area'.kind
    requires area.kind.Identical? ==> area'.frames == area.frames
    requires area.kind.Framed? ==> vpn in area'.frames && area'.frames == area.frames[vpn := area'.frames[vpn]]
                                   && FrameAt(ph'.mem, area'.frames[vpn]) == ZeroFrame()
    ensures Cleared(ph'.mem, area')
  {
    AreasParts(s, tramp);
    hide AreasOk, FrameAt, ZeroFrame;
  }

  /** The piece of `data` that falls on page `j` of an area. */
  function Chunk(data: seq<Byte>, j: nat): (c: seq<Byte>)
    ensures |c| <= PAGE_SIZE
  {
    data[Min(j * PAGE_SIZE, |data|)..Min((j + 1) * PAGE_SIZE, |data|)]
  }

  /** A frame with its first bytes replaced. */
  function Overlay(f: Frame, chunk: seq<Byte>): Frame
    requires |chunk| <= PAGE_SIZE
  {
    chunk + f[|chunk|..]
  }

  /** Page `v` of the area holds the bytes of `data` that belong there, over what it held before. */
  ghost predicate PageLoaded(mem: Memory, mem': Memory, area: MapArea, data: seq<Byte>, v: nat)
    requires v in area.frames && area.start <= v
  {
    FrameAt(mem', area.frames[v]) == Overlay(FrameAt(mem, area.frames[v]), Chunk(data, v - area.start))
  }

  /** `MapArea::copy_data` into area `n`: page by page through the page table. */
  method CopyData(area: MapArea, table: PageTable, ram: Ram, data: seq<Byte>, ghost areas: seq<MapArea>,
                  ghost n: nat, ghost tramp: nat)
    requires SpaceOk(ram.mem, Space(table.View(), areas), tramp) && n < |areas| && area == areas[n]
    requires area.kind.Framed? && area.start < area.end && |data| <= (area.end - area.start) * PAGE_SIZE
    modifies ram
    ensures ram.View() == old(ram.View()).(mem := ram.mem)
    ensures SpaceOk(ram.mem, Space(table.View(), areas), tramp)
    ensures SameOff(old(ram.mem), ram.mem, area.frames.Values)
    ensures forall v | v in area.frames :: area.start <= v && PageLoaded(old(ram.mem), ram.mem, area, data, v)
  {
    hide AreasOk, TableOk, DataFrames, StackFrameAllocator.Free, FrameAt, LeafPte, PtePpn, Translate, Overlay, Chunk;
    var start, vpn, len := 0, area.start, |data|;
    FramedPages(Space(table.View(), areas), tramp, n);
    while true
      invariant Covers(area, vpn) && start == (vpn - area.start) * PAGE_SIZE && start <= len
      invariant ram.View() == old(ram.View()).(mem := ram.mem)
      invariant TableOk(ram.mem, table.View())
      invariant SameOff(old(ram.mem), ram.mem, area.frames.Values)
      invariant LoadedBelow(old(ram.mem), ram.mem, area, data, vpn)
      decreases area.end - vpn
    {
      var src := data[start..Min(len, start + PAGE_SIZE)];
      var pte := table.TranslateIn(ram, vpn);
      PageTranslates(ram.mem, Space(table.View(), areas), tramp, n, vpn);
      var ppn := PtePpn(pte.value);
      ghost var before := ram.mem;
      ram.mem := ram.mem[ppn := Overlay(FrameAt(ram.mem, ppn), src)];
      WriteElsewhere(before, table.View(), ppn, Overlay(FrameAt(before, ppn), src));
      ChunkAt(data, vpn - area.start);
      LoadStep(old(ram.mem), before, area, data, vpn);
      start := start + PAGE_SIZE;
      if start >= len {
        break;
      }
      vpn := vpn + 1;
    }
    LoadDone(old(ram.mem), ram.mem, area, data, vpn + 1);
  }

  /** The pages of the area below `vpn` are loaded, the others as they were. */
  ghost predicate LoadedBelow(mem0: Memory, mem: Memory, area: MapArea, data: seq<Byte>, vpn: nat) {
    forall v | v in area.frames ::
      area.start <= v && if v < vpn then PageLoaded(mem0, mem, area, data, v)
                         else FrameAt(mem, area.frames[v]) == FrameAt(mem0, area.frames[v])
  }

  lemma LoadStep(mem0: Memory, mem: Memory, area: MapArea, data: seq<Byte>, vpn: nat)
    requires LoadedBelow(mem0, mem, area, data, vpn) && vpn in area.frames
    requires forall v, w | v in area.frames && w in area.frames && area.frames[v] == area.frames[w] :: v == w
    ensures var p := area.frames[vpn];
            var mem' := mem[p := Overlay(FrameAt(mem, p), Chunk(data, vpn - area.start))];
            LoadedBelow(mem0, mem', area, data, vpn + 1) && SameOff(mem, mem', area.frames.Values)
  {
    hide FrameAt, Overlay, Chunk;
    var p := area.frames[vpn];
    WriteRead(mem, p, Overlay(FrameAt(mem, p), Chunk(data, vpn - area.start)));
  }

  lemma LoadDone(mem0: Memory, mem: Memory, area: MapArea, data: seq<Byte>, vpn: nat)
    requires LoadedBelow(mem0, mem, area, data, vpn) && area.start <= vpn && (vpn - area.start) * PAGE_SIZE >= |data|
    ensures forall v | v in area.frames :: area.start <= v && PageLoaded(mem0, mem, area, data, v)
  {
    hide FrameAt, Overlay, Chunk;
    forall v | v in area.frames ensures PageLoaded(mem0, mem, area, data, v) {
      if v >= vpn {
        ChunkBeyond(data, v - area.start, FrameAt(mem, area.frames[v]));
      }
    }
  }

  lemma ChunkAt(data: seq<Byte>, j: nat)
    requires j * PAGE_SIZE <= |data|
    ensures Chunk(data, j) == data[j * PAGE_SIZE..Min(|data|, j * PAGE_SIZE + PAGE_SIZE)]
  {}

  lemma ChunkBeyond(data: seq<Byte>, j: nat, f: Frame)
    requires j * PAGE_SIZE >= |data|
    ensures Chunk(data, j) == [] && Overlay(f, Chunk(data, j)) == f
  {}

  lemma WriteRead(mem: Memory, p: nat, f: Frame)
    ensures forall q: nat :: FrameAt(mem[p := f], q) == if q == p then f else FrameAt(mem, q)
  {
    forall q: nat ensures FrameAt(mem[p := f], q) == if q == p then f else FrameAt(mem, q) {
      assert q != p ==> (q in mem[p := f] <==> q in mem);
    }
  }

  /** The part of `area` from page `vpn` on, the part that is still mapped. */
  function From(area: MapArea, vpn: nat): MapArea { area.(start := vpn) }

  /** From `(ph, s)` to `(ph', s')` the space gave frames back: it kept its table nodes, wrote to
      nothing else, and what it no longer owns is free. */
  ghost predicate SpaceShrunk(ph: Phys, s: Space, ph': Phys, s': Space) {
    && s'.table == s.table.(flat := s'.table.flat)
    && Owned(s') <= Owned(s)
    && ph'.free == ph.free + (Owned(s) - Owned(s'))
    && SameOff(ph.mem, ph'.mem, s.table.roles.Keys)
  }

  lemma SpaceShrunkTransitive(ph0: Phys, s0: Space, ph1: Phys, s1: Space, ph2: Phys, s2: Space)
    requires SpaceShrunk(ph0, s0, ph1, s1) && SpaceShrunk(ph1, s1, ph2, s2)
    ensures SpaceShrunk(ph0, s0, ph2, s2)
  {
    hide Owned, FrameAt;
    assert Owned(s0) - Owned(s2) == (Owned(s0) - Owned(s1)) + (Owned(s1) - Owned(s2));
  }

  lemma UnmapOneStep(ph: Phys, s: Space, tramp: nat, n: nat, ph': Phys)
    requires CanShrink(s, tramp, n) && Owned(s) !! ph.free
    requires ph'.free == ph.free + FirstFrame(s.areas[n]) && SameOff(ph.mem, ph'.mem, s.table.roles.Keys)
    ensures var s' := Space(s.table.(flat := s.table.flat - {s.areas[n].start}), ShrinkAt(s, n));
            AreasOk(s', tramp) && SpaceShrunk(ph, s, ph', s') && Owned(s') !! ph'.free
  {
    ShrinkKeepsAreas(s, tramp, n);
    ShrinkData(s, tramp, n);
    hide AreasOk, DataFrames, FirstFrame, FrameAt;
    var s' := Space(s.table.(flat := s.table.flat - {s.areas[n].start}), ShrinkAt(s, n));
    assert Owned(s) - Owned(s') == FirstFrame(s.areas[n]);
  }

  /** `MapArea::unmap_one`, on area `n` of a space, whose pages below `vpn` are unmapped already. */
  method UnmapOne(area: MapArea, table: PageTable, ram: Ram, vpn: nat, ghost areas: seq<MapArea>, ghost n: nat,
                  ghost tramp: nat)
    returns (area': MapArea)
    requires ram.Valid() && n < |areas| && areas[n] == From(area, vpn) && vpn < area.end
    requires SpaceOk(ram.mem, Space(table.View(), areas), tramp)
    requires Owned(Space(table.View(), areas)) <= ram.Pool()
    requires Owned(Space(table.View(), areas)) !! ram.View().free
    modifies table, ram, ram.frames
    ensures ram.Valid() && ram.Pool() == old(ram.Pool())
    ensures area' == area.(frames := area.frames - {vpn})
    ensures var s, s' := old(Space(table.View(), areas)), Space(table.View(), areas[n := From(area', vpn + 1)]);
            SpaceOk(ram.mem, s', tramp) && SpaceShrunk(old(ram.View()), s, ram.View(), s')
                && Owned(s') !! ram.View().free
  {
    hide AreasOk, TableOk, SpaceShrunk, DataFrames, StackFrameAllocator.Free, StackFrameAllocator.Valid,
         StackFrameAllocator.Pool;
    ghost var ph, s := ram.View(), Space(table.View(), areas);
    ShrinkShapes(s, tramp, n);
    area' := area;
    FirstFrameOwned(s, tramp, n);
    if area.kind.Framed? && vpn in area.frames {
      area' := area.(frames := area.frames - {vpn});
      ram.FrameDealloc(area.frames[vpn]);
    }
    assert area' == area.(frames := area.frames - {vpn});
    table.Unmap(ram, vpn);
    UnmapOneStep(ph, s, tramp, n, ram.View());
    assert ShrinkAt(s, n) == areas[n := From(area', vpn + 1)];
  }

  lemma FirstFrameOwned(s: Space, tramp: nat, n: nat)
    requires CanShrink(s, tramp, n)
    ensures FirstFrame(s.areas[n]) <= Owned(s)
    ensures s.areas[n].kind.Identical? ==> s.areas[n].frames == map[]
  {
    ShrinkData(s, tramp, n);
    hide DataFrames, InjectiveFrames, AreasMapped, NothingElse, DisjointAreas, LeafPte;
    assert AreaShape(s.areas[n]);
  }

  /** `MapArea::unmap` of area `n`: every page loses its entry and its frame. */
  method UnmapPages(area: MapArea, table: PageTable, ram: Ram, ghost areas: seq<MapArea>, ghost n: nat,
                    ghost tramp: nat)
    returns (area': MapArea)
    requires ram.Valid() && n < |areas| && areas[n] == area
    requires SpaceOk(ram.mem, Space(table.View(), areas), tramp)
    requires Owned(Space(table.View(), areas)) <= ram.Pool()
    requires Owned(Space(table.View(), areas)) !! ram.View().free
    modifies table, ram, ram.frames
    ensures ram.Valid() && ram.Pool() == old(ram.Pool())
    ensures area' == area.(frames := area'.frames)
    ensures var s, s' := old(Space(table.View(), areas)), Space(table.View(), areas[n := From(area', area.end)]);
            SpaceOk(ram.mem, s', tramp) && SpaceShrunk(old(ram.View()), s, ram.View(), s')
                && Owned(s') !! ram.View().free
  {
    hide AreasOk, TableOk, SpaceShrunk, Owned, StackFrameAllocator.Free, StackFrameAllocator.Valid,
         StackFrameAllocator.Pool;
    ghost var ph0, s0 := ram.View(), Space(table.View(), areas);
    area' := area;
    var vpn := area.start;
    ghost var s := s0;
    assert areas[n := From(area, area.start)] == areas;
    ShrunkReflexive(ph0, s0);
    AreaOrdered(s0, tramp, n);
    while vpn < area.end
      invariant area.start <= vpn <= area.end && area' == area.(frames := area'.frames)
      invariant ram.Valid() && ram.Pool() == old(ram.Pool())
      invariant s == Space(table.View(), areas[n := From(area', vpn)])
      invariant SpaceOk(ram.mem, s, tramp) && SpaceShrunk(ph0, s0, ram.View(), s) && Owned(s) !! ram.View().free
      invariant Owned(s) <= ram.Pool()
    {
      ghost var ph := ram.View();
      area' := UnmapOne(area', table, ram, vpn, areas[n := From(area', vpn)], n, tramp);
      ghost var s' := Space(table.View(), areas[n := From(area', vpn + 1)]);
      assert areas[n := From(area', vpn + 1)] == s.areas[n := From(area', vpn + 1)];
      ShrunkOwned(ph, s, ram.View(), s');
      SpaceShrunkTransitive(ph0, s0, ph, s, ram.View(), s');
      s := s';
      vpn := vpn + 1;
    }
  }

  lemma ShrunkReflexive(ph: Phys, s: Space)
    ensures SpaceShrunk(ph, s, ph, s)
  {
    hide Owned;
    assert Owned(s) - Owned(s) == {};
  }

  lemma ShrunkOwned(ph: Phys, s: Space, ph': Phys, s': Space)
    requires SpaceShrunk(ph, s, ph', s')
    ensures Owned(s') <= Owned(s)
  {}

  lemma AreaOrdered(s: Space, tramp: nat, n: nat)
    requires AreasOk(s, tramp) && n < |s.areas|
    ensures s.areas[n].start <= s.areas[n].end
  {
    assert AreaShape(s.areas[n]);
  }

  // ---- what the operations on whole spaces promise ----

  /** A new space: all its frames were free, all else in memory is as before. */
  ghost predicate Built(ph: Phys, ph': Phys, s: Space, tramp: nat): (b: bool)
    ensures b ==> SpaceOk(ph'.mem, s, tramp)
  {
    && SpaceOk(ph'.mem, s, tramp)
    && Owned(s) <= ph.free && ph'.free == ph.free - Owned(s)
    && SameOff(ph.mem, ph'.mem, Owned(s))
  }

  lemma BuiltThenGrown(ph0: Phys, ph: Phys, s: Space, ph': Phys, s': Space, tramp: nat)
    requires Built(ph0, ph, s, tramp) && SpaceGrown(ph, s, ph', s') && SpaceOk(ph'.mem, s', tramp)
    ensures Built(ph0, ph', s', tramp)
  {
    hide SpaceOk, DataFrames, FrameAt;
    var taken := Owned(s') - Owned(s);
    assert Owned(s') == Owned(s) + taken;
    forall p: nat | p !in Owned(s') ensures FrameAt(ph0.mem, p) == FrameAt(ph'.mem, p) {
      assert p !in s.table.roles.Keys + taken;
    }
  }

  /** The bytes of a page after `push` with optional data. */
  function InitialPage(data: Option<seq<Byte>>, j: nat): Frame {
    match data case None => ZeroFrame() case Some(d) => Overlay(ZeroFrame(), Chunk(d, j))
  }

  ghost predicate AreaLoaded(mem: Memory, area: MapArea, data: Option<seq<Byte>>) {
    forall v | v in area.frames :: area.start <= v && FrameAt(mem, area.frames[v]) == InitialPage(data, v - area.start)
  }

  /** `push` of `area` onto the areas of a space. */
  ghost predicate Pushed(ph: Phys, s: Space, ph': Phys, s': Space, area: MapArea, data: Option<seq<Byte>>, tramp: nat) {
    && SpaceOk(ph'.mem, s', tramp) && SpaceGrown(ph, s, ph', s') && Owned(s') !! ph'.free
    && |s'.areas| == |s.areas| + 1
    && var a := s'.areas[|s.areas|];
       s'.areas == s.areas + [a] && a == area.(frames := a.frames) && AreaLoaded(ph'.mem, a, data)
  }

  /** Writing the data frames of the last area does not disturb the growth of the space. */
  lemma GrownThenLoaded(ph0: Phys, s0: Space, ph: Phys, s: Space, mem': Memory)
    requires SpaceGrown(ph0, s0, ph, s) && |s.areas| == |s0.areas| + 1 && s.areas[..|s0.areas|] == s0.areas
    requires InjectiveFrames(s.areas) && DataFrames(s.areas) !! s.table.roles.Keys
    requires SameOff(ph.mem, mem', s.areas[|s0.areas|].frames.Values)
    ensures SpaceGrown(ph0, s0, ph.(mem := mem'), s)
  {
    var a := s.areas[|s0.areas|];
    hide DataFrames, FrameAt;
    assert forall i | 0 <= i < |s0.areas| :: s.areas[i] == s.areas[..|s0.areas|][i] == s0.areas[i];
    forall f | f in a.frames.Values ensures f in Owned(s) - Owned(s0) {
      var v :| v in a.frames && a.frames[v] == f;
      if f in DataFrames(s0.areas) {
        var i, w := FromData(s0.areas, f);
      }
    }
  }

  class MemorySet {
    const table: PageTable
    var areas: seq<MapArea>

    ghost function View(): Space
      reads this, table
    {
      Space(table.View(), areas)
    }

    /** The space is sound and shares no frame with the allocator. */
    ghost predicate Valid(ram: Ram, tramp: nat)
      reads this, table, ram, ram.frames
    {
      ram.Valid() && SpaceOk(ram.mem, View(), tramp) && Owned(View()) !! ram.View().free
    }

    constructor (table: PageTable)
      ensures this.table == table && areas == []
    {
      this.table := table;
      areas := [];
    }

    /** `MemorySet::push` */
    method Push(ram: Ram, area: MapArea, data: Option<seq<Byte>>, ghost tramp: nat) returns (ok: bool)
      requires Valid(ram, tramp)
      requires area.frames == map[] && area.start <= area.end <= TRAMPOLINE_VPN && Apart(areas, area)
      requires data.Some? ==> area.kind.Framed? && area.start < area.end
                              && |data.value| <= (area.end - area.start) * PAGE_SIZE
      modifies this, table, ram, ram.frames
      ensures ram.Valid() && ram.Pool() == old(ram.Pool())
      ensures !ok ==> ram.View().free == {}
      ensures ok ==> Pushed(old(ram.View()), old(View()), ram.View(), View(), area, data, tramp) && Valid(ram, tramp)
      ensures Spent(old(ram.View().free), ram.View().free, AreaCost(area))
    {
      hide AreasOk, TableOk, SpaceGrown, Owned, FrameAt, ZeroFrame, Overlay, Chunk, StackFrameAllocator.Free,
           StackFrameAllocator.Valid, StackFrameAllocator.Pool, Spent, AreaCost;
      var area';
      ok, area' := MapPages(area, table, ram, areas, tramp);
      if !ok {
        return;
      }
      ghost var ph, s := ram.View(), Space(table.View(), areas + [area']);
      if data.Some? {
        CopyData(area', table, ram, data.value, areas + [area'], |areas|, tramp);
        AreasParts(s, tramp);
        GrownThenLoaded(old(ram.View()), old(View()), ph, s, ram.mem);
      } else {
        AreaStarts(s, tramp, |areas|);
      }
      areas := areas + [area'];
    }

    /** `new_bare` followed by `map_trampoline`, as every space begins. Null stands for the panic
        when memory runs out. */
    static method NewWithTrampoline(ram: Ram, tramp: nat) returns (ms: MemorySet?)
      requires ram.Valid() && tramp < TWO_44
      modifies ram, ram.frames
      ensures ram.Valid() && ram.Pool() == old(ram.Pool())
      ensures ms == null ==> ram.View().free == {}
      ensures ms != null ==> fresh(ms) && fresh(ms.table) && ms.areas == [] && ms.Valid(ram, tramp)
      ensures ms != null ==> Built(old(ram.View()), ram.View(), ms.View(), tramp)
      ensures Spent(old(ram.View().free), ram.View().free, 3)
    {
      hide TableOk, Grown, PteNew, WithValid, FrameAt, StackFrameAllocator.Free, StackFrameAllocator.Valid,
           StackFrameAllocator.Pool, Spent, Floor, VirtAddrFrom, Built, Owned;
      assert Floor(VirtAddrFrom(TRAMPOLINE)) == TRAMPOLINE_VPN by { TrampolinePage(); }
      var table := PageTable.New(ram);
      SpentMore(old(ram.View().free), ram.View().free, 1, 3);
      if table == null {
        return null;
      }
      ghost var ph, t := ram.View(), table.View();
      assert t.roles.Keys == {t.root};
      var ok := table.Map(ram, Floor(VirtAddrFrom(TRAMPOLINE)), tramp, RX.Bits());
      SpentThen(old(ram.View().free), ph.free, ram.View().free, 1, NodeCost(t, TRAMPOLINE_VPN), 3);
      if !ok {
        return null;
      }
      ms := new MemorySet(table);
      BareSpace(old(ram.View()), ph, t, ram.View(), table.View(), tramp);
    }

    /** `insert_framed_area` of a range that no area covers. */
    method InsertFramedArea(ram: Ram, startVa: nat, endVa: nat, perm: Permission, ghost tramp: nat) returns (ok: bool)
      requires Valid(ram, tramp) && startVa <= endVa <= TRAMPOLINE_VPN * PAGE_SIZE
      requires Apart(areas, MapArea(Floor(startVa), Ceil(endVa), map[], Framed, perm))
      modifies this, table, ram, ram.frames
      ensures ram.Valid() && ram.Pool() == old(ram.Pool())
      ensures !ok ==> ram.View().free == {}
      ensures ok ==> Valid(ram, tramp)
      ensures ok ==> Pushed(old(ram.View()), old(View()), ram.View(), View(),
                            MapArea(Floor(startVa), Ceil(endVa), map[], Framed, perm), None, tramp)
      ensures Spent(old(ram.View().free), ram.View().free,
                AreaCost(MapArea(Floor(startVa), Ceil(endVa), map[], Framed, perm)))
    {
      hide SpaceOk, SpaceGrown, Owned, Apart, AreaLoaded, Spent, AreaCost;
      ok := Push(ram, MapArea(Floor(startVa), Ceil(endVa), map[], Framed, perm), None, tramp);
    }

    /** `remove_area_with_start_vpn`: the first area that begins there goes, with its pages and
        frames; without such an area nothing happens. */
    method RemoveAreaWithStartVpn(ram: Ram, startVpn: nat, ghost tramp: nat)
      requires Valid(ram, tramp) && Owned(View()) <= ram.Pool()
      modifies this, table, ram, ram.frames
      ensures ram.Pool() == old(ram.Pool()) && Valid(ram, tramp)
      ensures var n := FirstStart(old(areas), startVpn);
              if n < |old(areas)| then Removed(old(ram.View()), old(View()), ram.View(), View(), n)
              else View() == old(View()) && ram.View() == old(ram.View())
    {
      hide AreasOk, TableOk, SpaceShrunk, DataFrames, InjectiveFrames, StackFrameAllocator.Free,
           StackFrameAllocator.Valid, StackFrameAllocator.Pool;
      var n := 0;
      while n < |areas| && areas[n].start != startVpn
        invariant 0 <= n <= |areas| && FirstStart(areas, startVpn) == n + FirstStart(areas[n..], startVpn)
      {
        assert areas[n..][1..] == areas[n + 1..];
        n := n + 1;
      }
      assert n == |areas| ==> areas[n..] == [];
      if n < |areas| {
        ghost var ph, s := ram.View(), View();
        var area := UnmapPages(areas[n], table, ram, areas, n, tramp);
        FinishRemoval(ph, s, tramp, n, ram.View(), View().(areas := areas[n := From(area, areas[n].end)]));
        assert Without(areas[n := From(area, areas[n].end)], n) == Without(areas, n);
        areas := areas[..n] + areas[n + 1..];
      }
    }

    /** `recycle_data_pages`: the areas go, the table keeps its stale entries. */
    method RecycleDataPages(ram: Ram, ghost tramp: nat)
      requires Valid(ram, tramp) && Owned(View()) <= ram.Pool()
      modifies this, ram.frames
      ensures ram.Valid() && ram.Pool() == old(ram.Pool())
      ensures View() == old(View()).(areas := [])
      ensures ram.View() == Phys(old(ram.mem), old(ram.View().free) + DataFrames(old(areas)))
    {
      hide TableOk, DataFrames, InjectiveFrames, StackFrameAllocator.Free, StackFrameAllocator.Valid,
           StackFrameAllocator.Pool;
      DropAreas(areas, ram);
      areas := [];
    }

    /** Dropping the space: the nodes of the table and the data frames are given back. */
    method Drop(ram: Ram)
      requires ram.Valid() && FramesOk(table.View()) && ShapesOk(areas) && InjectiveFrames(areas)
      requires DataFrames(areas) !! table.roles.Keys
      requires Owned(View()) <= ram.Pool() && Owned(View()) !! ram.View().free
      modifies ram.frames
      ensures ram.Valid() && ram.Pool() == old(ram.Pool())
      ensures ram.View() == Phys(old(ram.mem), old(ram.View().free) + Owned(View()))
    {
      hide FramesOk, DataFrames, InjectiveFrames, ShapesOk, StackFrameAllocator.Free, StackFrameAllocator.Valid,
           StackFrameAllocator.Pool;
      table.Drop(ram);
      DropAreas(areas, ram);
    }
  }

  /** Index of the first area that begins at `start`, or the number of areas. */
  function FirstStart(areas: seq<MapArea>, start: nat): (n: nat)
    ensures n <= |areas| && (n < |areas| ==> areas[n].start == start)
    ensures forall i | 0 <= i < n :: areas[i].start != start
  {
    if areas == [] || areas[0].start == start then 0 else 1 + FirstStart(areas[1..], start)
  }

  /** Area `n` is gone, its frames and only those are free again. */
  ghost predicate Removed(ph: Phys, s: Space, ph': Phys, s': Space, n: nat)
    requires n < |s.areas|
  {
    && SpaceShrunk(ph, s, ph', s') && s'.areas == Without(s.areas, n)
    && Owned(s) - Owned(s') == s.areas[n].frames.Values
  }

  lemma FinishRemoval(ph: Phys, s: Space, tramp: nat, n: nat, ph': Phys, s': Space)
    requires AreasOk(s, tramp) && n < |s.areas| && SpaceShrunk(ph, s, ph', s') && SpaceOk(ph'.mem, s', tramp)
    requires |s'.areas| == |s.areas| && s'.areas == s.areas[n := s'.areas[n]] && s'.areas[n].start == s'.areas[n].end
    ensures var s'' := Space(s'.table, Without(s'.areas, n));
            SpaceOk(ph'.mem, s'', tramp) && Owned(s'') == Owned(s') && SpaceShrunk(ph, s, ph', s'')
            && Owned(s) - Owned(s'') == s.areas[n].frames.Values
  {
    hide AreasOk, TableOk, DataFrames, InjectiveFrames, Without, FrameAt;
    AreasParts(s, tramp);
    RemoveEmpty(s', tramp, n);
    FreedExactly(s, s', n);
  }

  lemma FreedExactly(s: Space, s': Space, n: nat)
    requires n < |s.areas| && InjectiveFrames(s.areas) && DataFrames(s.areas) !! s.table.roles.Keys
    requires |s'.areas| == |s.areas| && s'.areas == s.areas[n := s'.areas[n]] && s'.areas[n].frames == map[]
    requires s'.table.roles == s.table.roles
    ensures Owned(s) - Owned(s') == s.areas[n].frames.Values
  {
    hide DataFrames, InjectiveFrames;
    EmptyAreaData(s.areas, n, s'.areas[n]);
  }

  lemma TrampolinePage()
    ensures Floor(VirtAddrFrom(TRAMPOLINE)) == TRAMPOLINE_VPN
  {}

  lemma BareSpace(ph0: Phys, ph: Phys, t: Table, ph': Phys, t': Table, tramp: nat)
    requires t.roles.Keys == {t.root} && t.root in ph0.free && ph.free == ph0.free - {t.root}
    requires SameOff(ph0.mem, ph.mem, {t.root}) && Grown(ph, t, ph', t') && TableOk(ph'.mem, t')
    requires t'.flat == map[TRAMPOLINE_VPN := LeafPte(tramp, RX)]
    ensures Built(ph0, ph', Space(t', []), tramp) && Owned(Space(t', [])) !! ph'.free
  {
    hide TableOk, FrameAt, LeafPte;
    assert DataFrames([]) == {};
    assert t'.roles.Keys == {t.root} + (t'.roles.Keys - t.roles.Keys);
    forall p: nat | p !in t'.roles.Keys ensures FrameAt(ph0.mem, p) == FrameAt(ph'.mem, p) {
      assert p !in {t.root};
      assert FrameAt(ph0.mem, p) == FrameAt(ph.mem, p);
    }
  }

  /** Drop of the data frames of one area, in page order. */
  method DropArea(area: MapArea, ram: Ram)
    requires ram.Valid() && AreaShape(area) && area.frames.Values <= ram.Pool() && area.frames.Values !! ram.View().free
    requires forall v, w | v in area.frames && w in area.frames && area.frames[v] == area.frames[w] :: v == w
    modifies ram.frames
    ensures ram.Valid() && ram.Pool() == old(ram.Pool())
    ensures ram.View() == Phys(old(ram.mem), old(ram.View().free) + area.frames.Values)
  {
    hide StackFrameAllocator.Free, StackFrameAllocator.Valid, StackFrameAllocator.Pool;
    ghost var free := ram.View().free;
    var rest := area.frames;
    assert (map v | v in area.frames && v >= area.start :: area.frames[v]) == area.frames;
    for v := area.start to area.end
      invariant ram.Valid() && ram.Pool() == old(ram.Pool())
      invariant rest == map w | w in area.frames && w >= v :: area.frames[w]
      invariant ram.View() == Phys(old(ram.mem), free + (area.frames.Values - rest.Values))
    {
      if v in rest {
        RestWithout(rest, v);
        RestInside(area.frames, rest, v);
        ram.FrameDealloc(rest[v]);
        rest := rest - {v};
      }
    }
    assert rest == map[];
  }

  lemma RestInside(m: map<nat, nat>, rest: map<nat, nat>, v: nat)
    requires v in rest && v in m && m[v] == rest[v]
    ensures rest[v] in m.Values && rest[v] in rest.Values
  {}

  lemma RestWithout(m: map<nat, nat>, v: nat)
    requires v in m && forall w, x | w in m && x in m && m[w] == m[x] :: w == x
    ensures (m - {v}).Values == m.Values - {m[v]}
  {
    var m' := m - {v};
    forall f | f in m.Values && f != m[v] ensures f in m'.Values {
      var w :| w in m && m[w] == f;
      assert m'[w] == f;
    }
    forall f | f in m'.Values ensures f in m.Values && f != m[v] {
      var w :| w in m' && m'[w] == f;
      assert m[w] == f;
    }
  }

  /** Drop of a list of areas. */
  method DropAreas(areas: seq<MapArea>, ram: Ram)
    requires ram.Valid() && ShapesOk(areas) && InjectiveFrames(areas)
    requires DataFrames(areas) <= ram.Pool() && DataFrames(areas) !! ram.View().free
    modifies ram.frames
    ensures ram.Valid() && ram.Pool() == old(ram.Pool())
    ensures ram.View() == Phys(old(ram.mem), old(ram.View().free) + DataFrames(areas))
  {
    hide StackFrameAllocator.Free, StackFrameAllocator.Valid, StackFrameAllocator.Pool, DataFrames, AreaShape;
    NoData();
    for i := 0 to |areas|
      invariant ram.Valid() && ram.Pool() == old(ram.Pool())
      invariant ram.View() == Phys(old(ram.mem), old(ram.View().free) + DataFrames(areas[..i]))
      invariant DataFrames(areas[..i]) <= DataFrames(areas)
    {
      SplitData(areas, i);
      DropArea(areas[i], ram);
    }
    assert areas[..|areas|] == areas;
  }

  lemma NoData()
    ensures DataFrames([]) == {}
  {}

  lemma SplitData(areas: seq<MapArea>, i: nat)
    requires i < |areas| && InjectiveFrames(areas)
    ensures DataFrames(areas[..i + 1]) == DataFrames(areas[..i]) + areas[i].frames.Values
    ensures areas[i].frames.Values !! DataFrames(areas[..i]) && areas[i].frames.Values <= DataFrames(areas)
  {
    hide DataFrames;
    assert areas[..i + 1] == areas[..i] + [areas[i]];
    AppendData(areas[..i], areas[i]);
    forall f | f in areas[i].frames.Values ensures f !in DataFrames(areas[..i]) && f in DataFrames(areas) {
      var v :| v in areas[i].frames && areas[i].frames[v] == f;
      InData(areas, i, v);
      if f in DataFrames(areas[..i]) {
        var j, w := FromData(areas[..i], f);
      }
    }
  }

  lemma AreaStarts(s: Space, tramp: nat, n: nat)
    requires AreasOk(s, tramp) && n < |s.areas|
    ensures forall v | v in s.areas[n].frames :: s.areas[n].start <= v
  {
    assert AreaShape(s.areas[n]);
  }

}
