/** Address spaces as values (os/src/mm/memory_set.rs): a page table and the areas whose data
    frames it maps. */
module SpaceModel {
  import opened Address
  import opened PhysicalMemory
  import opened PageTableEntries
  import opened FrameAllocation
  import opened TableModel
  import opened PageTables

  datatype MapType = Identical | Framed

  /** `MapArea`: the pages [start, end), and the frame of each page when the area is framed. */
  datatype MapArea = MapArea(start: nat, end: nat, frames: map<nat, nat>, kind: MapType, perm: Permission)

  datatype Space = Space(table: Table, areas: seq<MapArea>)

  const RX := Permission(true, false, true, false)
  const RW := Permission(true, true, false, false)

  predicate Covers(a: MapArea, v: nat) { a.start <= v < a.end }

  function PpnOf(a: MapArea, v: nat): nat {
    if a.kind.Framed? && v in a.frames then a.frames[v] else v
  }

  ghost predicate AreaShape(a: MapArea) {
    && a.start <= a.end <= TRAMPOLINE_VPN
    && (forall v: nat :: v in a.frames <==> a.kind.Framed? && Covers(a, v))
    && forall v | v in a.frames :: a.frames[v] < TWO_44
  }

  ghost predicate ShapesOk(areas: seq<MapArea>) {
    forall i | 0 <= i < |areas| :: AreaShape(areas[i])
  }

  /** No page lies in two areas. */
  ghost predicate DisjointAreas(areas: seq<MapArea>) {
    forall i, j, v: nat | 0 <= i < |areas| && 0 <= j < |areas| && Covers(areas[i], v) && Covers(areas[j], v) :: i == j
  }

  /** The table maps every page of every area to the area's frame with the area's permissions. */
  ghost predicate AreasMapped(flat: map<nat, nat>, areas: seq<MapArea>) {
    forall i, v: nat | 0 <= i < |areas| && Covers(areas[i], v) ::
      v in flat && flat[v] == LeafPte(PpnOf(areas[i], v), areas[i].perm)
  }

  ghost predicate InSomeArea(areas: seq<MapArea>, v: nat) {
    exists i :: 0 <= i < |areas| && Covers(areas[i], v)
  }

  /** The table maps nothing but the trampoline and the pages of the areas. */
  ghost predicate NothingElse(flat: map<nat, nat>, areas: seq<MapArea>) {
    forall v {:trigger InSomeArea(areas, v)} | v in flat :: v == TRAMPOLINE_VPN || InSomeArea(areas, v)
  }

  /** No frame backs two pages. */
  ghost predicate InjectiveFrames(areas: seq<MapArea>) {
    forall i, v, j, w {:trigger areas[i].frames[v], areas[j].frames[w]} | 0 <= i < |areas| && v in areas[i].frames
        && 0 <= j < |areas| && w in areas[j].frames
      && areas[i].frames[v] == areas[j].frames[w] :: i == j && v == w
  }

  ghost function DataFrames(areas: seq<MapArea>): set<nat> {
    set i, v | 0 <= i < |areas| && v in areas[i].frames :: areas[i].frames[v]
  }

  lemma InData(areas: seq<MapArea>, i: nat, v: nat)
    requires i < |areas| && v in areas[i].frames
    ensures areas[i].frames[v] in DataFrames(areas)
  {}

  lemma FromData(areas: seq<MapArea>, f: nat) returns (i: nat, v: nat)
    requires f in DataFrames(areas)
    ensures i < |areas| && v in areas[i].frames && areas[i].frames[v] == f
  {
    i, v :| 0 <= i < |areas| && v in areas[i].frames && areas[i].frames[v] == f;
  }

  ghost predicate AreasOk(s: Space, tramp: nat) {
    && ShapesOk(s.areas) && DisjointAreas(s.areas) && AreasMapped(s.table.flat, s.areas)
    && NothingElse(s.table.flat, s.areas) && InjectiveFrames(s.areas)
    && DataFrames(s.areas) !! s.table.roles.Keys
    && TRAMPOLINE_VPN in s.table.flat && s.table.flat[TRAMPOLINE_VPN] == LeafPte(tramp, RX)
  }

  /** Areas and page table of a space agree; `tramp` is the frame of the trampoline. */
  ghost predicate SpaceOk(mem: Memory, s: Space, tramp: nat) {
    TableOk(mem, s.table) && AreasOk(s, tramp)
  }

  /** The frames a space holds: its table nodes and its data. */
  ghost function Owned(s: Space): set<nat> {
    s.table.roles.Keys + DataFrames(s.areas)
  }

  // ---- one page more at the end of an area ----

  function Extend(a: MapArea, c: nat): MapArea {
    a.(end := a.end + 1, frames := if a.kind.Framed? then a.frames[a.end := c] else a.frames)
  }

  /** The page after the end of area `a` may be mapped to `c`. */
  ghost predicate CanExtend(s: Space, tramp: nat, a: MapArea, c: nat, t': Table) {
    && AreasOk(s, tramp) && |s.areas| > 0 && a == s.areas[|s.areas| - 1]
    && a.end < TRAMPOLINE_VPN && !InSomeArea(s.areas, a.end)
    && c < TWO_44 && (a.kind.Framed? ==> c !in Owned(s) && c !in t'.roles)
    && (a.kind.Identical? ==> c == a.end)
    && s.table.roles.Keys <= t'.roles.Keys && t'.roles.Keys !! DataFrames(s.areas)
    && t'.flat == s.table.flat[a.end := LeafPte(c, a.perm)]
  }

  function ExtendLast(s: Space, a: MapArea, c: nat): seq<MapArea>
    requires |s.areas| > 0
  {
    s.areas[|s.areas| - 1 := Extend(a, c)]
  }

  lemma ExtendShapes(s: Space, tramp: nat, a: MapArea, c: nat, t': Table)
    requires CanExtend(s, tramp, a, c, t')
    ensures ShapesOk(ExtendLast(s, a, c))
    ensures a.kind.Framed? ==> a.end !in a.frames
  {
    hide AreasMapped, NothingElse, LeafPte, InSomeArea, DisjointAreas, InjectiveFrames, DataFrames;
    var n := |s.areas| - 1;
    assert AreaShape(s.areas[n]);
    assert Pages(a.start, a.end + 1) == Pages(a.start, a.end) + {a.end};
    assert AreaShape(Extend(a, c));
  }

  /** Replacing area `n` by one with other frames. */
  lemma DataFramesUpdate(areas: seq<MapArea>, n: nat, a: MapArea)
    requires n < |areas|
    ensures forall f | f in DataFrames(areas[n := a]) :: f in DataFrames(areas) || f in a.frames.Values
    ensures forall f | f in DataFrames(areas) :: f in DataFrames(areas[n := a]) || f in areas[n].frames.Values
    ensures a.frames.Values <= DataFrames(areas[n := a])
  {
    hide DataFrames;
    forall f | f in DataFrames(areas[n := a]) ensures f in DataFrames(areas) || f in a.frames.Values {
      var i, v := FromData(areas[n := a], f);
      if i != n {
        InData(areas, i, v);
      }
    }
    forall f | f in DataFrames(areas) ensures f in DataFrames(areas[n := a]) || f in areas[n].frames.Values {
      var i, v := FromData(areas, f);
      if i != n {
        InData(areas[n := a], i, v);
      }
    }
    forall f | f in a.frames.Values ensures f in DataFrames(areas[n := a]) {
      var v :| v in a.frames && a.frames[v] == f;
      InData(areas[n := a], n, v);
    }
  }

  lemma ExtendData(s: Space, tramp: nat, a: MapArea, c: nat, t': Table)
    requires CanExtend(s, tramp, a, c, t')
    ensures DataFrames(ExtendLast(s, a, c)) == DataFrames(s.areas) + (if a.kind.Framed? then {c} else {})
  {
    ExtendShapes(s, tramp, a, c, t');
    hide AreasOk, LeafPte, InSomeArea, DataFrames, Owned;
    var n := |s.areas| - 1;
    DataFramesUpdate(s.areas, n, Extend(a, c));
    DataFramesUpdate(ExtendLast(s, a, c), n, a);
    assert ExtendLast(s, a, c)[n := a] == s.areas;
    if a.kind.Framed? {
      ExtendValues(a.frames, a.end, c);
    }
  }

  lemma ExtendValues(m: map<nat, nat>, v: nat, c: nat)
    requires v !in m
    ensures m[v := c].Values == m.Values + {c}
  {
    assert m[v := c][v] == c;
    forall f | f in m.Values ensures f in m[v := c].Values {
      var w :| w in m && m[w] == f;
      assert m[v := c][w] == f;
    }
  }

  lemma ExtendMapping(s: Space, tramp: nat, a: MapArea, c: nat, t': Table)
    requires CanExtend(s, tramp, a, c, t')
    ensures DisjointAreas(ExtendLast(s, a, c)) && AreasMapped(t'.flat, ExtendLast(s, a, c))
  {
    hide LeafPte, InjectiveFrames, DataFrames, NothingElse, Owned;
    var n := |s.areas| - 1;
    assert AreaShape(s.areas[n]);
    assert forall v: nat :: Covers(Extend(a, c), v) <==> Covers(a, v) || v == a.end;
  }

  lemma ExtendNothingElse(s: Space, tramp: nat, a: MapArea, c: nat, t': Table)
    requires CanExtend(s, tramp, a, c, t')
    ensures NothingElse(t'.flat, ExtendLast(s, a, c))
  {
    hide LeafPte, InjectiveFrames, DataFrames, DisjointAreas, AreasMapped, Owned;
    var n := |s.areas| - 1;
    var areas' := ExtendLast(s, a, c);
    assert AreaShape(s.areas[n]);
    forall v | v in t'.flat ensures v == TRAMPOLINE_VPN || InSomeArea(areas', v) {
      if v == a.end {
        assert Covers(areas'[n], v);
      } else if v != TRAMPOLINE_VPN {
        assert InSomeArea(s.areas, v);
        var i :| 0 <= i < |s.areas| && Covers(s.areas[i], v);
        assert Covers(areas'[i], v);
      }
    }
  }

  lemma ExtendKeepsAreas(s: Space, tramp: nat, a: MapArea, c: nat, t': Table)
    requires CanExtend(s, tramp, a, c, t')
    ensures AreasOk(Space(t', ExtendLast(s, a, c)), tramp)
    ensures Owned(Space(t', ExtendLast(s, a, c)))
              == t'.roles.Keys + DataFrames(s.areas) + (if a.kind.Framed? then {c} else {})
  {
    ExtendData(s, tramp, a, c, t');
    ExtendMapping(s, tramp, a, c, t');
    ExtendNothingElse(s, tramp, a, c, t');
    hide LeafPte, InjectiveFrames, DataFrames, ShapesOk, DisjointAreas, AreasMapped, NothingElse;
  }

  // ---- an empty area comes and goes ----

  lemma AppendEmptyMapping(s: Space, tramp: nat, a: MapArea)
    requires AreasOk(s, tramp) && a.start == a.end <= TRAMPOLINE_VPN && a.frames == map[]
    ensures var areas' := s.areas + [a];
            DisjointAreas(areas') && AreasMapped(s.table.flat, areas') && NothingElse(s.table.flat, areas')
  {
    hide LeafPte, DataFrames, InjectiveFrames, ShapesOk;
    var areas' := s.areas + [a];
    assert forall v: nat :: !Covers(a, v);
    forall v | v in s.table.flat ensures v == TRAMPOLINE_VPN || InSomeArea(areas', v) {
      if v != TRAMPOLINE_VPN {
        assert InSomeArea(s.areas, v);
        var i :| 0 <= i < |s.areas| && Covers(s.areas[i], v);
        assert Covers(areas'[i], v);
      }
    }
  }

  lemma AppendEmptyInjective(areas: seq<MapArea>, a: MapArea)
    requires InjectiveFrames(areas) && a.frames == map[]
    ensures InjectiveFrames(areas + [a])
  {
    var areas' := areas + [a];
    forall i, v, j, w | 0 <= i < |areas'| && v in areas'[i].frames && 0 <= j < |areas'| && w in areas'[j].frames
      && areas'[i].frames[v] == areas'[j].frames[w]
      ensures i == j && v == w
    {
      assert areas'[i] == areas[i] && areas'[j] == areas[j];
    }
  }

  lemma AppendEmpty(s: Space, tramp: nat, a: MapArea)
    requires AreasOk(s, tramp) && a.start == a.end <= TRAMPOLINE_VPN && a.frames == map[]
    ensures AreasOk(Space(s.table, s.areas + [a]), tramp)
    ensures DataFrames(s.areas + [a]) == DataFrames(s.areas)
  {
    hide LeafPte, DataFrames, InjectiveFrames, DisjointAreas, AreasMapped, NothingElse, ShapesOk;
    AppendEmptyMapping(s, tramp, a);
    AppendEmptyInjective(s.areas, a);
    AppendEmptyShape(s.areas, a);
    AppendData(s.areas, a);
  }

  lemma AppendEmptyShape(areas: seq<MapArea>, a: MapArea)
    requires ShapesOk(areas) && a.start == a.end <= TRAMPOLINE_VPN && a.frames == map[]
    ensures ShapesOk(areas + [a])
  {
    assert AreaShape(a) by { assert Pages(a.start, a.end) == {}; }
  }

  lemma AppendData(areas: seq<MapArea>, a: MapArea)
    ensures DataFrames(areas + [a]) == DataFrames(areas) + a.frames.Values
  {
    hide DataFrames;
    var areas' := areas + [a];
    forall f | f in DataFrames(areas') ensures f in DataFrames(areas) + a.frames.Values {
      var i, v := FromData(areas', f);
      if i < |areas| {
        InData(areas, i, v);
      }
    }
    forall f | f in DataFrames(areas) ensures f in DataFrames(areas') {
      var i, v := FromData(areas, f);
      assert areas'[i] == areas[i];
      InData(areas', i, v);
    }
    forall f | f in a.frames.Values ensures f in DataFrames(areas') {
      var v :| v in a.frames && a.frames[v] == f;
      InData(areas', |areas|, v);
    }
  }

  function Without(areas: seq<MapArea>, n: nat): seq<MapArea>
    requires n < |areas|
  {
    areas[..n] + areas[n + 1..]
  }

  /** Index of an area after area `n` has been removed. */
  function Moved(n: nat, i: nat): nat { if i < n then i else i + 1 }

  lemma WithoutData(areas: seq<MapArea>, n: nat)
    requires n < |areas| && areas[n].frames == map[]
    ensures DataFrames(Without(areas, n)) == DataFrames(areas)
  {
    hide DataFrames;
    var areas' := Without(areas, n);
    forall f | f in DataFrames(areas') ensures f in DataFrames(areas) {
      var i, v := FromData(areas', f);
      assert areas'[i] == areas[Moved(n, i)];
      InData(areas, Moved(n, i), v);
    }
    forall f | f in DataFrames(areas) ensures f in DataFrames(areas') {
      var i, v := FromData(areas, f);
      var j := if i < n then i else i - 1;
      assert areas'[j] == areas[i];
      InData(areas', j, v);
    }
  }

  lemma RemoveEmptyMapping(s: Space, tramp: nat, n: nat)
    requires AreasOk(s, tramp) && n < |s.areas| && s.areas[n].start == s.areas[n].end
    ensures AreasMapped(s.table.flat, Without(s.areas, n)) && NothingElse(s.table.flat, Without(s.areas, n))
  {
    hide LeafPte, DataFrames, InjectiveFrames, ShapesOk;
    var areas, areas' := s.areas, Without(s.areas, n);
    assert forall i | 0 <= i < |areas'| :: areas'[i] == areas[Moved(n, i)];
    forall v | v in s.table.flat ensures v == TRAMPOLINE_VPN || InSomeArea(areas', v) {
      if v != TRAMPOLINE_VPN {
        assert InSomeArea(areas, v);
        var i :| 0 <= i < |areas| && Covers(areas[i], v);
        assert i != n;
        var j := if i < n then i else i - 1;
        assert areas'[j] == areas[i];
        assert Covers(areas'[j], v);
      }
    }
  }

  lemma RemoveEmpty(s: Space, tramp: nat, n: nat)
    requires AreasOk(s, tramp) && n < |s.areas| && s.areas[n].start == s.areas[n].end
    ensures s.areas[n].frames == map[]
    ensures AreasOk(Space(s.table, Without(s.areas, n)), tramp)
    ensures DataFrames(Without(s.areas, n)) == DataFrames(s.areas)
  {
    assert AreaShape(s.areas[n]);
    assert Pages(s.areas[n].start, s.areas[n].end) == {};
    WithoutData(s.areas, n);
    RemoveEmptyMapping(s, tramp, n);
    hide LeafPte, DataFrames, InjectiveFrames, DisjointAreas, AreasMapped, NothingElse, ShapesOk, Without;
  }

  // ---- one page less at the front of an area ----

  function Shrink(a: MapArea): MapArea {
    a.(start := a.start + 1, frames := a.frames - {a.start})
  }

  ghost predicate CanShrink(s: Space, tramp: nat, n: nat) {
    AreasOk(s, tramp) && n < |s.areas| && s.areas[n].start < s.areas[n].end
  }

  function ShrinkAt(s: Space, n: nat): seq<MapArea>
    requires n < |s.areas|
  {
    s.areas[n := Shrink(s.areas[n])]
  }

  /** The frames given back when the first page of area `a` is unmapped. */
  function FirstFrame(a: MapArea): set<nat> {
    if a.start in a.frames then {a.frames[a.start]} else {}
  }

  lemma ShrinkData(s: Space, tramp: nat, n: nat)
    requires CanShrink(s, tramp, n)
    ensures InjectiveFrames(ShrinkAt(s, n))
    ensures DataFrames(ShrinkAt(s, n)) == DataFrames(s.areas) - FirstFrame(s.areas[n])
    ensures FirstFrame(s.areas[n]) <= DataFrames(s.areas)
  {
    hide DataFrames, LeafPte, ShapesOk, AreasMapped, NothingElse, DisjointAreas;
    var areas, areas' := s.areas, ShrinkAt(s, n);
    forall f | f in DataFrames(areas') ensures f in DataFrames(areas) - FirstFrame(areas[n]) {
      var i, v := FromData(areas', f);
      InData(areas, i, v);
    }
    forall f | f in DataFrames(areas) && f !in FirstFrame(areas[n]) ensures f in DataFrames(areas') {
      var i, v := FromData(areas, f);
      InData(areas', i, v);
    }
    if areas[n].start in areas[n].frames {
      InData(areas, n, areas[n].start);
    }
  }

  lemma ShrinkShapes(s: Space, tramp: nat, n: nat)
    requires CanShrink(s, tramp, n)
    ensures ShapesOk(ShrinkAt(s, n)) && DisjointAreas(ShrinkAt(s, n))
    ensures s.areas[n].start in s.table.flat && s.areas[n].start != TRAMPOLINE_VPN
  {
    hide DataFrames, LeafPte, InjectiveFrames, NothingElse;
    var a := s.areas[n];
    assert AreaShape(a);
    assert Pages(a.start + 1, a.end) == Pages(a.start, a.end) - {a.start};
    assert AreaShape(Shrink(a));
    assert Covers(a, a.start);
  }

  lemma ShrinkMapping(s: Space, tramp: nat, n: nat)
    requires CanShrink(s, tramp, n)
    ensures var flat' := s.table.flat - {s.areas[n].start};
            AreasMapped(flat', ShrinkAt(s, n)) && NothingElse(flat', ShrinkAt(s, n))
  {
    hide DataFrames, LeafPte, InjectiveFrames, ShapesOk;
    var areas, areas', a := s.areas, ShrinkAt(s, n), s.areas[n];
    assert Covers(a, a.start);
    assert forall v: nat :: Covers(Shrink(a), v) <==> Covers(a, v) && v != a.start;
    forall v | v in s.table.flat && v != a.start ensures v == TRAMPOLINE_VPN || InSomeArea(areas', v) {
      if v != TRAMPOLINE_VPN {
        assert InSomeArea(areas, v);
        var i :| 0 <= i < |areas| && Covers(areas[i], v);
        assert Covers(areas'[i], v);
      }
    }
  }

  /** Unmapping the first page of area `n` keeps areas and table in agreement. */
  lemma ShrinkKeepsAreas(s: Space, tramp: nat, n: nat)
    requires CanShrink(s, tramp, n)
    ensures var t' := s.table.(flat := s.table.flat - {s.areas[n].start});
            AreasOk(Space(t', ShrinkAt(s, n)), tramp)
  {
    ShrinkData(s, tramp, n);
    ShrinkMapping(s, tramp, n);
    hide LeafPte, InjectiveFrames, DataFrames, ShapesOk, DisjointAreas, AreasMapped, NothingElse;
  }

  // ---- growth of a space ----

  /** From `(ph, s)` to `(ph', s')` the space kept its frames and took new ones from the free
      frames; bytes changed only in its old table nodes and in the frames it took. */
  ghost predicate SpaceGrown(ph: Phys, s: Space, ph': Phys, s': Space) {
    var taken := Owned(s') - Owned(s);
    && s'.table.root == s.table.root
    && Owned(s) <= Owned(s')
    && taken <= ph.free && ph'.free == ph.free - taken
    && s.table.roles.Keys <= s'.table.roles.Keys <= s.table.roles.Keys + taken
    && SameOff(ph.mem, ph'.mem, s.table.roles.Keys + taken)
  }

  lemma SpaceGrownTransitive(ph0: Phys, s0: Space, ph1: Phys, s1: Space, ph2: Phys, s2: Space)
    requires SpaceGrown(ph0, s0, ph1, s1) && SpaceGrown(ph1, s1, ph2, s2)
    ensures SpaceGrown(ph0, s0, ph2, s2)
  {
    hide Owned, FrameAt;
    var o0, o1, o2 := Owned(s0), Owned(s1), Owned(s2);
    assert o2 - o0 == (o2 - o1) + (o1 - o0);
  }

  /** Clearing a data frame for page `a.end` and mapping it. */
  lemma MapOneStep(ph: Phys, s: Space, tramp: nat, a: MapArea, c: nat, ph1: Phys, ph2: Phys, t': Table)
    requires AreasOk(s, tramp) && |s.areas| > 0 && a == s.areas[|s.areas| - 1]
    requires a.end < TRAMPOLINE_VPN && !InSomeArea(s.areas, a.end) && Owned(s) !! ph.free && c < TWO_44
    requires if a.kind.Framed? then c in ph.free && ph1 == Phys(ph.mem[c := ZeroFrame()], ph.free - {c})
             else c == a.end && ph1 == ph
    requires Grown(ph1, s.table, ph2, t') && t'.flat == s.table.flat[a.end := LeafPte(c, a.perm)]
    ensures var s' := Space(t', ExtendLast(s, a, c));
            AreasOk(s', tramp) && SpaceGrown(ph, s, ph2, s') && Owned(s') !! ph2.free
    ensures a.kind.Framed? ==> FrameAt(ph2.mem, c) == ZeroFrame()
  {
    hide AreasOk, LeafPte, DataFrames, InSomeArea, FrameAt, ZeroFrame;
    assert DataFrames(s.areas) !! s.table.roles.Keys by { AreasParts(s, tramp); }
    assert t'.roles.Keys !! DataFrames(s.areas) by {
      forall p | p in t'.roles.Keys ensures p !in DataFrames(s.areas) {
        assert p in s.table.roles.Keys || p in t'.roles.Keys - s.table.roles.Keys;
      }
    }
    assert a.kind.Framed? ==> c !in t'.roles.Keys;
    assert CanExtend(s, tramp, a, c, t');
    ExtendKeepsAreas(s, tramp, a, c, t');
    var s' := Space(t', ExtendLast(s, a, c));
    var added := t'.roles.Keys - s.table.roles.Keys;
    assert Owned(s') - Owned(s) == added + (if a.kind.Framed? then {c} else {});
    assert SameOff(ph.mem, ph2.mem, s.table.roles.Keys + (Owned(s') - Owned(s))) by {
      forall p: nat | p !in s.table.roles.Keys + (Owned(s') - Owned(s))
        ensures FrameAt(ph.mem, p) == FrameAt(ph2.mem, p)
      {
        assert FrameAt(ph1.mem, p) == FrameAt(ph2.mem, p);
        if a.kind.Framed? {
          UpdateOther(ph.mem, c, p);
        }
      }
    }
    if a.kind.Framed? {
      assert FrameAt(ph1.mem, c) == FrameAt(ph2.mem, c);
      UpdateSame(ph.mem, c);
    }
  }

  lemma AreasParts(s: Space, tramp: nat)
    requires AreasOk(s, tramp)
    ensures InjectiveFrames(s.areas) && DisjointAreas(s.areas) && DataFrames(s.areas) !! s.table.roles.Keys
  {}

  lemma UpdateOther(mem: Memory, c: nat, p: nat)
    requires p != c
    ensures FrameAt(mem[c := ZeroFrame()], p) == FrameAt(mem, p)
  {}

  lemma UpdateSame(mem: Memory, c: nat)
    ensures FrameAt(mem[c := ZeroFrame()], c) == ZeroFrame()
  {}

  lemma GrownByEmptyArea(ph: Phys, s: Space, tramp: nat, a: MapArea)
    requires AreasOk(s, tramp) && a.start == a.end <= TRAMPOLINE_VPN && a.frames == map[]
    ensures var s' := Space(s.table, s.areas + [a]);
            AreasOk(s', tramp) && Owned(s') == Owned(s) && SpaceGrown(ph, s, ph, s')
  {
    AppendEmpty(s, tramp, a);
    hide AreasOk, DataFrames;
    assert Owned(s) - Owned(s) == {};
  }

  /** A framed area holds one frame for each of its pages, none twice and none a table node. */
  lemma FramedPages(s: Space, tramp: nat, n: nat)
    requires AreasOk(s, tramp) && n < |s.areas| && s.areas[n].kind.Framed?
    ensures forall v: nat :: v in s.areas[n].frames <==> Covers(s.areas[n], v)
    ensures forall v, w | v in s.areas[n].frames && w in s.areas[n].frames
              && s.areas[n].frames[v] == s.areas[n].frames[w] :: v == w
    ensures forall v | v in s.areas[n].frames :: s.areas[n].frames[v] < TWO_44 && s.areas[n].frames[v] !in s.table.roles
    ensures s.areas[n].frames.Values <= DataFrames(s.areas)
  {
    hide LeafPte, DisjointAreas, AreasMapped, NothingElse, DataFrames;
    assert AreaShape(s.areas[n]);
    forall v | v in s.areas[n].frames
      ensures s.areas[n].frames[v] in DataFrames(s.areas)
    {
      InData(s.areas, n, v);
    }
  }

  /** The software walk finds the frame of every page of every area. */
  lemma PageTranslates(mem: Memory, s: Space, tramp: nat, n: nat, v: nat)
    requires SpaceOk(mem, s, tramp) && n < |s.areas| && Covers(s.areas[n], v)
    ensures v in s.table.flat && s.table.flat[v] == LeafPte(PpnOf(s.areas[n], v), s.areas[n].perm)
    ensures Translate(mem, s.table.root, v) == Some(LeafPte(PpnOf(s.areas[n], v), s.areas[n].perm))
    ensures PtePpn(LeafPte(PpnOf(s.areas[n], v), s.areas[n].perm)) == PpnOf(s.areas[n], v)
  {
    hide LeafPte, InjectiveFrames, NothingElse, DataFrames, DisjointAreas, PtePpn;
    assert AreaShape(s.areas[n]);
    assert v < VPN_LIMIT;
    hide AreaShape;
    TranslateRefinesFlat(mem, s.table, v);
    LeafPteFields(PpnOf(s.areas[n], v), s.areas[n].perm);
  }

  /** Changing a frame that is not a node of the table leaves the table alone. */
  lemma WriteElsewhere(mem: Memory, t: Table, p: nat, f: Frame)
    requires TableOk(mem, t) && p !in t.roles
    ensures TableOk(mem[p := f], t)
  {
    hide TableOk;
    assert SameOn(mem, mem[p := f], t.roles.Keys);
    TableFrame(mem, mem[p := f], t);
  }

  /** Emptying area `n` gives up exactly its own frames. */
  lemma EmptyAreaData(areas: seq<MapArea>, n: nat, a: MapArea)
    requires n < |areas| && InjectiveFrames(areas) && a.frames == map[]
    ensures DataFrames(areas[n := a]) == DataFrames(areas) - areas[n].frames.Values
    ensures areas[n].frames.Values <= DataFrames(areas)
  {
    hide DataFrames;
    var areas' := areas[n := a];
    forall f | f in DataFrames(areas') ensures f in DataFrames(areas) - areas[n].frames.Values {
      var i, v := FromData(areas', f);
      InData(areas, i, v);
    }
    forall f | f in DataFrames(areas) && f !in areas[n].frames.Values ensures f in DataFrames(areas') {
      var i, v := FromData(areas, f);
      InData(areas', i, v);
    }
    forall f | f in areas[n].frames.Values ensures f in DataFrames(areas) {
      var v :| v in areas[n].frames && areas[n].frames[v] == f;
      InData(areas, n, v);
    }
  }
}
