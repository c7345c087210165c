/** `MemorySet::from_existed_user`: the address space of a forked process
    (os/src/mm/memory_set.rs). */
module SpaceCopies {
  import opened Address
  import opened PhysicalMemory
  import opened PageTableEntries
  import opened FrameAllocation
  import opened TableModel
  import opened SpaceModel
  import opened MemorySets

  /** `MapArea::from_another`: the same pages and permissions. */
  predicate SameShape(a: MapArea, a': MapArea) {
    a' == a.(frames := a'.frames)
  }

  /** Page `v` of `a'` holds in `mem'` the bytes that page `v` of `a` holds in `mem`. */
  ghost predicate PageCopied(mem: Memory, mem': Memory, a: MapArea, a': MapArea, v: nat) {
    v in a.frames && v in a'.frames && FrameAt(mem', a'.frames[v]) == FrameAt(mem, a.frames[v])
  }

  ghost predicate AllFramed(areas: seq<MapArea>) {
    forall i | 0 <= i < |areas| :: areas[i].kind.Framed?
  }

  /** `s` is a new space with the areas, permissions and bytes of `user`, in frames of its own. */
  ghost predicate Copied(ph: Phys, user: Space, ph': Phys, s: Space, tramp: nat) {
    && Built(ph, ph', s, tramp)
    && |s.areas| == |user.areas|
    && (forall i | 0 <= i < |s.areas| :: SameShape(user.areas[i], s.areas[i]))
    && (forall i, v: nat | 0 <= i < |s.areas| && Covers(user.areas[i], v) ::
          PageCopied(ph.mem, ph'.mem, user.areas[i], s.areas[i], v))
  }

  /** The space being copied, and the copy as far as it has come: all but the last area, and the
      last area below page `vpn`. */
  ghost predicate Copying(ph0: Phys, user: Space, ph: Phys, s: Space, vpn: nat, tramp: nat) {
    && SpaceOk(ph0.mem, user, tramp) && Owned(user) !! ph0.free && AllFramed(user.areas)
    && Built(ph0, ph, s, tramp) && Owned(s) !! ph.free
    && |s.areas| <= |user.areas|
    && (forall i | 0 <= i < |s.areas| :: SameShape(user.areas[i], s.areas[i]))
    && (forall i, v: nat | 0 <= i < |s.areas| && Covers(user.areas[i], v) && (i == |s.areas| - 1 ==> v < vpn) ::
          PageCopied(ph0.mem, ph.mem, user.areas[i], s.areas[i], v))
  }

  /** While the copy is built the original stays as it was. */
  lemma UserUnchanged(ph0: Phys, user: Space, ph: Phys, s: Space, vpn: nat, tramp: nat)
    requires Copying(ph0, user, ph, s, vpn, tramp)
    ensures SameOn(ph0.mem, ph.mem, Owned(user)) && SpaceOk(ph.mem, user, tramp)
  {
    hide AreasOk, TableOk, DataFrames, FrameAt, PageCopied;
    assert SameOn(ph0.mem, ph.mem, Owned(user));
    TableFrame(ph0.mem, ph.mem, user.table);
  }

  /** The next area of the original has no page in the areas copied so far. */
  lemma NextAreaApart(ph0: Phys, user: Space, ph: Phys, s: Space, vpn: nat, tramp: nat)
    requires Copying(ph0, user, ph, s, vpn, tramp) && |s.areas| < |user.areas|
    ensures var a := user.areas[|s.areas|];
            Apart(s.areas, a) && a.start <= a.end <= TRAMPOLINE_VPN
  {
    hide TableOk, DataFrames, FrameAt, PageCopied, InjectiveFrames, AreasMapped, NothingElse, Built;
    var a := user.areas[|s.areas|];
    assert AreaShape(a);
    forall v: nat | Covers(a, v) ensures !InSomeArea(s.areas, v) {
      forall i | 0 <= i < |s.areas| ensures !Covers(s.areas[i], v) {
        assert SameShape(user.areas[i], s.areas[i]);
      }
    }
  }

  /** After the next area has been pushed, none of its pages is copied yet. */
  lemma AreaBegun(ph0: Phys, user: Space, ph: Phys, s: Space, ph': Phys, s': Space, tramp: nat)
    requires Copying(ph0, user, ph, s, VPN_LIMIT, tramp) && |s.areas| < |user.areas|
    requires Pushed(ph, s, ph', s', user.areas[|s.areas|].(frames := map[]), None, tramp)
    ensures Copying(ph0, user, ph', s', user.areas[|s.areas|].start, tramp) && |s'.areas| == |s.areas| + 1
  {
    hide TableOk, AreasOk, FrameAt, SpaceGrown, AreaLoaded, DataFrames, Owned, Built;
    BuiltThenGrown(ph0, ph, s, ph', s', tramp);
    assert forall i | 0 <= i < |s.areas| :: s'.areas[i] == s'.areas[..|s.areas|][i] == s.areas[i];
    forall i, v: nat | 0 <= i < |s'.areas| && Covers(user.areas[i], v)
      && (i == |s'.areas| - 1 ==> v < user.areas[|s.areas|].start)
      ensures PageCopied(ph0.mem, ph'.mem, user.areas[i], s'.areas[i], v)
    {
      assert i < |s.areas|;
      BelowTop(user, tramp, i, v);
      assert PageCopied(ph0.mem, ph.mem, user.areas[i], s.areas[i], v);
      KeptData(ph0, ph, s, ph', s', tramp, i, v);
    }
  }

  lemma BelowTop(user: Space, tramp: nat, i: nat, v: nat)
    requires AreasOk(user, tramp) && i < |user.areas| && Covers(user.areas[i], v)
    ensures v < VPN_LIMIT
  {
    assert AreaShape(user.areas[i]);
  }

  lemma KeptData(ph0: Phys, ph: Phys, s: Space, ph': Phys, s': Space, tramp: nat, i: nat, v: nat)
    requires Built(ph0, ph, s, tramp) && Owned(s) !! ph.free && SpaceGrown(ph, s, ph', s')
    requires i < |s.areas| && v in s.areas[i].frames
    ensures FrameAt(ph'.mem, s.areas[i].frames[v]) == FrameAt(ph.mem, s.areas[i].frames[v])
  {
    AreasParts(s, tramp);
    hide SpaceOk, DataFrames, FrameAt, SpaceGrown;
  }

  /** A page of a framed area has one frame, and the software walk finds it. */
  lemma FramedPage(mem: Memory, s: Space, tramp: nat, i: nat, v: nat)
    requires SpaceOk(mem, s, tramp) && i < |s.areas| && s.areas[i].kind.Framed? && Covers(s.areas[i], v)
    ensures v in s.areas[i].frames && s.areas[i].frames[v] in Owned(s) && s.areas[i].frames[v] !in s.table.roles
    ensures Translate(mem, s.table.root, v) == Some(LeafPte(s.areas[i].frames[v], s.areas[i].perm))
    ensures PtePpn(LeafPte(s.areas[i].frames[v], s.areas[i].perm)) == s.areas[i].frames[v]
  {
    hide TableOk, AreasOk, DataFrames, LeafPte, PtePpn, Translate;
    FramedPages(s, tramp, i);
    PageTranslates(mem, s, tramp, i, v);
  }

  /** Writing to a data frame of the new space keeps it a new space. */
  lemma BuiltThenWritten(ph0: Phys, ph: Phys, s: Space, tramp: nat, dst: nat, f: Frame)
    requires Built(ph0, ph, s, tramp) && dst in Owned(s) && dst !in s.table.roles
    ensures Built(ph0, ph.(mem := ph.mem[dst := f]), s, tramp)
  {
    hide AreasOk, TableOk, FrameAt, Owned;
    WriteElsewhere(ph.mem, s.table, dst, f);
    WriteRead(ph.mem, dst, f);
    forall p: nat | p !in Owned(s) ensures FrameAt(ph0.mem, p) == FrameAt(ph.mem[dst := f], p) {
      assert FrameAt(ph0.mem, p) == FrameAt(ph.mem, p);
    }
  }

  lemma OtherPageKept(ph0: Phys, user: Space, ph: Phys, s: Space, vpn: nat, tramp: nat, f: Frame, i: nat, v: nat)
    requires Copying(ph0, user, ph, s, vpn, tramp) && |s.areas| > 0 && vpn in s.areas[|s.areas| - 1].frames
    requires i < |s.areas| && (i != |s.areas| - 1 || v != vpn)
    requires PageCopied(ph0.mem, ph.mem, user.areas[i], s.areas[i], v)
    ensures PageCopied(ph0.mem, ph.mem[s.areas[|s.areas| - 1].frames[vpn] := f], user.areas[i], s.areas[i], v)
  {
    hide AreasOk, TableOk, FrameAt, Owned, DataFrames;
    AreasParts(s, tramp);
    WriteRead(ph.mem, s.areas[|s.areas| - 1].frames[vpn], f);
  }

  lemma ThisPageCopied(mem0: Memory, mem: Memory, a: MapArea, a': MapArea, vpn: nat)
    requires vpn in a.frames && vpn in a'.frames && FrameAt(mem0, a.frames[vpn]) == FrameAt(mem, a.frames[vpn])
    ensures PageCopied(mem0, mem[a'.frames[vpn] := FrameAt(mem, a.frames[vpn])], a, a', vpn)
  {
    WriteRead(mem, a'.frames[vpn], FrameAt(mem, a.frames[vpn]));
  }

  /** Copying page `vpn` from area `a` of the original to the last area `a'` of the copy. */
  lemma PageStep(ph0: Phys, user: Space, ph: Phys, s: Space, vpn: nat, tramp: nat, a: MapArea, a': MapArea)
    requires 0 < |s.areas| <= |user.areas| && a == user.areas[|s.areas| - 1] && a' == s.areas[|s.areas| - 1]
    requires Copying(ph0, user, ph, s, vpn, tramp)
    requires vpn in a.frames && a.frames[vpn] in Owned(user)
    requires vpn in a'.frames && a'.frames[vpn] in Owned(s) && a'.frames[vpn] !in s.table.roles
    ensures Copying(ph0, user, ph.(mem := ph.mem[a'.frames[vpn] := FrameAt(ph.mem, a.frames[vpn])]), s, vpn + 1, tramp)
  {
    hide AreasOk, TableOk, DataFrames, FrameAt, Owned, Built;
    var n := |s.areas| - 1;
    UserUnchanged(ph0, user, ph, s, vpn, tramp);
    var dst, f := a'.frames[vpn], FrameAt(ph.mem, a.frames[vpn]);
    BuiltThenWritten(ph0, ph, s, tramp, dst, f);
    hide PageCopied;
    ThisPageCopied(ph0.mem, ph.mem, a, a', vpn);
    forall i, v: nat | 0 <= i < |s.areas| && Covers(user.areas[i], v) && (i == n ==> v < vpn + 1)
      ensures PageCopied(ph0.mem, ph.mem[dst := f], user.areas[i], s.areas[i], v)
    {
      if i != n || v != vpn {
        OtherPageKept(ph0, user, ph, s, vpn, tramp, f, i, v);
      }
    }
  }

  /** `MemorySet::from_existed_user`. Null stands for the panic when memory runs out. */
  method FromExistedUser(ram: Ram, user: MemorySet, tramp: nat) returns (ms: MemorySet?)
    requires user.Valid(ram, tramp) && AllFramed(user.areas) && tramp < TWO_44
    modifies ram, ram.frames
    ensures ram.Valid() && ram.Pool() == old(ram.Pool())
    ensures ms == null ==> ram.View().free == {}
    ensures ms != null ==> fresh(ms) && fresh(ms.table) && ms.Valid(ram, tramp)
    ensures ms != null ==> Copied(old(ram.View()), old(user.View()), ram.View(), ms.View(), tramp)
    ensures Spent(old(ram.View().free), ram.View().free, 3 + AreasCost(user.areas))
  {
    hide AreasOk, TableOk, DataFrames, FrameAt, LeafPte, PtePpn, Translate, Owned, Built, Pushed, PageCopied, Spent,
         AreasCost, AreaCost, StackFrameAllocator.Free, StackFrameAllocator.Valid, StackFrameAllocator.Pool;
    ghost var ph0, u := ram.View(), user.View();
    ms := MemorySet.NewWithTrampoline(ram, tramp);
    SpentMore(ph0.free, ram.View().free, 3, 3 + AreasCost(u.areas));
    if ms == null {
      return;
    }
    assert u.areas[..0] == [];
    var i := 0;
    while i < |user.areas|
      invariant 0 <= i <= |user.areas| && |ms.areas| == i && fresh(ms) && fresh(ms.table)
      invariant ram.Valid() && ram.Pool() == old(ram.Pool()) && user.View() == u
      invariant Copying(ph0, u, ram.View(), ms.View(), VPN_LIMIT, tramp)
      invariant Spent(ph0.free, ram.View().free, 3 + AreasCost(u.areas[..i]))
    {
      var area := user.areas[i];
      ghost var ph, s := ram.View(), ms.View();
      NextAreaApart(ph0, u, ph, s, VPN_LIMIT, tramp);
      var ok := ms.Push(ram, MapArea(area.start, area.end, map[], area.kind, area.perm), None, tramp);
      CostOfNext(ph0.free, ph.free, ram.View().free, u.areas, i);
      if !ok {
        return null;
      }
      AreaBegun(ph0, u, ph, s, ram.View(), ms.View(), tramp);
      i := i + 1;
      var vpn := area.start;
      while vpn < area.end
        invariant area.start <= vpn <= area.end && |ms.areas| == i
        invariant ram.Valid() && ram.Pool() == old(ram.Pool()) && user.View() == u
        invariant Copying(ph0, u, ram.View(), ms.View(), vpn, tramp)
        invariant Spent(ph0.free, ram.View().free, 3 + AreasCost(u.areas[..i]))
      {
        ghost var ph1, s1 := ram.View(), ms.View();
        UserUnchanged(ph0, u, ph1, s1, vpn, tramp);
        FramedPage(ram.mem, u, tramp, i - 1, vpn);
        FramedPage(ram.mem, s1, tramp, i - 1, vpn);
        PageStep(ph0, u, ph1, s1, vpn, tramp, u.areas[i - 1], s1.areas[i - 1]);
        var srcPte := user.table.TranslateIn(ram, vpn);
        var dstPte := ms.table.TranslateIn(ram, vpn);
        var src, dst := PtePpn(srcPte.value), PtePpn(dstPte.value);
        ram.mem := ram.mem[dst := FrameAt(ram.mem, src)];
        vpn := vpn + 1;
      }
      LastAreaDone(ph0, u, ram.View(), ms.View(), vpn, tramp);
    }
    AllDone(ph0, u, ram.View(), ms.View(), tramp);
    assert u.areas[..i] == u.areas;
  }

  lemma LastAreaDone(ph0: Phys, user: Space, ph: Phys, s: Space, vpn: nat, tramp: nat)
    requires Copying(ph0, user, ph, s, vpn, tramp) && |s.areas| > 0 && vpn >= s.areas[|s.areas| - 1].end
    ensures Copying(ph0, user, ph, s, VPN_LIMIT, tramp)
  {
    hide SpaceOk, Built, PageCopied;
  }

  lemma AllDone(ph0: Phys, user: Space, ph: Phys, s: Space, tramp: nat)
    requires Copying(ph0, user, ph, s, VPN_LIMIT, tramp) && |s.areas| == |user.areas|
    ensures Copied(ph0, user, ph, s, tramp)
  {
    hide TableOk, AreasOk, Built, PageCopied;
    forall i, v: nat | 0 <= i < |s.areas| && Covers(user.areas[i], v)
      ensures PageCopied(ph0.mem, ph.mem, user.areas[i], s.areas[i], v)
    {
      BelowTop(user, tramp, i, v);
    }
  }
}
