/** What a three-level page table stored in physical memory means (os/src/mm/page_table.rs).
    The nodes live in the frames of memory; `Table` names the frames a table holds, the place of
    each node in the tree, and the flat map from page numbers to leaf entries that it stands for. */
module TableModel {
  import opened Address
  import opened PhysicalMemory
  import opened PageTableEntries
  import opened FrameAllocation

  /** The place of a node: the root, or the indexes that lead to it from the root. */
  datatype Role = Root | Mid(i: nat) | Low(i: nat, j: nat)

  function ChildRole(r: Role, k: nat): Role
    requires !r.Low?
  {
    match r case Root => Mid(k) case Mid(i) => Low(i, k)
  }

  /** `root` and `frames` are the fields of the source; `roles` and `flat` say what they mean. */
  datatype Table = Table(root: nat, frames: seq<nat>, roles: map<nat, Role>, flat: map<nat, nat>)

  /** `find_pte`: the node and the index of the leaf entry of a page, if both inner entries are valid.
      The leaf entry itself need not be valid. */
  function FindPte(mem: Memory, root: nat, vpn: nat): (r: Option<(nat, nat)>)
    ensures r.Some? ==> r.value.1 < 512
  {
    var e0 := Entry(mem, root, Index(vpn, 0));
    if !IsValid(e0) then None else
      var e1 := Entry(mem, PtePpn(e0), Index(vpn, 1));
      if !IsValid(e1) then None else Some((PtePpn(e1), Index(vpn, 2)))
  }

  /** `translate`: a copy of the leaf entry, valid or not. */
  function Translate(mem: Memory, root: nat, vpn: nat): Option<nat> {
    match FindPte(mem, root, vpn)
    case None => None
    case Some((n, k)) => Some(Entry(mem, n, k))
  }

  /** The leaf entry of a page, an empty entry when the walk does not reach one. */
  function EntryOf(mem: Memory, root: nat, vpn: nat): nat {
    match Translate(mem, root, vpn) case None => 0 case Some(e) => e
  }

  function FlatBits(flat: map<nat, nat>, vpn: nat): nat {
    if vpn in flat then flat[vpn] else 0
  }

  /** Node `c` hangs where its role says. */
  ghost predicate Reached(mem: Memory, root: nat, c: nat, role: Role) {
    match role
    case Root => c == root
    case Mid(i) => i < 512 && Entry(mem, root, i) == NodePte(c)
    case Low(i, j) =>
      i < 512 && j < 512 && IsValid(Entry(mem, root, i))
      && Entry(mem, PtePpn(Entry(mem, root, i)), j) == NodePte(c)
  }

  /** Every valid entry of an inner node is a bare pointer to the child that belongs there. */
  ghost predicate PointsToChild(mem: Memory, t: Table, p: nat, k: nat)
    requires p in t.roles && !t.roles[p].Low? && k < 512
  {
    IsValid(Entry(mem, p, k)) ==>
      var c := PtePpn(Entry(mem, p, k));
      c in t.roles && t.roles[c] == ChildRole(t.roles[p], k) && Entry(mem, p, k) == NodePte(c)
  }

  ghost predicate NodesOk(mem: Memory, t: Table) {
    && t.root in t.roles && t.roles[t.root] == Root
    && (forall p | p in t.roles :: p < TWO_44)
    && (forall p {:trigger Reached(mem, t.root, p, t.roles[p])} | p in t.roles :: Reached(mem, t.root, p, t.roles[p]))
    && (forall p, k: nat | p in t.roles && !t.roles[p].Low? && k < 512 :: PointsToChild(mem, t, p, k))
  }

  ghost predicate FlatOk(mem: Memory, t: Table) {
    && (forall v | v in t.flat :: v < VPN_LIMIT && IsValid(t.flat[v]) && t.flat[v] < TWO_64)
    && (forall v: nat | v < VPN_LIMIT :: EntryOf(mem, t.root, v) == FlatBits(t.flat, v))
  }

  ghost predicate FramesOk(t: Table) {
    && Elements(t.frames) == t.roles.Keys
    && (forall i, j :: 0 <= i < j < |t.frames| ==> t.frames[i] != t.frames[j])
  }

  /** The table is a tree of distinct frames, all held in `frames`, and stands for `flat`. */
  ghost predicate TableOk(mem: Memory, t: Table) {
    NodesOk(mem, t) && FlatOk(mem, t) && FramesOk(t)
  }

  /** Role of the node that level `i` of the walk for `vpn` visits. */
  function RoleAt(vpn: nat, i: nat): Role
    requires i < 3
  {
    if i == 0 then Root else if i == 1 then Mid(Index(vpn, 0)) else Low(Index(vpn, 0), Index(vpn, 1))
  }

  /** The nodes that a walk visits have the roles of their levels. */
  lemma WalkRoles(mem: Memory, t: Table, vpn: nat)
    requires NodesOk(mem, t)
    ensures var e0 := Entry(mem, t.root, Index(vpn, 0));
            IsValid(e0) ==> PtePpn(e0) in t.roles && t.roles[PtePpn(e0)] == RoleAt(vpn, 1)
                            && e0 == NodePte(PtePpn(e0))
    ensures FindPte(mem, t.root, vpn).Some? ==>
              var n := FindPte(mem, t.root, vpn).value.0;
              n in t.roles && t.roles[n] == RoleAt(vpn, 2)
  {
    hide PtePpn, NodePte, IsValid, Entry, Index;
    assert PointsToChild(mem, t, t.root, Index(vpn, 0));
    var e0 := Entry(mem, t.root, Index(vpn, 0));
    if IsValid(e0) {
      var n1 := PtePpn(e0);
      assert PointsToChild(mem, t, n1, Index(vpn, 1));
    }
  }

  /** A table depends on the frames of its nodes only. */
  lemma TableFrame(mem: Memory, mem': Memory, t: Table)
    requires TableOk(mem, t) && SameOn(mem, mem', t.roles.Keys)
    ensures TableOk(mem', t)
    ensures forall v: nat :: FindPte(mem', t.root, v) == FindPte(mem, t.root, v)
    ensures forall v: nat :: Translate(mem', t.root, v) == Translate(mem, t.root, v)
  {
    hide PtePpn, NodePte, IsValid, Word, Index;
    forall v: nat
      ensures FindPte(mem', t.root, v) == FindPte(mem, t.root, v)
      ensures Translate(mem', t.root, v) == Translate(mem, t.root, v)
    {
      WalkRoles(mem, t, v);
    }
    assert FlatOk(mem', t) by {
      forall v: nat | v < VPN_LIMIT ensures EntryOf(mem', t.root, v) == FlatBits(t.flat, v) {
        assert EntryOf(mem, t.root, v) == FlatBits(t.flat, v);
      }
    }
    forall p | p in t.roles ensures Reached(mem', t.root, p, t.roles[p]) {
      assert Reached(mem, t.root, p, t.roles[p]);
      if t.roles[p].Low? {
        assert PointsToChild(mem, t, t.root, t.roles[p].i);
      }
    }
    forall p, k: nat | p in t.roles && !t.roles[p].Low? && k < 512 ensures PointsToChild(mem', t, p, k) {
      assert PointsToChild(mem, t, p, k);
    }
  }

  // ---- find_pte_create: hanging a new node into the tree ----

  function AddNode(t: Table, p: nat, k: nat, c: nat): Table
    requires p in t.roles && !t.roles[p].Low?
  {
    t.(frames := t.frames + [c], roles := t.roles[c := ChildRole(t.roles[p], k)])
  }

  ghost predicate CanAddNode(mem: Memory, t: Table, p: nat, k: nat, c: nat) {
    && TableOk(mem, t)
    && p in t.roles && !t.roles[p].Low? && k < 512 && !IsValid(Entry(mem, p, k))
    && c !in t.roles && c < TWO_44 && FrameAt(mem, c) == ZeroFrame()
  }

  lemma AddNodeReaches(mem: Memory, t: Table, p: nat, k: nat, c: nat, q: nat)
    requires CanAddNode(mem, t, p, k, c) && (q in t.roles || q == c)
    ensures var mem', t' := SetEntry(mem, p, k, NodePte(c)), AddNode(t, p, k, c);
            Reached(mem', t'.root, q, t'.roles[q])
  {
    SetEntryRead(mem, p, k, NodePte(c));
    hide PtePpn, NodePte, IsValid, Entry, SetEntry, FlatOk, FramesOk;
    if q in t.roles {
      assert Reached(mem, t.root, q, t.roles[q]);
      NodePteFields(q);
      if t.roles[q].Low? {
        assert PointsToChild(mem, t, t.root, t.roles[q].i);
      }
    } else {
      assert Reached(mem, t.root, p, t.roles[p]);
      NodePteFields(p);
    }
  }

  lemma AddNodePoints(mem: Memory, t: Table, p: nat, k: nat, c: nat, q: nat, i: nat)
    requires CanAddNode(mem, t, p, k, c)
    requires q in AddNode(t, p, k, c).roles && !AddNode(t, p, k, c).roles[q].Low? && i < 512
    ensures PointsToChild(SetEntry(mem, p, k, NodePte(c)), AddNode(t, p, k, c), q, i)
  {
    SetEntryRead(mem, p, k, NodePte(c));
    NodePteFields(c);
    NewNodeEmpty(mem, c, i);
    hide PtePpn, NodePte, IsValid, Entry, SetEntry;
    if q != c {
      assert PointsToChild(mem, t, q, i);
    }
  }

  lemma AddNodeKeepsNodes(mem: Memory, t: Table, p: nat, k: nat, c: nat)
    requires CanAddNode(mem, t, p, k, c)
    ensures NodesOk(SetEntry(mem, p, k, NodePte(c)), AddNode(t, p, k, c))
  {
    var mem', t' := SetEntry(mem, p, k, NodePte(c)), AddNode(t, p, k, c);
    hide Reached, PointsToChild, SetEntry, NodePte, Entry;
    forall q | q in t'.roles ensures Reached(mem', t'.root, q, t'.roles[q]) {
      AddNodeReaches(mem, t, p, k, c, q);
    }
    forall q, i: nat | q in t'.roles && !t'.roles[q].Low? && i < 512 ensures PointsToChild(mem', t', q, i) {
      AddNodePoints(mem, t, p, k, c, q, i);
    }
  }

  lemma NewNodeEmpty(mem: Memory, c: nat, i: nat)
    requires i < 512 && FrameAt(mem, c) == ZeroFrame()
    ensures Entry(mem, c, i) == 0 && !IsValid(Entry(mem, c, i))
  {
    hide Word;
    ZeroFrameWords(i);
  }

  lemma AddNodeKeepsEntry(mem: Memory, t: Table, p: nat, k: nat, c: nat, vpn: nat)
    requires CanAddNode(mem, t, p, k, c)
    ensures EntryOf(SetEntry(mem, p, k, NodePte(c)), t.root, vpn) == EntryOf(mem, t.root, vpn)
  {
    var mem' := SetEntry(mem, p, k, NodePte(c));
    SetEntryRead(mem, p, k, NodePte(c));
    NodePteFields(c);
    WalkRoles(mem, t, vpn);
    NewNodeEmpty(mem, c, Index(vpn, 1));
    NewNodeEmpty(mem, c, Index(vpn, 2));
    hide PtePpn, NodePte, IsValid, Entry, SetEntry, Index;
  }

  lemma AddNodeKeepsFlat(mem: Memory, t: Table, p: nat, k: nat, c: nat)
    requires CanAddNode(mem, t, p, k, c)
    ensures FlatOk(SetEntry(mem, p, k, NodePte(c)), AddNode(t, p, k, c))
  {
    var mem', t' := SetEntry(mem, p, k, NodePte(c)), AddNode(t, p, k, c);
    hide EntryOf, SetEntry, NodesOk, NodePte, Entry, FramesOk, FrameAt, ZeroFrame, IsValid;
    forall v: nat | v < VPN_LIMIT ensures EntryOf(mem', t'.root, v) == FlatBits(t'.flat, v) {
      AddNodeKeepsEntry(mem, t, p, k, c, v);
    }
  }

  lemma AddNodeKeepsFrames(t: Table, p: nat, k: nat, c: nat)
    requires FramesOk(t) && p in t.roles && !t.roles[p].Low? && c !in t.roles
    ensures FramesOk(AddNode(t, p, k, c))
  {
    assert Elements(t.frames + [c]) == Elements(t.frames) + {c};
  }

  /** A new empty node changes no translation. */
  lemma AddNodeKeepsTable(mem: Memory, t: Table, p: nat, k: nat, c: nat)
    requires CanAddNode(mem, t, p, k, c)
    ensures TableOk(SetEntry(mem, p, k, NodePte(c)), AddNode(t, p, k, c))
  {
    hide SetEntry, NodesOk, NodePte, FlatOk, FramesOk, Entry, FrameAt, ZeroFrame;
    AddNodeKeepsNodes(mem, t, p, k, c);
    AddNodeKeepsFlat(mem, t, p, k, c);
    AddNodeKeepsFrames(t, p, k, c);
  }

  // ---- map and unmap: writing a leaf entry ----

  function SetLeaf(t: Table, vpn: nat, bits: nat): Table {
    t.(flat := if IsValid(bits) then t.flat[vpn := bits] else t.flat - {vpn})
  }

  ghost predicate CanSetLeaf(mem: Memory, t: Table, vpn: nat, bits: nat) {
    TableOk(mem, t) && vpn < VPN_LIMIT && FindPte(mem, t.root, vpn).Some? && bits < TWO_64
  }

  function WriteLeaf(mem: Memory, t: Table, vpn: nat, bits: nat): Memory
    requires FindPte(mem, t.root, vpn).Some? && bits < TWO_64
  {
    var (n, k) := FindPte(mem, t.root, vpn).value;
    SetEntry(mem, n, k, bits)
  }

  lemma SetLeafKeepsNodes(mem: Memory, t: Table, vpn: nat, bits: nat)
    requires CanSetLeaf(mem, t, vpn, bits)
    ensures NodesOk(WriteLeaf(mem, t, vpn, bits), SetLeaf(t, vpn, bits))
  {
    var mem', t' := WriteLeaf(mem, t, vpn, bits), SetLeaf(t, vpn, bits);
    var (n, k) := FindPte(mem, t.root, vpn).value;
    SetEntryRead(mem, n, k, bits);
    WalkRoles(mem, t, vpn);
    hide PtePpn, NodePte, IsValid, Entry, SetEntry, Index, FindPte;
    forall q | q in t'.roles ensures Reached(mem', t'.root, q, t'.roles[q]) {
      assert Reached(mem, t.root, q, t.roles[q]);
      if t.roles[q].Low? {
        assert PointsToChild(mem, t, t.root, t.roles[q].i);
      }
    }
    forall q, i: nat | q in t'.roles && !t'.roles[q].Low? && i < 512 ensures PointsToChild(mem', t', q, i) {
      assert PointsToChild(mem, t, q, i);
    }
  }

  /** One leaf write changes the entry of its own page and of no other page. */
  lemma SetLeafEntry(mem: Memory, t: Table, vpn: nat, bits: nat, v: nat)
    requires CanSetLeaf(mem, t, vpn, bits) && v < VPN_LIMIT
    ensures FindPte(WriteLeaf(mem, t, vpn, bits), t.root, v) == FindPte(mem, t.root, v)
    ensures EntryOf(WriteLeaf(mem, t, vpn, bits), t.root, v) == if v == vpn then bits else EntryOf(mem, t.root, v)
  {
    var (n, k) := FindPte(mem, t.root, vpn).value;
    SetEntryRead(mem, n, k, bits);
    WalkRoles(mem, t, vpn);
    WalkRoles(mem, t, v);
    if Index(v, 0) == Index(vpn, 0) && Index(v, 1) == Index(vpn, 1) && Index(v, 2) == Index(vpn, 2) {
      IndexesDetermine(v, vpn);
    }
    hide PtePpn, NodePte, IsValid, Entry, SetEntry, Index;
  }

  lemma SetLeafKeepsTable(mem: Memory, t: Table, vpn: nat, bits: nat)
    requires CanSetLeaf(mem, t, vpn, bits) && (IsValid(bits) || bits == 0)
    ensures TableOk(WriteLeaf(mem, t, vpn, bits), SetLeaf(t, vpn, bits))
  {
    var mem', t' := WriteLeaf(mem, t, vpn, bits), SetLeaf(t, vpn, bits);
    SetLeafKeepsNodes(mem, t, vpn, bits);
    hide EntryOf, WriteLeaf, NodesOk;
    forall v: nat | v < VPN_LIMIT ensures EntryOf(mem', t'.root, v) == FlatBits(t'.flat, v) {
      SetLeafEntry(mem, t, vpn, bits, v);
    }
  }

  // ---- consequences ----

  /** The software walk finds a valid entry exactly for the pages of the flat map, and then the
      entry recorded there. For other pages it finds nothing or an empty entry. */
  lemma TranslateRefinesFlat(mem: Memory, t: Table, vpn: nat)
    requires TableOk(mem, t) && vpn < VPN_LIMIT
    ensures vpn in t.flat <==> Translate(mem, t.root, vpn).Some? && IsValid(Translate(mem, t.root, vpn).value)
    ensures vpn in t.flat ==> Translate(mem, t.root, vpn) == Some(t.flat[vpn])
    ensures vpn !in t.flat ==> Translate(mem, t.root, vpn) in {None, Some(0)}
  {
    hide FindPte, NodesOk, FramesOk, IsValid;
    assert EntryOf(mem, t.root, vpn) == FlatBits(t.flat, vpn);
    assert !IsValid(0) by { EmptyIsInvalid(); }
  }

  lemma EmptyIsInvalid()
    ensures !IsValid(0)
  {}

  /** No aliasing: two walks that meet in a node agree on all the indexes used so far. */
  lemma NodesAreDistinct(mem: Memory, t: Table, p: nat, q: nat)
    requires NodesOk(mem, t) && p in t.roles && q in t.roles
    ensures p == q <==> t.roles[p] == t.roles[q]
  {
    assert Reached(mem, t.root, p, t.roles[p]);
    assert Reached(mem, t.root, q, t.roles[q]);
    NodePteFields(p);
    NodePteFields(q);
    hide PtePpn, NodePte, IsValid, Entry;
  }
}
