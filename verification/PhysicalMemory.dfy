/** Physical memory: page frames of 4096 bytes. Table entries and trap-context registers are
    the little-endian 64-bit words of a frame. */
module PhysicalMemory {
  import opened Address

  type Byte = b: nat | b < 256

  type Frame = f: seq<Byte> | |f| == 4096 witness ZeroFrame()

  /** Frames by physical page number; a frame that was never written reads as zeros. */
  type Memory = map<nat, Frame>

  function ZeroFrame(): (f: seq<Byte>)
    ensures |f| == 4096
  {
    seq(4096, (_: nat) => 0 as Byte)
  }

  function FrameAt(mem: Memory, p: nat): Frame {
    if p in mem then mem[p] else ZeroFrame()
  }

  /** The two memories hold the same bytes in every frame of `ps`. */
  ghost predicate SameOn(m: Memory, m': Memory, ps: set<nat>) {
    forall p | p in ps :: FrameAt(m, p) == FrameAt(m', p)
  }

  /** The two memories hold the same bytes in every frame outside `ps`. */
  ghost predicate SameOff(m: Memory, m': Memory, ps: set<nat>) {
    forall p: nat {:trigger FrameAt(m', p)} | p !in ps :: FrameAt(m, p) == FrameAt(m', p)
  }

  /** The number whose digits to base 256 are the bytes, the lowest first. */
  function LittleEndian(b: seq<Byte>): nat {
    if b == [] then 0 else b[0] + 0x100 * LittleEndian(b[1..])
  }

  function Pow256(n: nat): nat { if n == 0 then 1 else 0x100 * Pow256(n - 1) }

  /** The `n` lowest bytes of a number. */
  function Bytes(w: nat, n: nat): (b: seq<Byte>)
    ensures |b| == n
  {
    if n == 0 then [] else [w % 256] + Bytes(w / 256, n - 1)
  }

  lemma {:induction false} LittleEndianBound(b: seq<Byte>)
    ensures LittleEndian(b) < Pow256(|b|)
  {
    if b != [] {
      LittleEndianBound(b[1..]);
    }
  }

  /** Storing a number as bytes and reading it back gives the number. */
  lemma {:induction false} BytesRoundTrip(w: nat, n: nat)
    requires w < Pow256(n)
    ensures LittleEndian(Bytes(w, n)) == w
  {
    if n > 0 {
      BytesRoundTrip(w / 256, n - 1);
      assert Bytes(w, n)[1..] == Bytes(w / 256, n - 1);
    }
  }

  lemma Pow256Values()
    ensures Pow256(4) == 0x1_0000_0000 && Pow256(8) == TWO_64
  {
    assert Pow256(2) == 0x1_0000 && Pow256(4) == 0x1_0000 * Pow256(2);
    assert Pow256(6) == 0x1_0000 * Pow256(4) && Pow256(8) == 0x1_0000 * Pow256(6);
  }

  /** The low bytes and the high bytes of a number. */
  lemma {:induction false} LittleEndianSplit(a: seq<Byte>, b: seq<Byte>)
    ensures LittleEndian(a + b) == LittleEndian(a) + Pow256(|a|) * LittleEndian(b)
  {
    if a == [] {
      assert a + b == b;
    } else {
      LittleEndianSplit(a[1..], b);
      assert (a + b)[1..] == a[1..] + b;
      assert Pow256(|a|) * LittleEndian(b) == 0x100 * (Pow256(|a| - 1) * LittleEndian(b));
    }
  }

  /** The 32-bit number with these bytes, the lowest first. */
  function Four(b0: nat, b1: nat, b2: nat, b3: nat): nat { b0 + 0x100 * b1 + 0x1_0000 * b2 + 0x100_0000 * b3 }

  lemma FourBytes(w: nat)
    requires w < 0x1_0000_0000
    ensures var b := Bytes(w, 4); Four(b[0], b[1], b[2], b[3]) == w
  {
    hide Four;
    Pow256Values();
    BytesRoundTrip(w, 4);
    FourDigits(Bytes(w, 4));
  }

  function WordOfBytes(b: seq<Byte>): (w: nat)
    requires |b| == 8
    ensures w < TWO_64
  {
    LittleEndianBound(b);
    Pow256Values();
    LittleEndian(b)
  }

  /** Storing a 64-bit word as bytes and reading it back gives the word. */
  lemma WordRoundTrip(w: nat)
    requires w < TWO_64
    ensures WordOfBytes(Bytes(w, 8)) == w
  {
    Pow256Values();
    BytesRoundTrip(w, 8);
  }

  /** The `i`-th 64-bit word of a frame. */
  function Word(f: Frame, i: nat): (w: nat)
    requires i < 512
    ensures w < TWO_64
  {
    WordOfBytes(f[8 * i..8 * i + 8])
  }

  /** A word of memory: its bytes with the lowest first. */
  lemma WordInBytes(f: Frame, i: nat)
    requires i < 512
    ensures Word(f, i) == Four(f[8 * i], f[8 * i + 1], f[8 * i + 2], f[8 * i + 3])
                          + 0x1_0000_0000 * Four(f[8 * i + 4], f[8 * i + 5], f[8 * i + 6], f[8 * i + 7])
  {
    var b := f[8 * i..8 * i + 8];
    hide Four;
    FourDigits(b[..4]);
    FourDigits(b[4..]);
    LittleEndianSplit(b[..4], b[4..]);
    Pow256Values();
    assert b == b[..4] + b[4..];
  }

  lemma FourDigits(b: seq<Byte>)
    requires |b| == 4
    ensures LittleEndian(b) == Four(b[0], b[1], b[2], b[3])
  {
    assert b[1..][1..] == b[2..] && b[2..][1..] == b[3..] && b[3..][1..] == [];
    assert LittleEndian(b[3..]) == b[3];
    assert LittleEndian(b[2..]) == b[2] + 0x100 * LittleEndian(b[3..]);
    assert LittleEndian(b[1..]) == b[1] + 0x100 * LittleEndian(b[2..]);
    assert LittleEndian(b) == b[0] + 0x100 * LittleEndian(b[1..]);
  }

  function PutWord(f: Frame, i: nat, w: nat): Frame
    requires i < 512 && w < TWO_64
  {
    f[..8 * i] + Bytes(w, 8) + f[8 * i + 8..]
  }

  function PutByte(f: Frame, off: nat, b: Byte): Frame
    requires off < 4096
  {
    f[off := b]
  }

  lemma PutWordRead(f: Frame, i: nat, w: nat, j: nat)
    requires i < 512 && j < 512 && w < TWO_64
    ensures Word(PutWord(f, i, w), j) == if i == j then w else Word(f, j)
  {
    hide WordOfBytes, Bytes;
    var g := PutWord(f, i, w);
    if i == j {
      assert g[8 * i..8 * i + 8] == Bytes(w, 8);
      WordRoundTrip(w);
    } else if j < i {
      assert g[8 * j..8 * j + 8] == f[8 * j..8 * j + 8];
    } else {
      assert g[8 * j..8 * j + 8] == f[8 * j..8 * j + 8];
    }
  }

  lemma {:induction false} ZeroBytes(b: seq<Byte>)
    requires forall k | 0 <= k < |b| :: b[k] == 0
    ensures LittleEndian(b) == 0
  {
    if b != [] {
      ZeroBytes(b[1..]);
    }
  }

  lemma ZeroFrameWords(i: nat)
    requires i < 512
    ensures Word(ZeroFrame(), i) == 0
  {
    ZeroBytes(ZeroFrame()[8 * i..8 * i + 8]);
  }

  /** The `i`-th word of the frame with number `p`. */
  function Entry(mem: Memory, p: nat, i: nat): (w: nat)
    requires i < 512
    ensures w < TWO_64
  {
    Word(FrameAt(mem, p), i)
  }

  function SetEntry(mem: Memory, p: nat, i: nat, w: nat): Memory
    requires i < 512 && w < TWO_64
  {
    mem[p := PutWord(FrameAt(mem, p), i, w)]
  }

  /** Writing one word changes that word and nothing else in memory. */
  lemma SetEntryRead(mem: Memory, p: nat, i: nat, w: nat)
    requires i < 512 && w < TWO_64
    ensures forall q: nat, j: nat | j < 512 ::
              Entry(SetEntry(mem, p, i, w), q, j) == if q == p && j == i then w else Entry(mem, q, j)
    ensures SameOff(mem, SetEntry(mem, p, i, w), {p})
  {
    hide Word, PutWord;
    forall q: nat, j: nat | j < 512
      ensures Entry(SetEntry(mem, p, i, w), q, j) == if q == p && j == i then w else Entry(mem, q, j)
    {
      if q == p {
        PutWordRead(FrameAt(mem, p), i, w, j);
      }
    }
  }
}
