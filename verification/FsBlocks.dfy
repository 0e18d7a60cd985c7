/** Disk blocks of Lab3/xv6-riscv/kernel/fs.c read as bytes, as 32-bit words and as bits. */
module FsBlocks {

  const BSIZE := 1024
  const BPB := 8192            // bits of a bitmap block
  const NINDIRECT := 256       // BSIZE / sizeof(uint)
  const UINT := 0x1_0000_0000

  /** The bytes of a block, as integers. */
  type Block = seq<int>

  ghost predicate IsBlock(b: Block) {
    |b| == BSIZE && forall i :: 0 <= i < BSIZE ==> 0 <= b[i] < 256
  }

  /** memset(bp->data, 0, BSIZE) */
  function ZeroBlock(): (b: Block)
    ensures |b| == BSIZE && forall i :: 0 <= i < BSIZE ==> b[i] == 0
  {
    seq(BSIZE, _ => 0)
  }

  const ZEROS: Block := ZeroBlock()

  // ---- words ----

  /** Word i of a block, least significant byte first. */
  function Word(b: Block, i: int): int
    requires |b| == BSIZE && 0 <= i < NINDIRECT
  {
    b[4 * i] + 256 * b[4 * i + 1] + 65536 * b[4 * i + 2] + 16777216 * b[4 * i + 3]
  }

  function SetWord(b: Block, i: int, v: int): (b': Block)
    requires |b| == BSIZE && 0 <= i < NINDIRECT && 0 <= v < UINT
    ensures |b'| == BSIZE
  {
    b[4 * i := v % 256][4 * i + 1 := v / 256 % 256][4 * i + 2 := v / 65536 % 256][4 * i + 3 := v / 16777216]
  }

  /** A word written is read back, and no other word moves. */
  lemma WordRoundTrip(b: Block, i: int, v: int, j: int)
    requires IsBlock(b) && 0 <= i < NINDIRECT && 0 <= v < UINT && 0 <= j < NINDIRECT
    ensures IsBlock(SetWord(b, i, v))
    ensures Word(SetWord(b, i, v), j) == if j == i then v else Word(b, j)
  {
    Digits(v);
    var b' := SetWord(b, i, v);
    if j == i {
      assert b'[4 * i] == v % 256 && b'[4 * i + 1] == v / 256 % 256;
      assert b'[4 * i + 2] == v / 65536 % 256 && b'[4 * i + 3] == v / 16777216;
    } else {
      assert b'[4 * j] == b[4 * j] && b'[4 * j + 1] == b[4 * j + 1];
      assert b'[4 * j + 2] == b[4 * j + 2] && b'[4 * j + 3] == b[4 * j + 3];
    }
  }

  lemma Digits(v: int)
    requires 0 <= v < UINT
    ensures 0 <= v / 16777216 < 256
    ensures v == v % 256 + 256 * (v / 256 % 256) + 65536 * (v / 65536 % 256) + 16777216 * (v / 16777216)
  {
    assert v / 65536 == v / 256 / 256 && v / 16777216 == v / 65536 / 256;
  }

  lemma ZeroWord(j: int)
    requires 0 <= j < NINDIRECT
    ensures IsBlock(ZEROS) && Word(ZEROS, j) == 0
  {
  }

  // ---- bits ----

  /** Bit k of a byte: (x & (1 << k)) != 0. */
  predicate BitOf(x: int, k: nat)
    decreases k
  {
    if k == 0 then x % 2 == 1 else BitOf(x / 2, k - 1)
  }

  /** x | (1 << k) when `on`, x & ~(1 << k) otherwise. */
  function WithBit(x: int, k: nat, on: bool): int
    decreases k
  {
    if k == 0 then 2 * (x / 2) + (if on then 1 else 0) else 2 * WithBit(x / 2, k - 1, on) + x % 2
  }

  lemma {:induction false} BitRoundTrip(x: int, k: nat, on: bool, j: nat)
    ensures BitOf(WithBit(x, k, on), j) == if j == k then on else BitOf(x, j)
    decreases k
  {
    if k > 0 && j > 0 { BitRoundTrip(x / 2, k - 1, on, j - 1); }
  }

  /** The result is a byte again: b is the number of bits left. */
  lemma {:induction false} WithBitBound(x: int, k: nat, on: bool, b: int)
    requires k < b && 0 <= x < Pow2(b)
    ensures 0 <= WithBit(x, k, on) < Pow2(b)
    decreases k
  {
    if k > 0 { WithBitBound(x / 2, k - 1, on, b - 1); }
  }

  function Pow2(b: int): int { if b <= 0 then 1 else 2 * Pow2(b - 1) }

  predicate Bit(b: Block, i: int)
    requires |b| == BSIZE && 0 <= i < BPB
  {
    BitOf(b[i / 8], i % 8)
  }

  function SetBit(b: Block, i: int, on: bool): (b': Block)
    requires |b| == BSIZE && 0 <= i < BPB
    ensures |b'| == BSIZE
  {
    b[i / 8 := WithBit(b[i / 8], i % 8, on)]
  }

  /** A bit written is read back, and no other bit moves. */
  lemma BlockBitRoundTrip(b: Block, i: int, on: bool, j: int)
    requires IsBlock(b) && 0 <= i < BPB && 0 <= j < BPB
    ensures IsBlock(SetBit(b, i, on))
    ensures Bit(SetBit(b, i, on), j) == if j == i then on else Bit(b, j)
  {
    BitRoundTrip(b[i / 8], i % 8, on, j % 8);
    assert Pow2(8) == 256;
    WithBitBound(b[i / 8], i % 8, on, 8);
  }
}
