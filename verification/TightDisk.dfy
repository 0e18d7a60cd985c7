/** Disks on which a chunk of Lab3/xv6-riscv/kernel/file.c:148-174 logs MAXOPBLOCKS blocks: their free
    blocks lie so that each of the four it allocates has its bit in a bitmap block of its own. */
module TightDisk {
  import DiskLog
  import opened FsBlocks
  import opened Inodes
  import opened InodeSteps
  import opened FsCode

  /** The disk has `size` blocks. File 0 has `off` bytes, which end within its block `first`. Block
      numbers are counted from 8192 * p, a little before the data area. */
  datatype Tight = Tight(size: int, p: int, first: int, off: int)

  const INODES := 94

  ghost predicate Fits(t: Tight) {
    && 3 * BPB < t.size < UINT / 2 && t.p == (t.size / BPB + 8166) / BPB
    && NDIRECT - 3 <= t.first < NDIRECT && t.off / BSIZE == t.first && t.off % BSIZE != 0 && t.off >= 0
  }

  /** The metadata reaches up to block 8192 * p + 63. */
  predicate Laid(t: Tight) { t.size > 0 && 0 <= t.p && t.size / BPB + 38 <= 8192 * t.p + 63 }

  function Sb(t: Tight): Super
    requires Laid(t)
  {
    Super(t.size, INODES, 2, DiskLog.LOGSIZE, 32, 8192 * t.p + 63 - t.size / BPB)
  }

  lemma SbOk(t: Tight)
    requires Fits(t)
    ensures Laid(t) && GoodSuper(Sb(t))
    ensures DataStart(Sb(t)) == 8192 * t.p + 64 && 8192 * t.p + 24576 < t.size
  {
    var k := t.size / BPB;
    assert k >= 3 && (k + 8166) / BPB <= k / BPB + 1;
    if k <= 25 { assert t.p == 0; } else { assert 8192 * t.p <= k + 8166; }
  }

  // ---- who holds which block ----

  /** From number 64 on, these blocks are in use: all of three bitmap blocks but the last of each. */
  predicate Taken(x: int) { x < 24576 && x % 8192 != 8191 }

  /** File 0 has the blocks from 64 on; then files of 269 blocks follow, 31 for each bitmap block. */
  function Start(t: Tight, q: int): int { if q == 0 then 65 + t.first else 8192 * q }

  function FirstOf(t: Tight, i: int): int { Start(t, (i - 1) / 31) + 269 * ((i - 1) % 31) }

  function Count(t: Tight, i: int): int {
    var left := 8192 * ((i - 1) / 31) + 8191 - FirstOf(t, i);
    if left < NSLOT then left else NSLOT
  }

  /** The block in place k of inode i, or -1. */
  function BlockOf(t: Tight, i: int, k: int): int {
    if i == 0 then (if k <= t.first then 64 + k else -1)
    else if k < Count(t, i) then FirstOf(t, i) + k else -1
  }

  function SlotOf(t: Tight, x: int): Slot {
    if x < 65 + t.first then Slot(0, x - 64)
    else
      var d := x - Start(t, x / 8192);
      Slot(1 + 31 * (x / 8192) + d / 269, d % 269)
  }

  lemma CountBounds(t: Tight, i: int)
    requires 9 <= t.first < 12 && 1 <= i < INODES
    ensures 12 < Count(t, i) <= NSLOT && 65 + t.first <= FirstOf(t, i)
    ensures FirstOf(t, i) + Count(t, i) <= 8192 * ((i - 1) / 31) + 8191
  {
  }

  lemma BlockThenSlot(t: Tight, i: int, k: int)
    requires 9 <= t.first < 12 && 0 <= i < INODES && 0 <= k < NSLOT && BlockOf(t, i, k) >= 0
    ensures 64 <= BlockOf(t, i, k) && Taken(BlockOf(t, i, k)) && SlotOf(t, BlockOf(t, i, k)) == Slot(i, k)
  {
    var x := BlockOf(t, i, k);
    if i > 0 {
      CountBounds(t, i);
      var q, j := (i - 1) / 31, (i - 1) % 31;
      assert x / 8192 == q;
      assert x - Start(t, q) == 269 * j + k;
      assert (269 * j + k) / 269 == j && (269 * j + k) % 269 == k;
    }
  }

  lemma SlotThenBlock(t: Tight, x: int)
    requires 9 <= t.first < 12 && 64 <= x && Taken(x)
    ensures var s := SlotOf(t, x); 0 <= s.ino < INODES && 0 <= s.idx < NSLOT && BlockOf(t, s.ino, s.idx) == x
  {
    if x >= 65 + t.first {
      var q := x / 8192;
      var d := x - Start(t, q);
      assert 0 <= d / 269 <= 30;
      var i := 1 + 31 * q + d / 269;
      assert (i - 1) / 31 == q && (i - 1) % 31 == d / 269;
    }
  }

  // ---- the blocks of the disk ----

  function Num(t: Tight, i: int, k: int): int { if BlockOf(t, i, k) < 0 then 0 else 8192 * t.p + BlockOf(t, i, k) }

  function Digit(v: int, j: int): int {
    if j == 0 then v % 256 else if j == 1 then v / 256 % 256 else if j == 2 then v / 65536 % 256 else v / 16777216
  }

  function Indirect(t: Tight, i: int): (b: Block)
    ensures |b| == BSIZE && forall x :: 0 <= x < BSIZE ==> b[x] == Digit(Num(t, i, NDIRECT + 1 + x / 4), x % 4)
  {
    seq(BSIZE, x => Digit(Num(t, i, NDIRECT + 1 + x / 4), x % 4))
  }

  /** A bitmap block with all bits set, but for the last if `gap`. */
  function Marks(gap: bool): (b: Block)
    ensures |b| == BSIZE && forall x :: 0 <= x < BSIZE ==> b[x] == if gap && x == BSIZE - 1 then 127 else 255
  {
    seq(BSIZE, x => if gap && x == BSIZE - 1 then 127 else 255)
  }

  /** Bitmap block number m. */
  function Bitmap(t: Tight, m: int): Block { if m < t.p then Marks(false) else if m < t.p + 3 then Marks(true) else ZEROS }

  function DiskAt(t: Tight, a: int): Block
    requires Laid(t)
  {
    if Sb(t).bmapstart <= a < 8192 * t.p + 64 then Bitmap(t, a - Sb(t).bmapstart) else LocalBlock(t, a - 8192 * t.p)
  }

  function LocalBlock(t: Tight, x: int): Block {
    if 65 + t.first <= x && Taken(x) && SlotOf(t, x).idx == NDIRECT then Indirect(t, SlotOf(t, x).ino) else ZEROS
  }

  function InodeOf(t: Tight, i: int): (ip: Inode)
    requires 9 <= t.first < 12 && 0 <= i < INODES && t.off >= 0
    ensures |ip.addrs| == NDIRECT + 1 && forall k :: 0 <= k <= NDIRECT ==> ip.addrs[k] == Num(t, i, k)
  {
    Inode(FileSize(t, i), seq(NDIRECT + 1, k => Num(t, i, k)))
  }

  function FileSize(t: Tight, i: int): (n: nat)
    requires 9 <= t.first < 12 && 0 <= i < INODES && t.off >= 0
  {
    if i == 0 then t.off else CountBounds(t, i); (Count(t, i) - 1) * BSIZE
  }

  ghost function Holders(t: Tight): map<int, Slot> {
    map a | 8192 * t.p + 64 <= a < 8192 * t.p + 24576 && TakenAt(t, a) :: SlotOf(t, a - 8192 * t.p)
  }

  predicate TakenAt(t: Tight, a: int) { Taken(a - 8192 * t.p) }

  /** The disk, the inodes and who holds what. */
  ghost function TightView(t: Tight): (v: View)
    requires Fits(t)
    ensures |v.disk| == t.size && |v.inodes| == INODES && v.owner == Holders(t) && v.loose == {} && v.ex == {}
  {
    SbOk(t);
    View(Blocks(t), InodeTable(t), Holders(t), {}, {})
  }

  function Blocks(t: Tight): (d: seq<Block>)
    requires Laid(t)
    ensures |d| == t.size && forall a :: 0 <= a < t.size ==> d[a] == DiskAt(t, a)
  {
    seq(t.size, a => DiskAt(t, a))
  }

  function InodeTable(t: Tight): (s: seq<Inode>)
    requires 9 <= t.first < 12 && t.off >= 0
    ensures |s| == INODES && forall i :: 0 <= i < INODES ==> s[i] == InodeOf(t, i)
  {
    seq(INODES, i requires 0 <= i < INODES => InodeOf(t, i))
  }

  // ---- it is a disk that the code may find ----

  lemma DigitBound(v: int, j: int)
    requires 0 <= v < UINT
    ensures 0 <= Digit(v, j) < 256
  {
    Digits(v);
  }

  lemma NumBound(t: Tight, i: int, k: int)
    requires Fits(t) && 0 <= i < INODES && 0 <= k < NSLOT
    ensures 0 <= Num(t, i, k) < t.size
    ensures BlockOf(t, i, k) >= 0 ==> Num(t, i, k) >= 8192 * t.p + 64 && Num(t, i, k) in Holders(t) && Holders(t)[Num(t, i, k)] == Slot(i, k)
  {
    SbOk(t);
    if BlockOf(t, i, k) >= 0 { BlockThenSlot(t, i, k); }
  }

  lemma IndirectWord(t: Tight, i: int, e: int)
    requires Fits(t) && 0 <= i < INODES && 0 <= e < NINDIRECT
    ensures Word(Indirect(t, i), e) == Num(t, i, NDIRECT + 1 + e)
  {
    NumBound(t, i, NDIRECT + 1 + e);
    hide Num, Fits, Digit;
    var b, v := Indirect(t, i), Num(t, i, NDIRECT + 1 + e);
    forall j | 0 <= j < 4 ensures b[4 * e + j] == Digit(v, j) { assert (4 * e + j) / 4 == e && (4 * e + j) % 4 == j; }
    WordOfDigits(b, e, v);
  }

  lemma WordOfDigits(b: Block, e: int, v: int)
    requires |b| == BSIZE && 0 <= e < NINDIRECT && 0 <= v < UINT && forall j :: 0 <= j < 4 ==> b[4 * e + j] == Digit(v, j)
    ensures Word(b, e) == v
  {
    Digits(v);
    assert b[4 * e + 0] == Digit(v, 0) && b[4 * e + 1] == Digit(v, 1) && b[4 * e + 2] == Digit(v, 2) && b[4 * e + 3] == Digit(v, 3);
  }

  lemma BlockGood(t: Tight, a: int)
    requires Fits(t) && 0 <= a < t.size
    ensures Laid(t) && IsBlock(DiskAt(t, a))
  {
    SbOk(t);
    var x := a - 8192 * t.p;
    if 65 + t.first <= x && Taken(x) && SlotOf(t, x).idx == NDIRECT {
      SlotThenBlock(t, x);
      IndirectGood(t, SlotOf(t, x).ino);
    }
    hide SlotOf, BlockOf, Fits, Taken;
  }

  lemma IndirectGood(t: Tight, i: int)
    requires Fits(t) && 0 <= i < INODES
    ensures IsBlock(Indirect(t, i))
  {
    forall y | 0 <= y < BSIZE ensures 0 <= Indirect(t, i)[y] < 256 {
      NumBound(t, i, NDIRECT + 1 + y / 4);
      DigitBound(Num(t, i, NDIRECT + 1 + y / 4), y % 4);
    }
    hide Num, Digit, Fits;
  }

  /** The disk below 8192 * p + 64 holds metadata and zeros; the blocks in place NDIRECT hold lists. */
  lemma DataBlock(t: Tight, i: int, k: int)
    requires Fits(t) && 0 <= i < INODES && 0 <= k < NSLOT && BlockOf(t, i, k) >= 0
    ensures 0 < Num(t, i, k) < t.size && TightView(t).disk[Num(t, i, k)] == if k == NDIRECT then Indirect(t, i) else ZEROS
  {
    SbOk(t);
    NumBound(t, i, k);
    BlockThenSlot(t, i, k);
  }

  lemma AddrIs(t: Tight, i: int, k: int)
    requires Fits(t) && 0 <= i < INODES && 0 <= k < NSLOT
    ensures Addr(TightView(t).disk, TightView(t).inodes[i], k) == Num(t, i, k)
  {
    ViewIs(t, i);
    if k > NDIRECT {
      if i > 0 { FarAddrIs(t, i, k); } else { NoFarAddr(TightView(t).disk, TightView(t).inodes[i], k); }
    }
    hide TightView;
  }

  lemma FarAddrIs(t: Tight, i: int, k: int)
    requires Fits(t) && 0 < i < INODES && NDIRECT < k < NSLOT
    ensures Addr(TightView(t).disk, TightView(t).inodes[i], k) == Num(t, i, k)
  {
    hide Fits, TightView, Num, Addr, Word, Indirect, BlockOf;
    FarBlock(t, i);
    IndirectWord(t, i, k - NDIRECT - 1);
    FarAddr(TightView(t).disk, TightView(t).inodes[i], k, Indirect(t, i));
  }

  lemma FarBlock(t: Tight, i: int)
    requires Fits(t) && 0 < i < INODES
    ensures var d, ip := TightView(t).disk, TightView(t).inodes[i];
            |ip.addrs| == NDIRECT + 1 && 0 < ip.addrs[NDIRECT] < |d| && d[ip.addrs[NDIRECT]] == Indirect(t, i)
  {
    ViewIs(t, i);
    CountBounds(t, i);
    DataBlock(t, i, NDIRECT);
    hide DiskAt, TightView, Num;
  }

  lemma FarAddr(d: seq<Block>, ip: Inode, k: int, b: Block)
    requires |ip.addrs| == NDIRECT + 1 && NDIRECT < k < NSLOT && |b| == BSIZE
    requires 0 < ip.addrs[NDIRECT] < |d| && d[ip.addrs[NDIRECT]] == b
    ensures Addr(d, ip, k) == Word(b, k - NDIRECT - 1)
  {
  }

  lemma NoFarAddr(d: seq<Block>, ip: Inode, k: int)
    requires |ip.addrs| == NDIRECT + 1 && NDIRECT < k < NSLOT && ip.addrs[NDIRECT] == 0
    ensures Addr(d, ip, k) == 0
  {
  }

  lemma ViewIs(t: Tight, i: int)
    requires Fits(t) && 0 <= i < INODES
    ensures TightView(t).inodes[i] == InodeOf(t, i)
  {
  }

  // ---- its bitmap ----

  lemma {:induction false} Ones(n: nat, k: nat)
    ensures BitOf(Pow2(n) - 1, k) <==> k < n
    decreases n, k
  {
    if n == 0 {
      if k > 0 { Ones(0, k - 1); }
    } else if k > 0 {
      assert (Pow2(n) - 1) / 2 == Pow2(n - 1) - 1;
      Ones(n - 1, k - 1);
    } else {
      PowPositive(n - 1);
      assert (Pow2(n) - 1) % 2 == 1;
    }
  }

  lemma {:induction false} PowPositive(n: nat)
    ensures Pow2(n) > 0
  {
    if n > 0 { PowPositive(n - 1); }
  }

  lemma MarksBit(gap: bool, i: int)
    requires 0 <= i < BPB
    ensures Bit(Marks(gap), i) <==> !(gap && i == BPB - 1)
  {
    assert Pow2(8) == 256 && Pow2(7) == 128;
    Ones(8, i % 8);
    Ones(7, i % 8);
  }

  lemma ZeroBit(i: int)
    requires 0 <= i < BPB
    ensures !Bit(ZEROS, i)
  {
    assert Pow2(0) == 1;
    Ones(0, i % 8);
  }

  lemma UsedIs(t: Tight, b: int)
    requires Fits(t) && 0 <= b < t.size
    ensures Laid(t) && GoodSuper(Sb(t)) && 0 <= BBlock(Sb(t), b) < t.size
    ensures |DiskAt(t, BBlock(Sb(t), b))| == BSIZE
    ensures Used(Sb(t), TightView(t).disk, b) <==> b < 8192 * t.p + 64 || Taken(b - 8192 * t.p)
  {
    SbOk(t);
    BitmapBelowData(Sb(t), b);
    var m := b / BPB;
    BlockGood(t, BBlock(Sb(t), b));
    assert TightView(t).disk[BBlock(Sb(t), b)] == Bitmap(t, m);
    MarksBit(m >= t.p, b % BPB);
    ZeroBit(b % BPB);
    assert (b - 8192 * t.p) % 8192 == b % 8192;
    hide Bit;
  }

  // ---- it is sound ----

  lemma TightOwned(t: Tight)
    requires Fits(t)
    ensures Laid(t) && Owned(Sb(t), TightView(t))
  {
    SbOk(t);
    var sb, v := Sb(t), TightView(t);
    forall b | 0 <= b < |v.disk| ensures IsBlock(v.disk[b]) { BlockGood(t, b); }
    assert GoodDisk(sb, v.disk);
    forall i, k ensures SlotOk(v, i, k) { TightSlot(t, i, k); }
    forall a ensures OwnerOk(sb, v, a) { TightOwner(t, a); }
    forall b ensures BitOk(sb, v, b) { TightBit(t, b); }
    hide SlotOk, OwnerOk, BitOk, GoodDisk, TightView, Holders, Sb;
    assert forall i, k :: ExOk(v, i, k);
  }

  lemma TightSlot(t: Tight, i: int, k: int)
    requires Fits(t)
    ensures SlotOk(TightView(t), i, k)
  {
    if 0 <= i < INODES && 0 <= k < NSLOT {
      AddrIs(t, i, k);
      NumBound(t, i, k);
    }
  }

  lemma TightOwner(t: Tight, a: int)
    requires Fits(t)
    ensures Laid(t) && OwnerOk(Sb(t), TightView(t), a)
  {
    SbOk(t);
    if a in Holders(t) {
      var x := a - 8192 * t.p;
      SlotThenBlock(t, x);
      AddrIs(t, SlotOf(t, x).ino, SlotOf(t, x).idx);
      hide SlotOf, Addr, Taken;
    }
  }

  lemma TightBit(t: Tight, b: int)
    requires Fits(t)
    requires Laid(t) && GoodDisk(Sb(t), TightView(t).disk)
    ensures BitOk(Sb(t), TightView(t), b)
  {
    SbOk(t);
    if 0 <= b < t.size { UsedIs(t, b); }
  }

  /** All files are full of zeros. */
  lemma TightFile(t: Tight, i: int)
    requires Fits(t) && 0 <= i < INODES
    ensures FileIs(TightView(t), i, seq(FileSize(t, i), _ => 0)) && FileSize(t, i) <= MAXFILE * BSIZE
  {
    if i > 0 { CountBounds(t, i); }
    var c := seq(FileSize(t, i), _ => 0);
    forall k ensures ByteIs(TightView(t), i, c, k) {
      if 0 <= k < |c| {
        assert k / BSIZE < MAXFILE && BlockOf(t, i, DataSlot(k / BSIZE)) >= 0;
        AddrIs(t, i, DataSlot(k / BSIZE));
        DataBlock(t, i, DataSlot(k / BSIZE));
      }
    }
  }

  // ---- a chunk at its end ----

  /** The places that a write to blocks first..first + 3 of file 0 fills. */
  predicate Vacant(t: Tight, k: int) {
    k == NDIRECT || k == DataSlot(t.first + 1) || k == DataSlot(t.first + 2) || k == DataSlot(t.first + 3)
  }

  lemma VacantFacts(t: Tight, k: int)
    requires Fits(t) && Vacant(t, k)
    ensures 0 <= k < NSLOT && k != DataSlot(t.first) && Num(t, 0, k) == 0 && Addr(TightView(t).disk, TightView(t).inodes[0], k) == 0
  {
    AddrIs(t, 0, k);
  }

  /** What a write may have done when it began on the tight disk, as Writei promises. */
  ghost predicate WroteTo(t: Tight, v: View, l: set<int>)
    requires Laid(t)
  {
    && Fits(t) && Owned(Sb(t), v) && v.loose == {} && v.ex == {} && |v.inodes| == INODES
    && Took(Sb(t), TightView(t), {}, v, l, 0, t.first, t.first + 4)
  }

  /** What the write has taken was free, and is in one of those places. */
  lemma NewOne(t: Tight, v: View, l: set<int>, a: int)
    requires Laid(t) && WroteTo(t, v, l)
    requires a in v.owner && a !in Holders(t)
    ensures v.owner[a].ino == 0 && Vacant(t, v.owner[a].idx) && 8192 * t.p + 64 <= a < t.size && !TakenAt(t, a)
    ensures IsSlot(v, 0, v.owner[a].idx) && Addr(v.disk, v.inodes[0], v.owner[a].idx) == a
    ensures a in l && BBlock(Sb(t), a) in l && AllUsed(Sb(t), v.disk, a)
  {
    SbOk(t);
    assert TookAt(Sb(t), TightView(t), v, l, 0, t.first, t.first + 4, a) && OwnerOk(Sb(t), v, a);
    FirstStays(t, v, l);
    assert v.owner[a].idx == DataSlot(t.first) ==> a == Num(t, 0, t.first);
    hide TookAt, Owned, TightView;
  }

  /** The block that the write begins in is where it was. */
  lemma FirstStays(t: Tight, v: View, l: set<int>)
    requires Laid(t) && WroteTo(t, v, l)
    ensures var a := Num(t, 0, t.first);
            && a in Holders(t) && 8192 * t.p + 64 <= a < t.size
            && IsSlot(v, 0, DataSlot(t.first)) && Addr(v.disk, v.inodes[0], DataSlot(t.first)) == a
  {
    NumBound(t, 0, t.first);
    var a := Num(t, 0, t.first);
    assert TookAt(Sb(t), TightView(t), v, l, 0, t.first, t.first + 4, a) && OwnerOk(Sb(t), v, a);
  }

  /** What is in a vacant place now has been taken by the write. */
  lemma InPlace(t: Tight, v: View, l: set<int>, k: int)
    requires Laid(t) && WroteTo(t, v, l)
    requires Vacant(t, k) && IsSlot(v, 0, k) && Addr(v.disk, v.inodes[0], k) != 0
    ensures var a := Addr(v.disk, v.inodes[0], k); a in v.owner && v.owner[a] == Slot(0, k) && a !in Holders(t)
  {
    hide Fits, Vacant, TightView, Holders, Addr, UsedAt, AllUsed, BitOk, OwnerOk, ExOk, HeldIn, SameBlockAt, Sb, Laid;
    var a := Addr(v.disk, v.inodes[0], k);
    if a in Holders(t) { VacantNotHeld(t, a, k); }
    assert SlotOk(v, 0, k) && TookAt(Sb(t), TightView(t), v, l, 0, t.first, t.first + 4, a);
  }

  lemma VacantNotHeld(t: Tight, a: int, k: int)
    requires Fits(t) && Vacant(t, k) && a in Holders(t)
    ensures Holders(t)[a] != Slot(0, k)
  {
    hide Vacant, Holders, TightView, Sb, BitOk, SlotOk, ExOk;
    VacantFacts(t, k);
    TightOwned(t);
    assert OwnerOk(Sb(t), TightView(t), a);
  }

  /** A free block that is in use now has been taken by the write. */
  lemma UsedNow(t: Tight, v: View, l: set<int>, a: int)
    requires Laid(t) && WroteTo(t, v, l)
    requires 8192 * t.p + 64 <= a < t.size && !TakenAt(t, a) && UsedAt(Sb(t), v.disk, a)
    ensures a in v.owner && a !in Holders(t)
  {
    SbOk(t);
    assert BitOk(Sb(t), v, a);
  }

  /** The first four free blocks. */
  function Gap(t: Tight, j: int): int { 8192 * t.p + if j < 3 then 8192 * j + 8191 else 24576 }

  lemma GapFree(t: Tight, j: int)
    requires Fits(t) && 0 <= j < 4
    ensures 8192 * t.p + 64 <= Gap(t, j) < t.size && !TakenAt(t, Gap(t, j))
  {
    SbOk(t);
  }

  /** No five different blocks have been taken. */
  lemma OnlyFour(t: Tight, v: View, l: set<int>, a: int, b: int, c: int, d: int, e: int)
    requires Laid(t) && WroteTo(t, v, l)
    requires a in v.owner && b in v.owner && c in v.owner && d in v.owner && e in v.owner
    requires a !in Holders(t) && b !in Holders(t) && c !in Holders(t) && d !in Holders(t) && e !in Holders(t)
    ensures a == b || a == c || a == d || a == e || b == c || b == d || b == e || c == d || c == e || d == e
  {
    NewOne(t, v, l, a);
    NewOne(t, v, l, b);
    NewOne(t, v, l, c);
    NewOne(t, v, l, d);
    NewOne(t, v, l, e);
    hide WroteTo, Holders, AllUsed, Addr, TakenAt;
  }

  /** Two different blocks that have been taken have their bits in different bitmap blocks. */
  lemma BitsApart(t: Tight, v: View, l: set<int>, a: int, b: int)
    requires Laid(t) && WroteTo(t, v, l)
    requires a in v.owner && b in v.owner && a !in Holders(t) && b !in Holders(t) && a != b
    ensures BBlock(Sb(t), a) != BBlock(Sb(t), b)
    decreases a > b
  {
    NewOne(t, v, l, a);
    NewOne(t, v, l, b);
    if a > b {
      BitsApart(t, v, l, b, a);
    } else if BBlock(Sb(t), a) == BBlock(Sb(t), b) {
      assert a >= 8192 * t.p + 24576 by { OneGap(t, a, b); }
      BelowUsed(t, v, l, b, 0);
      BelowUsed(t, v, l, b, 1);
      BelowUsed(t, v, l, b, 2);
      hide WroteTo, Holders, AllUsed, Addr, TakenAt;
      OnlyFour(t, v, l, a, b, Gap(t, 0), Gap(t, 1), Gap(t, 2));
    }
  }

  lemma OneGap(t: Tight, a: int, b: int)
    requires a / BPB == b / BPB && a < b && !TakenAt(t, a) && !TakenAt(t, b)
    ensures a >= 8192 * t.p + 24576
  {
    assert (a - 8192 * t.p) % 8192 == a % 8192 && (b - 8192 * t.p) % 8192 == b % 8192;
  }

  lemma BelowUsed(t: Tight, v: View, l: set<int>, b: int, j: int)
    requires Laid(t) && WroteTo(t, v, l)
    requires 0 <= j < 3 && AllUsed(Sb(t), v.disk, b) && b >= 8192 * t.p + 24576
    ensures Gap(t, j) in v.owner && Gap(t, j) !in Holders(t)
  {
    GapFree(t, j);
    assert UsedAt(Sb(t), v.disk, Gap(t, j));
    UsedNow(t, v, l, Gap(t, j));
  }

  /** The write does not run out of blocks. */
  lemma NoMiss(t: Tight, v: View, l: set<int>, m: int)
    requires Laid(t) && WroteTo(t, v, l)
    requires Full(Sb(t), v.disk) && t.first <= m < t.first + 4
    ensures !Misses(v, 0, m)
  {
    GapTaken(t, v, l, 0);
    GapTaken(t, v, l, 1);
    GapTaken(t, v, l, 2);
    GapTaken(t, v, l, 3);
    FirstStays(t, v, l);
    hide WroteTo, Holders, Full, Addr, Num;
  }

  lemma GapTaken(t: Tight, v: View, l: set<int>, j: int)
    requires Laid(t) && WroteTo(t, v, l) && Full(Sb(t), v.disk) && 0 <= j < 4
    ensures var a := Gap(t, j);
            a in v.owner && Vacant(t, v.owner[a].idx) && IsSlot(v, 0, v.owner[a].idx) && Addr(v.disk, v.inodes[0], v.owner[a].idx) == a > 0
  {
    var a := Gap(t, j);
    GapFree(t, j);
    assert UsedAt(Sb(t), v.disk, a);
    UsedNow(t, v, l, a);
    NewOne(t, v, l, a);
  }

  /** It logs four blocks of the file, the indirect block, a bitmap block for each of the four that
      are new, and the block of the inode. */
  lemma TenLogged(t: Tight, v: View, l: set<int>)
    requires Laid(t) && WroteTo(t, v, l)
    requires DataLogged(v, l, 0, t.first, t.first + 4) && IBlock(Sb(t), 0) in l
    ensures |l| >= 10
  {
    hide WroteTo, Holders, Addr, DataLogged, At, Sb, Fits, Laid;
    Entered(t, v, l, 1);
    Entered(t, v, l, 2);
    Entered(t, v, l, 3);
    IndirectEntered(t, v, l);
    FirstThere(t, v, l);
    var a0, a1, a2, a3, ai := At(v, t.first), At(v, t.first + 1), At(v, t.first + 2), At(v, t.first + 3), v.inodes[0].addrs[NDIRECT];
    FourBits(t, v, l, a1, a2, a3, ai);
    var b1, b2, b3, bi := BBlock(Sb(t), a1), BBlock(Sb(t), a2), BBlock(Sb(t), a3), BBlock(Sb(t), ai);
    CardTen(l, IBlock(Sb(t), 0), b1, b2, b3, bi, a0, a1, a2, a3, ai);
  }

  function At(v: View, n: int): int
    requires |v.inodes| > 0 && |v.inodes[0].addrs| == NDIRECT + 1 && 0 <= n < MAXFILE
  {
    Addr(v.disk, v.inodes[0], DataSlot(n))
  }

  /** A new block of the file. */
  lemma Entered(t: Tight, v: View, l: set<int>, n: int)
    requires Laid(t) && WroteTo(t, v, l) && DataLogged(v, l, 0, t.first, t.first + 4) && 1 <= n < 4
    ensures |v.inodes| > 0 && |v.inodes[0].addrs| == NDIRECT + 1 && 0 <= t.first && t.first + 3 < MAXFILE
    ensures var a := At(v, t.first + n);
            a in v.owner && v.owner[a] == Slot(0, DataSlot(t.first + n)) && a !in Holders(t) && a in l
  {
    assert DataLoggedAt(v, l, 0, t.first + n);
    InPlace(t, v, l, DataSlot(t.first + n));
  }

  lemma IndirectEntered(t: Tight, v: View, l: set<int>)
    requires Laid(t) && WroteTo(t, v, l) && DataLogged(v, l, 0, t.first, t.first + 4)
    ensures |v.inodes[0].addrs| == NDIRECT + 1
    ensures var a := v.inodes[0].addrs[NDIRECT];
            a in v.owner && v.owner[a] == Slot(0, NDIRECT) && a !in Holders(t)
  {
    assert DataLoggedAt(v, l, 0, t.first + 3);
    var ai := v.inodes[0].addrs[NDIRECT];
    assert ai != 0 && Addr(v.disk, v.inodes[0], NDIRECT) == ai;
    InPlace(t, v, l, NDIRECT);
  }

  /** The block that the chunk begins in, and the block of the inode below the bitmap. */
  lemma FirstThere(t: Tight, v: View, l: set<int>)
    requires Laid(t) && WroteTo(t, v, l) && DataLogged(v, l, 0, t.first, t.first + 4)
    ensures |v.inodes[0].addrs| == NDIRECT + 1
    ensures At(v, t.first) in Holders(t) && At(v, t.first) in l && At(v, t.first) >= 8192 * t.p + 64
    ensures 0 <= t.first && t.first + 3 < MAXFILE && IBlock(Sb(t), 0) < Sb(t).bmapstart < 8192 * t.p + 64
  {
    assert DataLoggedAt(v, l, 0, t.first);
    FirstStays(t, v, l);
    SbOk(t);
  }

  lemma FourBits(t: Tight, v: View, l: set<int>, a: int, b: int, c: int, d: int)
    requires Laid(t) && WroteTo(t, v, l)
    requires a in v.owner && b in v.owner && c in v.owner && d in v.owner
    requires a !in Holders(t) && b !in Holders(t) && c !in Holders(t) && d !in Holders(t)
    requires a != b && a != c && a != d && b != c && b != d && c != d
    ensures BothLogged(t, l, a) && BothLogged(t, l, b) && BothLogged(t, l, c) && BothLogged(t, l, d)
    ensures var sb := Sb(t);
            && BBlock(sb, a) != BBlock(sb, b) && BBlock(sb, a) != BBlock(sb, c) && BBlock(sb, a) != BBlock(sb, d)
            && BBlock(sb, b) != BBlock(sb, c) && BBlock(sb, b) != BBlock(sb, d) && BBlock(sb, c) != BBlock(sb, d)
  {
    NewLogged(t, v, l, a);
    NewLogged(t, v, l, b);
    NewLogged(t, v, l, c);
    NewLogged(t, v, l, d);
    BitsApart(t, v, l, a, b);
    BitsApart(t, v, l, a, c);
    BitsApart(t, v, l, a, d);
    BitsApart(t, v, l, b, c);
    BitsApart(t, v, l, b, d);
    BitsApart(t, v, l, c, d);
  }

  ghost predicate BothLogged(t: Tight, l: set<int>, x: int)
    requires Laid(t)
  {
    x in l && BBlock(Sb(t), x) in l && Sb(t).bmapstart <= BBlock(Sb(t), x) < 8192 * t.p + 64 <= x
  }

  lemma NewLogged(t: Tight, v: View, l: set<int>, a: int)
    requires Laid(t) && WroteTo(t, v, l)
    requires a in v.owner && a !in Holders(t)
    ensures BothLogged(t, l, a)
  {
    SbOk(t);
    NewOne(t, v, l, a);
    BitmapBelowData(Sb(t), a);
  }

  lemma CardTen(l: set<int>, a: int, b: int, c: int, d: int, e: int, f: int, g: int, h: int, i: int, j: int)
    requires {a, b, c, d, e, f, g, h, i, j} <= l && |{a, b, c, d, e}| == 5 && |{f, g, h, i, j}| == 5
    requires {a, b, c, d, e} !! {f, g, h, i, j}
    ensures |l| >= 10
  {
    assert {a, b, c, d, e} + {f, g, h, i, j} <= l;
    CardSub({a, b, c, d, e} + {f, g, h, i, j}, l);
  }

  // ---- the calls ----

  method Mount(t: Tight) returns (fs: Fs)
    requires Fits(t)
    ensures fresh(fs) && fs.Valid() && fs.V({}, {}) == TightView(t) && fs.logged == {}
    ensures Laid(t) && fs.sb == Sb(t)
    ensures |fs.files| == INODES && fs.files[0] == seq(t.off, _ => 0)
  {
    SbOk(t);
    TightOwned(t);
    ghost var files := seq(INODES, i requires 0 <= i < INODES => seq(FileSize(t, i), _ => 0));
    fs := new Fs(Sb(t), Blocks(t), InodeTable(t), Holders(t), files);
    hide Owned, FileIs;
    forall i ensures fs.FileOk(i) {
      if 0 <= i < INODES { TightFile(t, i); }
    }
  }

  /** A chunk of filewrite that logs MAXOPBLOCKS blocks, for every disk and every place in a file
      where ChunkBudget leaves room for it. */
  method LogsTen(size: int, off: int, n: int) returns (fs: Fs, r: int)
    requires Overflows(size, off, n) && size < UINT / 2 && 0 <= off && 0 <= n <= WRITE_MAX
    ensures fresh(fs) && fs.Valid() && fs.sb.size == size && r == n && |fs.logged| == MAXOPBLOCKS
  {
    var t := Tight(size, (size / BPB + 8166) / BPB, off / BSIZE, off);
    fs := Mount(t);
    ghost var copied;
    r, copied := fs.Writei(0, seq(n, _ => 0), n, off, n);
    ghost var v := fs.V({}, {});
    ChunkBudget(fs.sb, off, n);
    assert fs.logged - {} == fs.logged;
    assert WroteTo(t, v, fs.logged);
    hide Owned, Took, DataLogged, WroteTo, TightView, Sb, WriteBudget;
    if r < n { NoMiss(t, v, fs.logged, (off + r) / BSIZE); }
    TenLogged(t, v, fs.logged);
  }

  /** A write whose return value does not describe the file: one of two bytes can be read, writei
      says that it has written none, and the first byte of the file has changed. */
  method PartialCopy() returns (fs: Fs, r: int, ghost before: seq<int>)
    ensures fresh(fs) && fs.Valid() && r == 0 && |fs.files| > 0 && |fs.files[0]| == |before| > 0
    ensures before[0] == 0 && fs.files[0][0] == 1
  {
    var t := Tight(24577, 0, 9, 9217);
    fs := Mount(t);
    before := fs.files[0];
    ghost var copied;
    r, copied := fs.Writei(0, [1, 1], 1, 0, 2);
    NumBound(t, 0, 0);
    ghost var a, v := Num(t, 0, 0), fs.V({}, {});
    assert TookAt(fs.sb, TightView(t), v, fs.logged, 0, 0, 1, a) && OwnerOk(fs.sb, v, a);
  }
}
