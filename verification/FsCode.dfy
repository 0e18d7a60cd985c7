/** The block allocator and the inode layer of Lab3/xv6-riscv/kernel/fs.c, with filewrite
    of Lab3/xv6-riscv/kernel/file.c, over blocks seen through the buffer cache. */
module FsCode {
  import opened FsBlocks
  import opened Sequences
  import opened Inodes
  import opened InodeSteps
  import opened FileLayout
  import DiskLog

  const MAXOPBLOCKS := DiskLog.MAXOPBLOCKS
  const WRITE_MAX := (MAXOPBLOCKS - 1 - 1 - 2) / 2 * BSIZE

  ghost predicate UsedAt(sb: Super, d: seq<Block>, b: int)
    requires GoodDisk(sb, d)
  {
    0 <= b < sb.size ==> (BitmapBelowData(sb, b); Used(sb, d, b))
  }

  /** The blocks below n are all in use. */
  ghost predicate AllUsed(sb: Super, d: seq<Block>, n: int)
    requires GoodDisk(sb, d)
  {
    forall b :: b < n ==> UsedAt(sb, d, b)
  }

  /** The disk is full. */
  ghost predicate Full(sb: Super, d: seq<Block>)
    requires GoodDisk(sb, d)
  {
    AllUsed(sb, d, sb.size)
  }

  /** How many bitmap blocks speak of a block of the disk, and which they are. */
  function BitmapBlocks(sb: Super): nat { (sb.size + BPB - 1) / BPB }

  ghost predicate InBitmap(sb: Super, maps: set<int>) {
    forall m :: m in maps ==> sb.bmapstart <= m < sb.bmapstart + BitmapBlocks(sb)
  }

  lemma {:induction false} CardBetween(a: set<int>, lo: int, n: nat)
    requires forall x :: x in a ==> lo <= x < lo + n
    ensures |a| <= n
  {
    if n > 0 {
      var b := a - {lo + n - 1};
      CardBetween(b, lo, n - 1);
      CardPlus(b, {lo + n - 1});
      CardSub(a, b + {lo + n - 1});
    } else {
      assert forall x :: x !in a;
    }
  }

  lemma InBitmapOne(sb: Super, b: int)
    requires 0 <= b < sb.size
    ensures InBitmap(sb, {BBlock(sb, b)})
  {
  }

  /** What is in use stays in use while no block is given up. */
  lemma UsedStays(sb: Super, v: View, v': View, n: int)
    requires Owned(sb, v) && Owned(sb, v') && v.loose == {} && AllUsed(sb, v.disk, n)
    requires forall a :: a in v.owner ==> a in v'.owner
    ensures AllUsed(sb, v'.disk, n)
  {
    forall b | b < n ensures UsedAt(sb, v'.disk, b) {
      assert UsedAt(sb, v.disk, b) && BitOk(sb, v, b) && BitOk(sb, v', b);
    }
  }

  // ---- what bmap has taken ----

  /** From v and the logged blocks l to v' and l', inode i has taken blocks for the places of its
      blocks lo..hi and of its indirect block only. Each was the lowest free one, and is logged
      with its bitmap block. A block that has changed is logged, unless it is one of those lo..hi. */
  ghost predicate Took(sb: Super, v: View, l: set<int>, v': View, l': set<int>, i: int, lo: int, hi: int)
    requires GoodDisk(sb, v'.disk)
  {
    l <= l' && |v'.disk| == |v.disk| && InVolume(sb, l, l') && forall a :: TookAt(sb, v, v', l', i, lo, hi, a)
  }

  /** What has been added to l holds inodes, the bitmap or data. */
  ghost predicate InVolume(sb: Super, l: set<int>, l': set<int>) {
    forall b :: b in l' && b !in l ==> sb.inodestart <= b < sb.size
  }

  /** The two disks have the same block a. */
  predicate SameBlockAt(d: seq<Block>, d': seq<Block>, a: int) {
    0 <= a < |d| && a < |d'| ==> d'[a] == d[a]
  }

  /** Block a is one of the blocks lo..hi of inode i. */
  ghost predicate HeldIn(v: View, i: int, lo: int, hi: int, a: int) {
    a in v.owner && v.owner[a].ino == i && exists n :: lo <= n < hi && v.owner[a].idx == DataSlot(n)
  }

  ghost predicate TookAt(sb: Super, v: View, v': View, l': set<int>, i: int, lo: int, hi: int, a: int)
    requires GoodDisk(sb, v'.disk)
  {
    && (a in v.owner ==> a in v'.owner && v'.owner[a] == v.owner[a])
    && (a in v'.owner && a !in v.owner ==>
          && v'.owner[a].ino == i
          && (v'.owner[a].idx == NDIRECT || exists n :: lo <= n < hi && v'.owner[a].idx == DataSlot(n))
          && a in l' && BBlock(sb, a) in l' && AllUsed(sb, v'.disk, a))
    && (a in l' || SameBlockAt(v.disk, v'.disk, a) || HeldIn(v', i, lo, hi, a))
  }

  lemma TookNothing(sb: Super, v: View, l: set<int>, i: int, lo: int, hi: int)
    requires Owned(sb, v)
    ensures Took(sb, v, l, v, l, i, lo, hi)
  {
    forall a ensures TookAt(sb, v, v, l, i, lo, hi, a) {}
  }

  /** One block is taken, for place k. */
  lemma TookOne(sb: Super, v: View, l: set<int>, v': View, l': set<int>, i: int, k: int, bn: int, addr: int)
    requires Owned(sb, v) && Owned(sb, v') && v.loose == {} && addr !in v.owner && v'.owner == v.owner[addr := Slot(i, k)]
    requires AllUsed(sb, v.disk, addr) && l <= l' && addr in l' && BBlock(sb, addr) in l' && (k == NDIRECT || k == DataSlot(bn))
    requires InVolume(sb, l, l') && forall a :: a in l' || SameBlockAt(v.disk, v'.disk, a)
    ensures Took(sb, v, l, v', l', i, bn, bn + 1)
  {
    UsedStays(sb, v, v', addr);
    var hi := bn + 1;
    forall a ensures TookAt(sb, v, v', l', i, bn, hi, a) {
      if a == addr && k == DataSlot(bn) { assert bn <= bn < hi; }
    }
  }

  lemma TookWider(sb: Super, v: View, l: set<int>, v': View, l': set<int>, i: int, lo: int, hi: int, hi': int)
    requires GoodDisk(sb, v'.disk) && Took(sb, v, l, v', l', i, lo, hi) && hi <= hi'
    ensures Took(sb, v, l, v', l', i, lo, hi')
  {
    forall a ensures TookAt(sb, v, v', l', i, lo, hi', a) { assert TookAt(sb, v, v', l', i, lo, hi, a); }
  }

  lemma TookBoth(sb: Super, v: View, l: set<int>, v1: View, l1: set<int>, v2: View, l2: set<int>, i: int, lo: int, mid: int, mid': int, hi: int)
    requires Owned(sb, v1) && Owned(sb, v2) && v1.loose == {} && v2.loose == {}
    requires Took(sb, v, l, v1, l1, i, lo, mid) && Took(sb, v1, l1, v2, l2, i, mid', hi) && lo <= mid' && mid <= hi
    ensures Took(sb, v, l, v2, l2, i, lo, hi)
  {
    forall a ensures TookAt(sb, v, v2, l2, i, lo, hi, a) {
      assert TookAt(sb, v, v1, l1, i, lo, mid, a) && TookAt(sb, v1, v2, l2, i, mid', hi, a);
      if a in v1.owner && a !in v.owner {
        forall x | x in v1.owner ensures x in v2.owner { assert TookAt(sb, v1, v2, l2, i, mid', hi, x); }
        UsedStays(sb, v1, v2, a);
      }
    }
  }

  /** Block n of inode i is not there. */
  ghost predicate Misses(v: View, i: int, n: int) {
    0 <= n < MAXFILE && IsSlot(v, i, DataSlot(n)) && Addr(v.disk, v.inodes[i], DataSlot(n)) == 0
  }

  /** Blocks lo..hi of inode i are there, and logged. */
  ghost predicate DataLogged(v: View, l: set<int>, i: int, lo: int, hi: int) {
    forall n :: lo <= n < hi ==> DataLoggedAt(v, l, i, n)
  }

  ghost predicate DataLoggedAt(v: View, l: set<int>, i: int, n: int) {
    && 0 <= n < MAXFILE && IsSlot(v, i, DataSlot(n))
    && 0 < Addr(v.disk, v.inodes[i], DataSlot(n)) < |v.disk| && Addr(v.disk, v.inodes[i], DataSlot(n)) in l
  }

  lemma LoggedStays(v: View, l: set<int>, v': View, l': set<int>, i: int, lo: int, hi: int)
    requires DataLogged(v, l, i, lo, hi) && Places(v, v', i) && l <= l'
    ensures DataLogged(v', l', i, lo, hi)
  {
    forall n | lo <= n < hi ensures DataLoggedAt(v', l', i, n) { assert DataLoggedAt(v, l, i, n) && PlaceAt(v, v', i, n); }
  }

  /** What several rounds and one more come to. */
  lemma Joined(sb: Super, v: View, l: set<int>, v1: View, l1: set<int>, v2: View, l2: set<int>, i: int, lo: int, mid: int, n: int,
               here: bool, far: bool, t: bool, far': bool, whole: bool, d: set<int>, ms: set<int>, d': set<int>, ms': set<int>)
    requires 0 <= n && mid == lo + n && (n == 0 && here ==> t)
    requires Owned(sb, v1) && Owned(sb, v2) && v1.loose == {} && v2.loose == {}
    requires 0 <= i < |v.inodes| == |v1.inodes| == |v2.inodes|
    requires |v.inodes[i].addrs| == |v1.inodes[i].addrs| == |v2.inodes[i].addrs| == NDIRECT + 1
    requires Spent(sb, l, l1, v.inodes[i].addrs[NDIRECT], v1.inodes[i].addrs[NDIRECT], n, here, far, d, ms)
    requires Spent(sb, l1, l2, v1.inodes[i].addrs[NDIRECT], v2.inodes[i].addrs[NDIRECT], 1, t, far', d', ms')
    requires Took(sb, v, l, v1, l1, i, lo, mid) && Took(sb, v1, l1, v2, l2, i, mid, mid + 1) && DataLogged(v1, l1, i, lo, mid)
    requires Places(v1, v2, i) && (whole ==> DataLoggedAt(v2, l2, i, mid))
    ensures Spent(sb, l, l2, v.inodes[i].addrs[NDIRECT], v2.inodes[i].addrs[NDIRECT], n + 1, here, far || far', d + d', ms + ms')
    ensures Took(sb, v, l, v2, l2, i, lo, mid + 1) && DataLogged(v2, l2, i, lo, if whole then mid + 1 else mid)
  {
    assert l1 <= l2;
    hide Owned, Spent, InBitmap, Took, DataLogged, DataLoggedAt, Places;
    SpentMore(sb, l, l1, l2, v.inodes[i].addrs[NDIRECT], v1.inodes[i].addrs[NDIRECT], v2.inodes[i].addrs[NDIRECT], n, here, far, t, far',
              d, ms, d', ms');
    TookBoth(sb, v, l, v1, l1, v2, l2, i, lo, mid, mid, mid + 1);
    LoggedStays(v1, l1, v2, l2, i, lo, mid);
    if whole { LoggedOneMore(v2, l2, i, lo, mid); }
  }

  lemma LoggedOneMore(v: View, l: set<int>, i: int, lo: int, mid: int)
    requires DataLogged(v, l, i, lo, mid) && DataLoggedAt(v, l, i, mid)
    ensures DataLogged(v, l, i, lo, mid + 1)
  {
  }

  /** The blocks of inode i are where they were, whatever they hold. */
  ghost predicate Places(v: View, v': View, i: int) { forall n :: PlaceAt(v, v', i, n) }

  ghost predicate PlaceAt(v: View, v': View, i: int, n: int) {
    0 <= n < MAXFILE && IsSlot(v, i, DataSlot(n)) && 0 < Addr(v.disk, v.inodes[i], DataSlot(n)) < |v.disk| ==>
      && IsSlot(v', i, DataSlot(n))
      && Addr(v'.disk, v'.inodes[i], DataSlot(n)) == Addr(v.disk, v.inodes[i], DataSlot(n)) < |v'.disk|
  }

  lemma KeepsPlaces(v: View, v': View, i: int)
    requires Keeps(v, v', i)
    ensures Places(v, v', i)
  {
    forall n ensures PlaceAt(v, v', i, n) { assert KeepOk(v, v', i, n); }
  }

  /** Writing to a block of a file moves none of its blocks. */
  lemma ChunkPlaces(sb: Super, v0: View, v: View, i: int, a: int, blk: Block)
    requires Owned(sb, v) && Places(v0, v, i) && 0 <= a < |v.disk| && a != 0 && |blk| == BSIZE
    requires a in v.owner && v.owner[a].idx != NDIRECT && v.ex == {}
    ensures Places(v0, Put(v, a, blk), i)
  {
    DataNoPointers(sb, v, a);
    forall n ensures PlaceAt(v0, Put(v, a, blk), i, n) {
      assert PlaceAt(v0, v, i, n);
      if 0 <= n < MAXFILE && IsSlot(v, i, DataSlot(n)) { SameAddr(v, a, blk, i, DataSlot(n)); }
    }
  }

  ghost function Opt(a: int): set<int> { if a == 0 then {} else {a} }

  lemma OneBit(sb: Super, b: int, bi: int)
    requires GoodSuper(sb) && 0 <= b && b % BPB == 0 && 0 <= bi < BPB && b + bi < sb.size
    ensures BBlock(sb, b + bi) == BBlock(sb, b) && (b + bi) % BPB == bi
    ensures sb.bmapstart <= BBlock(sb, b) < DataStart(sb)
  {
  }

  lemma OneMoreUsed(sb: Super, d: seq<Block>, b: int, bi: int)
    requires GoodDisk(sb, d) && AllUsed(sb, d, b + bi) && 0 <= b && b % BPB == 0 && 0 <= bi < BPB && b + bi < sb.size
    requires 0 <= BBlock(sb, b) < |d| && Bit(d[BBlock(sb, b)], bi)
    ensures AllUsed(sb, d, b + bi + 1)
  {
    OneBit(sb, b, bi);
    assert UsedAt(sb, d, b + bi);
    FullSoFar(sb, d, b + bi, b + bi + 1);
  }

  lemma UsedPastEnd(sb: Super, d: seq<Block>, n: int, m: int)
    requires GoodDisk(sb, d) && AllUsed(sb, d, n) && (n >= sb.size || n == m)
    ensures AllUsed(sb, d, m)
  {
    forall x | x < m ensures UsedAt(sb, d, x) {
      assert x < n ==> UsedAt(sb, d, x);
    }
  }

  lemma FullSoFar(sb: Super, d: seq<Block>, n: int, m: int)
    requires GoodDisk(sb, d) && AllUsed(sb, d, n)
    requires n <= m <= n + 1 && UsedAt(sb, d, n)
    ensures AllUsed(sb, d, m)
  {
    forall x | x < m ensures UsedAt(sb, d, x) {
      assert x < n ==> UsedAt(sb, d, x);
    }
  }

  lemma ChunkStays(sb: Super, v: View, i: int, a: int, blk: Block, n: int)
    requires Owned(sb, v) && 0 < a < |v.disk| && |blk| == BSIZE && a in v.owner && v.owner[a].idx != NDIRECT && v.ex == {}
    requires 0 <= n < MAXFILE && IsSlot(v, i, DataSlot(n))
    ensures Addr(Put(v, a, blk).disk, v.inodes[i], DataSlot(n)) == Addr(v.disk, v.inodes[i], DataSlot(n))
  {
    DataNoPointers(sb, v, a);
    SameAddr(v, a, blk, i, DataSlot(n));
  }

  // ---- counting log blocks ----

  /** The blocks touched by bytes off..off + n. */
  function Spanned(off: int, n: int): nat {
    if n <= 0 then 0 else (off + n - 1) / BSIZE - off / BSIZE + 1
  }

  lemma SpannedStep(off: int, tot: int, m: int)
    requires 0 <= off && 0 <= tot && 0 < m <= BSIZE - (off + tot) % BSIZE
    requires tot == 0 || (off + tot) % BSIZE == 0
    ensures Spanned(off, tot + m) == Spanned(off, tot) + 1
  {
    var q, r := (off + tot) / BSIZE, (off + tot) % BSIZE;
    assert off + tot + m - 1 == q * BSIZE + (r + m - 1);
    if tot > 0 { assert off + tot - 1 == (q - 1) * BSIZE + (BSIZE - 1); }
  }

  /** min(n - tot, BSIZE - off % BSIZE): what one round copies of the `left` bytes to go. */
  function RoundSize(off: int, left: int): (m: int)
    requires 0 <= off && 0 < left
    ensures 0 < m <= left && m <= BSIZE - off % BSIZE
    ensures m < left ==> (off + m) % BSIZE == 0
  {
    if left < BSIZE - off % BSIZE then left else BSIZE - off % BSIZE
  }

  lemma SameBlock(off: int, k: int)
    requires 0 <= off && 0 <= k && off % BSIZE + k < BSIZE
    ensures (off + k) / BSIZE == off / BSIZE && (off + k) % BSIZE == off % BSIZE + k
  {
  }

  lemma SpannedMonotone(off: int, m: int, n: int)
    requires 0 <= off && m <= n
    ensures Spanned(off, m) <= Spanned(off, n)
  {
  }

  /** The arithmetic of one round of writei. */
  lemma RoundReady(src: seq<int>, avail: int, off0: int, tot: int, m: int, w: seq<int>, c0: seq<int>)
    requires 0 <= tot <= avail && 0 < m && tot + m <= |src| && Bytes(src) && 0 <= off0 <= |c0|
    requires m <= BSIZE - (off0 + tot) % BSIZE && (tot == 0 || (off0 + tot) % BSIZE == 0)
    requires off0 + tot + m <= MAXFILE * BSIZE
    requires w == if tot + m <= avail then src[tot..tot + m] else src[tot..avail]
    ensures Spanned(off0, tot + m) == Spanned(off0, tot) + 1 && (tot > 0 ==> Spanned(off0, tot) > 0)
    ensures (off0 + tot) / BSIZE == off0 / BSIZE + Spanned(off0, tot)
    ensures Far(off0, tot + m) <==> Far(off0, tot) || (off0 + tot) / BSIZE >= NDIRECT
    ensures (off0 + tot) / BSIZE < MAXFILE && (off0 + tot) % BSIZE + |w| <= BSIZE && Bytes(w)
    ensures off0 + tot <= |Patched(c0, off0, src[..tot])|
    ensures Patched(Patched(c0, off0, src[..tot]), off0 + tot, w) == Patched(c0, off0, src[..tot + |w|])
  {
    RoundPlace(off0, tot, m);
    hide Spanned, Far;
    PatchedTwice(c0, off0, src[..tot], w);
    assert src[..tot] + w == src[..tot + |w|];
  }

  lemma RoundPlace(off: int, tot: int, m: int)
    requires 0 <= off && 0 <= tot && 0 < m <= BSIZE - (off + tot) % BSIZE
    requires tot == 0 || (off + tot) % BSIZE == 0
    ensures Spanned(off, tot + m) == Spanned(off, tot) + 1 && (tot > 0 ==> Spanned(off, tot) > 0)
    ensures (off + tot) / BSIZE == off / BSIZE + Spanned(off, tot)
    ensures Far(off, tot + m) <==> Far(off, tot) || (off + tot) / BSIZE >= NDIRECT
  {
    SpannedStep(off, tot, m);
    SameBlock(off + tot, m - 1);
    var q := (off + tot) / BSIZE;
    assert off + tot + (m - 1) == off + (tot + m) - 1;
    if tot > 0 { assert off + tot - 1 == (q - 1) * BSIZE + (BSIZE - 1); }
  }

  /** What the log_writes that took `l` to `l'` come to, after visiting `chunks` blocks of a
      file, the first of which may have been `there` already: those blocks, a bitmap block
      for each block allocated, and, if some of them are `far`, the indirect block `ind`, which
      was `ind0` before. */
  ghost predicate Spent(sb: Super, l: set<int>, l': set<int>, ind0: int, ind: int, chunks: int, there: bool, far: bool,
                        data: set<int>, maps: set<int>)
  {
    && l' <= l + data + maps + (if far then Opt(ind) else {}) && (ind0 != 0 || !far ==> ind == ind0)
    && |data| <= chunks && InBitmap(sb, maps)
    && |maps| <= chunks - (if there && chunks > 0 then 1 else 0) + (if ind0 == 0 && ind != 0 then 1 else 0)
  }

  lemma SpentMore(sb: Super, l: set<int>, l1: set<int>, l2: set<int>, i0: int, i1: int, i2: int, n: int, there: bool,
                  far: bool, t: bool, far': bool, d: set<int>, m: set<int>, d': set<int>, m': set<int>)
    requires 0 <= n && Spent(sb, l, l1, i0, i1, n, there, far, d, m) && Spent(sb, l1, l2, i1, i2, 1, t, far', d', m')
    requires n == 0 && there ==> t
    ensures Spent(sb, l, l2, i0, i2, n + 1, there, far || far', d + d', m + m')
  {
    CardPlus(d, d');
    CardPlus(m, m');
  }

  lemma CardPlus(a: set<int>, b: set<int>)
    ensures |a + b| <= |a| + |b|
  {
    assert a + b == a + (b - a) && a !! (b - a);
    assert |b| == |b * a| + |b - a| by { assert b == (b * a) + (b - a); }
  }

  /** Some of the blocks touched by bytes off..off + n have their numbers in the indirect block. */
  predicate Far(off: int, n: int) { n > 0 && (off + n - 1) / BSIZE >= NDIRECT }

  function Least(a: int, b: int): int { if a < b then a else b }

  function One(b: bool): int { if b then 1 else 0 }

  /** How many blocks a write of n bytes at off may log: the blocks of the file, a bitmap block for
      each block it allocates, the indirect block and the block of the inode. A block that the write
      does not start is there, and so is the indirect block if it is needed to find that one. */
  function WriteBudget(sb: Super, off: int, n: int): int {
    var s, here := Spanned(off, n), n > 0 && off % BSIZE != 0;
    s + Least(BitmapBlocks(sb), s - One(here) + One(Far(off, n) && !(here && off / BSIZE >= NDIRECT)))
      + One(Far(off, n)) + 1
  }

  lemma SpentTotal(sb: Super, l: set<int>, l': set<int>, i0: int, i1: int, n: int, there: bool, far: bool, d: set<int>, m: set<int>, ib: int)
    requires Spent(sb, l, l', i0, i1, n, there, far, d, m)
    ensures |(l' + {ib}) - l| <= Allowance(BitmapBlocks(sb), n, there, far, i0 == 0)
  {
    var o := if far then Opt(i1) else {};
    CardPlus(d, m);
    CardPlus(d + m, o);
    CardPlus(d + m + o, {ib});
    CardSub((l' + {ib}) - l, d + m + o + {ib});
    CardBetween(m, sb.bmapstart, BitmapBlocks(sb));
  }

  lemma BudgetEnough(sb: Super, l: set<int>, l': set<int>, i0: int, i1: int, off: int, m: int, n: int, d: set<int>, ms: set<int>)
    requires 0 <= off && 0 <= m <= n && (n > 0 ==> m > 0)
    requires Spent(sb, l, l', i0, i1, Spanned(off, m), off % BSIZE != 0, Far(off, m), d, ms)
    requires off % BSIZE != 0 && off / BSIZE >= NDIRECT ==> i0 != 0
    ensures forall ib :: |(l' + {ib}) - l| <= WriteBudget(sb, off, n)
  {
    BudgetMonotone(BitmapBlocks(sb), off, m, n, i0 == 0);
    hide *;
    forall ib ensures |(l' + {ib}) - l| <= WriteBudget(sb, off, n) {
      SpentTotal(sb, l, l', i0, i1, Spanned(off, m), off % BSIZE != 0, Far(off, m), d, ms, ib);
      BudgetIs(sb, off, n);
    }
  }

  /** What SpentTotal allows for a write of m bytes at off. */
  function Allowance(nb: int, s: int, here: bool, far: bool, unheld: bool): int {
    s + Least(nb, s - One(here && s > 0) + One(far && unheld)) + One(far) + 1
  }

  lemma BudgetIs(sb: Super, off: int, n: int)
    requires 0 <= off && 0 <= n
    ensures WriteBudget(sb, off, n) == Allowance(BitmapBlocks(sb), Spanned(off, n), off % BSIZE != 0, Far(off, n),
                                                 !(off % BSIZE != 0 && off / BSIZE >= NDIRECT))
  {
  }

  lemma BudgetMonotone(nb: nat, off: int, m: int, n: int, unheld: bool)
    requires 0 <= off && 0 <= m <= n && (n > 0 ==> m > 0)
    requires off % BSIZE != 0 && off / BSIZE >= NDIRECT ==> !unheld
    ensures Allowance(nb, Spanned(off, m), off % BSIZE != 0, Far(off, m), unheld)
            <= Allowance(nb, Spanned(off, n), off % BSIZE != 0, Far(off, n), !(off % BSIZE != 0 && off / BSIZE >= NDIRECT))
  {
    SpannedMonotone(off, m, n);
    assert m > 0 ==> (off + m - 1) / BSIZE <= (off + n - 1) / BSIZE;
  }

  /** The file after a write that reports r bytes and has stored `copied`. */
  function Stored(c: seq<int>, off: int, src: seq<int>, copied: int, r: int): (c': seq<int>)
    requires 0 <= off <= |c| && 0 <= r <= copied <= |src|
    ensures |c'| == if off + r > |c| then off + r else |c|
  {
    Patched(c, off, src[..copied])[..if off + r > |c| then off + r else |c|]
  }

  lemma {:induction false} CardSub(a: set<int>, b: set<int>)
    requires a <= b
    ensures |a| <= |b|
  {
    assert b == a + (b - a);
  }

  /** Only blocks of inode i have been given up. */
  ghost predicate OwnerLess(was: map<int, Slot>, now: map<int, Slot>, i: int) {
    forall a :: OwnerLessAt(was, now, i, a)
  }

  ghost predicate OwnerLessAt(was: map<int, Slot>, now: map<int, Slot>, i: int, a: int) {
    && (a in now ==> a in was && now[a] == was[a])
    && (a in was && was[a].ino != i ==> a in now)
  }

  lemma LessTwice(o: map<int, Slot>, o': map<int, Slot>, o'': map<int, Slot>, i: int)
    requires OwnerLess(o, o', i) && OwnerLess(o', o'', i)
    ensures OwnerLess(o, o'', i)
  {
    forall a ensures OwnerLessAt(o, o'', i, a) { assert OwnerLessAt(o, o', i, a) && OwnerLessAt(o', o'', i, a); }
  }

  // ---- what the methods come to ----

  ghost predicate HeldBy(v: View, i: int, b: int) {
    exists k :: IsSlot(v, i, k) && Addr(v.disk, v.inodes[i], k) == b
  }

  /** itrunc returns to the bitmap the blocks of its inode and no others. */
  lemma TruncFrees(sb: Super, v: View, v': View, i: int, b: int)
    requires Owned(sb, v) && v.ex == {} && v.loose == {} && Owned(sb, v') && v'.ex == {} && v'.loose == {}
    requires OwnerLess(v.owner, v'.owner, i) && forall a :: a in v'.owner ==> v'.owner[a].ino != i
    requires 0 < b < sb.size
    ensures UsedAt(sb, v'.disk, b) <==> UsedAt(sb, v.disk, b) && !HeldBy(v, i, b)
  {
    BitmapBelowData(sb, b);
    assert BitOk(sb, v, b) && BitOk(sb, v', b) && OwnerLessAt(v.owner, v'.owner, i, b) && OwnerOk(sb, v, b);
    if k :| IsSlot(v, i, k) && Addr(v.disk, v.inodes[i], k) == b { assert SlotOk(v, i, k); }
  }

  /** A chunk of filewrite: at most MAXOPBLOCKS blocks, and 7 when the bitmap is one block. It can
      be MAXOPBLOCKS only if there are four bitmap blocks and the chunk lies in four blocks of the
      file across the place where the indirect block begins. */
  lemma ChunkBudget(sb: Super, off: int, n: int)
    requires 0 <= off && 0 <= n <= WRITE_MAX
    ensures WriteBudget(sb, off, n) <= MAXOPBLOCKS
    ensures WriteBudget(sb, off, n) == MAXOPBLOCKS <==> Overflows(sb.size, off, n)
    ensures sb.size <= BPB ==> WriteBudget(sb, off, n) <= 7
  {
    assert Spanned(off, n) <= if off % BSIZE == 0 then 3 else 4;
  }

  predicate Overflows(size: int, off: int, n: int) {
    size > 3 * BPB && Spanned(off, n) == 4 && NDIRECT - 3 <= off / BSIZE < NDIRECT
  }

  lemma StoredPrefix(c: seq<int>, off: int, src: seq<int>, k: int)
    requires 0 <= off <= |c| && 0 <= k <= |src|
    ensures Stored(c, off, src, k, k) == Patched(c, off, src[..k])
  {
    var p := Patched(c, off, src[..k]);
    assert p[..|p|] == p;
  }

  lemma StoredLength(c: seq<int>, off: int, src: seq<int>, k: int)
    requires 0 <= off <= |c| && 0 <= k <= |src|
    ensures |Stored(c, off, src, k, k)| >= off + k
  {
  }

  lemma JoinSlices(f: seq<int>, a: int, b: int, c: int)
    requires 0 <= a <= b <= c <= |f|
    ensures f[a..b] + f[b..c] == f[a..c]
  {
  }

  lemma SubBytes(src: seq<int>, i: int, n: int)
    requires Bytes(src) && 0 <= i && 0 <= n && i + n <= |src|
    ensures Bytes(src[i..i + n])
  {
  }

  lemma StoredTwice(c: seq<int>, off: int, src: seq<int>, k: int, w: seq<int>, copied: int, r: int)
    requires 0 <= off <= |c| && 0 <= k && k + |w| <= |src| && w == src[k..k + |w|] && 0 <= r <= copied <= |w|
    ensures off + k <= |Stored(c, off, src, k, k)|
    ensures Stored(Stored(c, off, src, k, k), off + k, w, copied, r) == Stored(c, off, src, k + copied, k + r)
  {
    StoredPrefix(c, off, src, k);
    PatchedTwice(c, off, src[..k], w[..copied]);
    assert src[..k] + w[..copied] == src[..k + copied];
  }

  lemma IndirectPlace(sb: Super, v: View, i: int)
    requires Owned(sb, v) && v.ex == {} && IsSlot(v, i, NDIRECT) && v.inodes[i].addrs[NDIRECT] != 0
    ensures 0 < v.inodes[i].addrs[NDIRECT] < |v.disk| && |v.disk[v.inodes[i].addrs[NDIRECT]]| == BSIZE
  {
    assert SlotOk(v, i, NDIRECT) && OwnerOk(sb, v, v.inodes[i].addrs[NDIRECT]);
  }

  /** Of `avail` bytes from off on, those up to the last boundary between blocks. */
  function WholeBlocks(off: int, avail: int): (r: int)
    requires 0 <= off && 0 <= avail
    ensures 0 <= r <= avail
  {
    if (off + avail) % BSIZE > avail then 0 else avail - (off + avail) % BSIZE
  }

  lemma ShortRound(off: int, tot: int, m: int, avail: int)
    requires 0 <= off && 0 <= tot <= avail < tot + m && m <= BSIZE - (off + tot) % BSIZE
    requires tot == 0 || (off + tot) % BSIZE == 0
    ensures WholeBlocks(off, avail) == tot
  {
    SameBlock(off + tot, avail - tot);
  }

  /** Bytes stored in a block that is taken already. */
  lemma StoredTook(sb: Super, v: View, v1: View, v2: View, l: set<int>, l1: set<int>, l2: set<int>, i: int, bn: int, addr: int)
    requires Owned(sb, v1) && Owned(sb, v2) && v1.loose == {} && v2.loose == {} && v2.owner == v1.owner && |v1.disk| == |v2.disk| && l1 <= l2
    requires Took(sb, v, l, v1, l1, i, bn, bn + 1) && 0 <= addr < |v1.disk| && v2.disk == v1.disk[addr := v2.disk[addr]]
    requires addr in v1.owner && v1.owner[addr] == Slot(i, DataSlot(bn)) && InVolume(sb, l1, l2)
    ensures Took(sb, v, l, v2, l2, i, bn, bn + 1)
  {
    var hi := bn + 1;
    forall a ensures TookAt(sb, v1, v2, l2, i, bn, hi, a) {
      if a == addr { assert bn <= bn < hi; }
    }
    TookBoth(sb, v, l, v1, l1, v2, l2, i, bn, bn + 1, bn, bn + 1);
  }

  /** Every block that has changed is logged. */
  ghost predicate AllLogged(v: View, v': View, l: set<int>) {
    |v'.disk| == |v.disk| && forall a :: a in l || SameBlockAt(v.disk, v'.disk, a)
  }

  /** When all blocks lo..hi are stored whole, but for a last one that is not there. */
  lemma NoneUnlogged(sb: Super, v: View, l: set<int>, v': View, l': set<int>, i: int, lo: int, hi: int, hi': int)
    requires Owned(sb, v') && Took(sb, v, l, v', l', i, lo, hi) && DataLogged(v', l', i, lo, hi')
    requires hi <= hi' || (hi == hi' + 1 && Misses(v', i, hi'))
    ensures AllLogged(v, v', l')
  {
    forall a ensures a in l' || SameBlockAt(v.disk, v'.disk, a) {
      assert TookAt(sb, v, v', l', i, lo, hi, a) && OwnerOk(sb, v', a);
      if HeldIn(v', i, lo, hi, a) {
        var n :| lo <= n < hi && v'.owner[a].idx == DataSlot(n);
        if n < hi' { assert DataLoggedAt(v', l', i, n); }
      }
    }
  }

  lemma SpentStill(sb: Super, l: set<int>, l1: set<int>, l2: set<int>, ind0: int, ind: int, there: bool, far: bool, addr: int, maps: set<int>)
    requires Spent(sb, l, l1, ind0, ind, 1, there, far, Opt(addr), maps) && l2 <= l1 + {addr} && addr != 0
    ensures Spent(sb, l, l2, ind0, ind, 1, there, far, Opt(addr), maps)
  {
  }

  lemma KeepsSelf(v: View)
    ensures forall j :: Keeps(v, v, j)
  {
    forall j ensures Keeps(v, v, j) { forall n ensures KeepOk(v, v, j, n) {} }
  }

  /** Where an entry of the indirect block is. */
  lemma EntryPlace(sb: Super, v: View, i: int, k: int)
    requires Owned(sb, v) && v.ex == {} && IsSlot(v, i, k) && k > NDIRECT && v.inodes[i].addrs[NDIRECT] != 0
    ensures var ind := v.inodes[i].addrs[NDIRECT];
            DataStart(sb) <= ind < sb.size == |v.disk| && IsBlock(v.disk[ind]) && ind !in v.loose
    ensures forall a :: a in v.loose ==> DataStart(sb) <= a < sb.size && a !in v.owner
    ensures GoodDisk(sb, v.disk)
  {
    var ind := v.inodes[i].addrs[NDIRECT];
    assert SlotOk(v, i, NDIRECT) && OwnerOk(sb, v, ind);
    forall a | a in v.loose ensures DataStart(sb) <= a < sb.size && a !in v.owner { assert OwnerOk(sb, v, a); }
  }

  /** The size of an inode changes, and its block is logged. */
  lemma EndTook(sb: Super, v: View, l: set<int>, v1: View, l1: set<int>, v2: View, l2: set<int>, i: int, lo: int, hi: int, hi': int)
    requires GoodDisk(sb, v1.disk) && v2.disk == v1.disk && v2.owner == v1.owner && l1 <= l2
    requires |v2.inodes| == |v1.inodes| && forall j :: 0 <= j < |v1.inodes| ==> v2.inodes[j].addrs == v1.inodes[j].addrs
    requires Took(sb, v, l, v1, l1, i, lo, hi) && DataLogged(v1, l1, i, lo, hi') && InVolume(sb, l1, l2)
    ensures Took(sb, v, l, v2, l2, i, lo, hi) && DataLogged(v2, l2, i, lo, hi')
    ensures AllLogged(v, v1, l1) ==> AllLogged(v, v2, l2)
  {
    forall a ensures TookAt(sb, v, v2, l2, i, lo, hi, a) { assert TookAt(sb, v, v1, l1, i, lo, hi, a); }
    forall n | lo <= n < hi' ensures DataLoggedAt(v2, l2, i, n) { assert DataLoggedAt(v1, l1, i, n); }
  }

  // ---- transactions ----

  /** What the blocks of a file system say between two operations. */
  datatype Stage = Stage(disk: seq<Block>, inodes: seq<Inode>, owner: map<int, Slot>, files: seq<seq<int>>)

  ghost function StageView(st: Stage): View { View(st.disk, st.inodes, st.owner, {}, {}) }

  ghost predicate StageOk(sb: Super, st: Stage) {
    && Owned(sb, StageView(st)) && |st.files| == |st.inodes|
    && forall j :: 0 <= j < |st.files| ==> |st.files[j]| == st.inodes[j].size && FileIs(StageView(st), j, st.files[j])
  }

  /** An operation that logs the blocks o leads from a to b: it has logged every block that it has
      changed, inode blocks included, and no more than begin_op has reserved. */
  ghost predicate Transaction(sb: Super, a: Stage, b: Stage, o: set<int>) {
    && |b.disk| == |a.disk| && |b.inodes| == |a.inodes| && |o| <= MAXOPBLOCKS && InVolume(sb, {}, o)
    && (forall x :: x in o || SameBlockAt(a.disk, b.disk, x))
    && (forall j :: 0 <= j < |a.inodes| && b.inodes[j] != a.inodes[j] ==> IBlock(sb, j) in o)
  }

  /** The file when k chunks of a write of which `done` bytes succeed have ended. */
  ghost predicate AfterChunks(files: seq<seq<int>>, was: seq<seq<int>>, ip: int, off: int, src: seq<int>, done: int, k: int)
    requires 0 <= ip < |was| && 0 <= off <= |was[ip]| && 0 <= done <= |src|
  {
    var m := if k < 0 then 0 else Least(k * WRITE_MAX, done);
    files == was[ip := Stored(was[ip], off, src, m, m)]
  }

  /** The chunks of filewrite, one transaction each. */
  ghost predicate Chunks(sb: Super, stages: seq<Stage>, ops: seq<set<int>>, ip: int, off: int, src: seq<int>, done: int) {
    && |stages| == |ops| + 1 && 0 <= ip < |stages[0].files| && 0 <= off <= |stages[0].files[ip]| && 0 <= done <= |src|
    && (forall k :: 0 <= k < |ops| ==> Transaction(sb, stages[k], stages[k + 1], ops[k]))
    && (forall k :: 0 <= k < |stages| ==>
          StageOk(sb, stages[k]) && AfterChunks(stages[k].files, stages[0].files, ip, off, src, done, k))
  }

  lemma FirstStage(sb: Super, st: Stage, ip: int, off: int, src: seq<int>)
    requires StageOk(sb, st) && 0 <= ip < |st.files| && 0 <= off <= |st.files[ip]|
    ensures Chunks(sb, [st], [], ip, off, src, 0)
  {
    StoredPrefix(st.files[ip], off, src, 0);
    assert Stored(st.files[ip], off, src, 0, 0) == st.files[ip];
    hide StageOk, Stored;
  }

  lemma NextChunk(sb: Super, stages: seq<Stage>, ops: seq<set<int>>, ip: int, off: int, src: seq<int>, i: int, n1: int, r: int, st: Stage)
    requires ops != [] && Chunks(sb, stages, ops[..|ops| - 1], ip, off, src, i) && i == (|ops| - 1) * WRITE_MAX
    requires -1 <= r <= n1 <= WRITE_MAX && i + n1 <= |src| && StageOk(sb, st)
    requires Transaction(sb, stages[|stages| - 1], st, ops[|ops| - 1])
    requires var was := stages[|stages| - 1].files;
             0 <= ip < |was| && 0 <= off <= |stages[0].files[ip]|
             && st.files == if r == -1 then was else was[ip := Stored(stages[0].files[ip], off, src, i + r, i + r)]
    ensures Chunks(sb, stages + [st], ops, ip, off, src, if r > 0 then i + r else i)
  {
    hide StageOk, Stored, Transaction;
    var m := if r > 0 then i + r else i;
    assert AfterChunks(stages[|stages| - 1].files, stages[0].files, ip, off, src, i, |ops| - 1);
    assert AfterChunks(st.files, stages[0].files, ip, off, src, m, |ops|);
    NextStage(sb, stages, ops, ip, off, src, i, m, st);
  }

  lemma NextStage(sb: Super, stages: seq<Stage>, ops: seq<set<int>>, ip: int, off: int, src: seq<int>, i: int, done: int, st: Stage)
    requires ops != [] && Chunks(sb, stages, ops[..|ops| - 1], ip, off, src, i) && i == (|ops| - 1) * WRITE_MAX
    requires i <= done <= |src| && done <= i + WRITE_MAX && StageOk(sb, st)
    requires Transaction(sb, stages[|stages| - 1], st, ops[|ops| - 1])
    requires AfterChunks(st.files, stages[0].files, ip, off, src, done, |ops|)
    ensures Chunks(sb, stages + [st], ops, ip, off, src, done)
  {
    hide StageOk, Stored, Transaction;
    var n := |stages|;
    forall k | 0 <= k < n ensures AfterChunks(stages[k].files, stages[0].files, ip, off, src, done, k) {
      assert AfterChunks(stages[k].files, stages[0].files, ip, off, src, i, k);
      assert k * WRITE_MAX <= i;
    }
    forall k | 0 <= k < |ops| ensures Transaction(sb, (stages + [st])[k], (stages + [st])[k + 1], ops[k]) {
      if k < |ops| - 1 { assert ops[..|ops| - 1][k] == ops[k]; }
    }
  }

  class OpenFile {
    const ip: int
    const writable: bool
    var off: int

    constructor (ip: int, writable: bool, off: int)
      ensures this.ip == ip && this.writable == writable && this.off == off
    {
      this.ip, this.writable, this.off := ip, writable, off;
    }
  }

  class Fs {
    const sb: Super
    var disk: seq<Block>        // what bread returns
    var inodes: seq<Inode>      // the in-memory copies
    var dinodes: seq<Inode>     // the copies in the inode blocks
    ghost var owner: map<int, Slot>
    ghost var logged: set<int>  // blocks passed to log_write since the last begin_op
    ghost var files: seq<seq<int>>

    /** What is on the disk, with nothing logged yet. */
    constructor (sb: Super, disk: seq<Block>, inodes: seq<Inode>, ghost owner: map<int, Slot>, ghost files: seq<seq<int>>)
      ensures this.sb == sb && V({}, {}) == View(disk, inodes, owner, {}, {})
      ensures dinodes == inodes && this.files == files && logged == {}
    {
      this.sb, this.disk, this.inodes, this.dinodes := sb, disk, inodes, inodes;
      this.owner, this.logged, this.files := owner, {}, files;
    }

    ghost function V(loose: set<int>, ex: set<Slot>): View
      reads this
    {
      View(disk, inodes, owner, loose, ex)
    }

    ghost predicate Sound()
      reads this
    {
      Owned(sb, V({}, {}))
    }

    ghost predicate FileOk(i: int)
      reads this
    {
      0 <= i < |inodes| && i < |files| ==>
        && |files[i]| == inodes[i].size <= MAXFILE * BSIZE
        && FileIs(V({}, {}), i, files[i])
    }

    /** Ownership is exact, the inode blocks are up to date, and the files are what the blocks say. */
    ghost predicate Valid()
      reads this
    {
      Sound() && |files| == |inodes| && dinodes == inodes && forall i :: FileOk(i)
    }

    /** The copies of all inodes but i are up to date. */
    ghost predicate Synced(i: int)
      reads this
    {
      |dinodes| == |inodes| && forall j :: 0 <= j < |inodes| && j != i ==> dinodes[j] == inodes[j]
    }

    ghost function Now(): Stage
      reads this
    {
      Stage(disk, dinodes, owner, files)
    }

    lemma ValidStage()
      requires Valid()
      ensures StageOk(sb, Now())
    {
      forall j | 0 <= j < |files| ensures |files[j]| == dinodes[j].size && FileIs(StageView(Now()), j, files[j]) {
        assert FileOk(j);
      }
    }

    // ---- the block allocator ----

    method LogWrite(b: int)
      modifies `logged
      ensures logged == old(logged) + {b}
    {
      logged := logged + {b};
    }

    method Bzero(b: int)
      requires Owned(sb, V({b}, {})) && DataStart(sb) <= b < sb.size
      modifies `disk, `logged
      ensures Owned(sb, V({b}, {})) && disk == old(disk)[b := ZEROS]
      ensures logged == old(logged) + {b}
      ensures forall j :: Keeps(old(V({b}, {})), V({b}, {}), j)
    {
      ghost var v := V({b}, {});
      assert OwnerOk(sb, v, b);
      ZeroWord(0);
      PutOk(sb, v, b, ZEROS);
      DataNoPointers(sb, v, b);
      forall j ensures Keeps(v, Put(v, b, ZEROS), j) { PutKeeps(sb, v, b, ZEROS, j); }
      disk := disk[b := ZEROS];
      LogWrite(b);
    }

    /** The body of balloc's test: mark b, log the bitmap block, zero b. */
    method Take(b: int)
      requires Sound() && 0 <= b < sb.size
      requires 0 <= BBlock(sb, b) < |disk| && !Used(sb, disk, b)
      modifies `disk, `logged
      ensures Owned(sb, V({b}, {})) && DataStart(sb) <= b && b !in owner && disk[b] == ZEROS
      ensures logged == old(logged) + {BBlock(sb, b), b}
      ensures forall a :: a in logged || SameBlockAt(old(disk), disk, a)
      ensures forall a :: DataStart(sb) <= a < sb.size && a != b ==> disk[a] == old(disk)[a]
      ensures forall j :: Keeps(old(V({}, {})), V({b}, {}), j)
    {
      ghost var v := V({}, {});
      FlipOk(sb, v, b, true);
      forall j ensures Keeps(v, Flip(sb, v, b, true), j) { FlipKeeps(sb, v, b, true, j); }
      disk := disk[BBlock(sb, b) := SetBit(disk[BBlock(sb, b)], b % BPB, true)];
      assert V({b}, {}) == Flip(sb, v, b, true) by { assert {} + {b} == {b}; }
      ghost var v1 := V({b}, {});
      LogWrite(BBlock(sb, b));
      Bzero(b);
      forall j ensures Keeps(v, V({b}, {}), j) { KeptTwice(v, v1, V({b}, {}), j); }
    }

    /** The inner loop of balloc: the blocks that one bitmap block speaks of. */
    method BallocIn(b: int) returns (addr: int)
      requires Sound() && 0 <= b < sb.size && b % BPB == 0 && AllUsed(sb, disk, b)
      modifies `disk, `logged
      ensures addr == 0 ==> disk == old(disk) && logged == old(logged) && AllUsed(sb, disk, b + BPB)
      ensures addr != 0 ==> Allocated(old(V({}, {})), old(logged), addr)
    {
      hide Owned, AllUsed, Bit, UsedAt;
      SoundDisk();
      var bi := 0;
      while bi < BPB && b + bi < sb.size
        invariant 0 <= bi <= BPB
        invariant disk == old(disk) && logged == old(logged)
        invariant AllUsed(sb, disk, b + bi)
      {
        OneBit(sb, b, bi);
        if !Bit(disk[BBlock(sb, b)], bi) {
          Take(b + bi);
          return b + bi;
        }
        OneMoreUsed(sb, disk, b, bi);
        bi := bi + 1;
      }
      UsedPastEnd(sb, disk, b + bi, b + BPB);
      return 0;
    }

    /** What a successful balloc leaves. */
    ghost predicate Allocated(v: View, l: set<int>, addr: int)
      reads this
    {
      && Owned(sb, V({addr}, {})) && DataStart(sb) <= addr < sb.size && disk[addr] == ZEROS
      && logged == l + {BBlock(sb, addr), addr} && |v.disk| == sb.size
      && addr !in owner && v.owner == owner && GoodDisk(sb, v.disk) && AllUsed(sb, v.disk, addr)
      && (forall a :: DataStart(sb) <= a < sb.size && a != addr ==> disk[a] == v.disk[a])
      && (forall a :: a in logged || SameBlockAt(v.disk, disk, a))
      && forall j :: Keeps(v, V({addr}, {}), j)
    }

    method Balloc() returns (addr: int)
      requires Sound()
      modifies `disk, `logged
      ensures addr == 0 ==> disk == old(disk) && logged == old(logged) && Full(sb, disk)
      ensures addr != 0 ==> Allocated(old(V({}, {})), old(logged), addr)
    {
      var b := 0;
      assert AllUsed(sb, disk, 0) by { assert forall x :: x < 0 ==> UsedAt(sb, disk, x); }
      hide Keeps, UsedAt;
      while b < sb.size
        invariant 0 <= b && b % BPB == 0
        invariant disk == old(disk) && logged == old(logged)
        invariant AllUsed(sb, disk, b)
      {
        addr := BallocIn(b);
        if addr != 0 { return; }
        b := b + BPB;
      }
      return 0;
    }

    /** bfree, of a block that nobody holds; false is the panic, for a block that is free already. */
    method Bfree(b: int, ghost loose: set<int>, ghost ex: set<Slot>) returns (ok: bool)
      requires Owned(sb, V(loose, ex)) && (b in loose || (DataStart(sb) <= b < sb.size && b !in owner))
      modifies `disk, `logged
      ensures ok <==> old(UsedAt(sb, disk, b))
      ensures ok <==> b in loose
      ensures !ok ==> disk == old(disk) && logged == old(logged)
      ensures ok ==> Owned(sb, V(loose - {b}, ex)) && !UsedAt(sb, disk, b) && BBlock(sb, b) in logged
      ensures |disk| == |old(disk)|
      ensures forall a :: DataStart(sb) <= a < sb.size ==> disk[a] == old(disk[a])
      ensures ok ==> forall j :: Whole(V(loose, ex), j) ==> Keeps(old(V(loose, ex)), V(loose - {b}, ex), j)
    {
      ghost var v := V(loose, ex);
      assert OwnerOk(sb, v, b) && BitOk(sb, v, b);
      BitmapBelowData(sb, b);
      if !Bit(disk[BBlock(sb, b)], b % BPB) { return false; }
      FlipOk(sb, v, b, false);
      forall j | Whole(v, j) ensures Keeps(v, Flip(sb, v, b, false), j) { FlipKeeps(sb, v, b, false, j); }
      disk := disk[BBlock(sb, b) := SetBit(disk[BBlock(sb, b)], b % BPB, false)];
      LogWrite(BBlock(sb, b));
      assert BitOk(sb, V(loose - {b}, ex), b);
      return true;
    }

    // ---- block n of a file ----

    /** if((addr = ip->addrs[k]) == 0) of bmap, for a slot of the inode itself. */
    method Fill(i: int, k: int, ghost bn: int) returns (addr: int)
      requires Sound() && IsSlot(V({}, {}), i, k) && k <= NDIRECT && inodes[i].addrs[k] == 0
      requires k == NDIRECT || k == DataSlot(bn)
      modifies `disk, `logged, `inodes, `owner
      ensures Sound() && (addr == 0 ==> Full(sb, disk) && logged == old(logged) && inodes == old(inodes))
      ensures addr != 0 ==>
                && DataStart(sb) <= addr < sb.size && logged == old(logged) + {BBlock(sb, addr), addr}
                && inodes == old(inodes)[i := old(inodes)[i].(addrs := old(inodes)[i].addrs[k := addr])]
      ensures Took(sb, old(V({}, {})), old(logged), V({}, {}), logged, i, bn, bn + 1)
      ensures forall j :: Keeps(old(V({}, {})), V({}, {}), j)
    {
      ghost var v, l := V({}, {}), logged;
      addr := Balloc();
      if addr == 0 {
        TookNothing(sb, v, l, i, bn, bn + 1);
        forall j ensures Keeps(v, V({}, {}), j) { forall n ensures KeepOk(v, v, j, n) {} }
        return;
      }
      ghost var v1 := V({addr}, {});
      AttachOk(sb, v1, i, k, addr);
      inodes := inodes[i := inodes[i].(addrs := inodes[i].addrs[k := addr])];
      owner := owner[addr := Slot(i, k)];
      assert V({}, {}) == Attach(v1, i, k, addr) by { assert {addr} - {addr} == {}; }
      TookOne(sb, v, l, V({}, {}), logged, i, k, bn, addr);
      forall j ensures Keeps(v, V({}, {}), j) {
        AttachKeeps(sb, v1, i, k, addr, j);
        KeptTwice(v, v1, V({}, {}), j);
      }
    }

    /** if((addr = a[bn]) == 0) of bmap, for an entry of the indirect block. */
    method FillEntry(i: int, k: int, ghost bn: int) returns (addr: int)
      requires Sound() && IsSlot(V({}, {}), i, k) && k > NDIRECT && k == DataSlot(bn)
      requires inodes[i].addrs[NDIRECT] != 0 && Addr(disk, inodes[i], k) == 0
      modifies `disk, `logged, `owner
      ensures Sound() && (addr == 0 ==> Full(sb, disk) && logged == old(logged) && disk == old(disk))
      ensures addr != 0 ==>
                && DataStart(sb) <= addr < sb.size && Addr(disk, inodes[i], k) == addr
                && logged == old(logged) + {BBlock(sb, addr), addr, inodes[i].addrs[NDIRECT]}
      ensures Took(sb, old(V({}, {})), old(logged), V({}, {}), logged, i, bn, bn + 1)
      ensures forall j :: Keeps(old(V({}, {})), V({}, {}), j)
    {
      hide Owned, AllUsed, Keeps, Took, TookAt, Full, SlotOk;
      ghost var v, l := V({}, {}), logged;
      var ind := inodes[i].addrs[NDIRECT];
      EntryPlace(sb, v, i, k);
      addr := Balloc();
      if addr == 0 {
        TookNothing(sb, v, l, i, bn, bn + 1);
        KeepsSelf(v);
        return;
      }
      ghost var v1 := V({addr}, {});
      EntryPlace(sb, v1, i, k);
      EntryOk(sb, v1, i, k, addr);
      WordRoundTrip(disk[ind], k - NDIRECT - 1, addr, k - NDIRECT - 1);
      disk := disk[ind := SetWord(disk[ind], k - NDIRECT - 1, addr)];
      owner := owner[addr := Slot(i, k)];
      LogWrite(ind);
      assert V({}, {}) == AttachEntry(v1, i, k, addr) by { assert {addr} - {addr} == {}; }
      TookOne(sb, v, l, V({}, {}), logged, i, k, bn, addr);
      forall j ensures Keeps(v, V({}, {}), j) {
        EntryKeeps(sb, v1, i, k, addr, j);
        KeptTwice(v, v1, V({}, {}), j);
      }
    }

    /** What one bmap may log: the block itself, the indirect block if the block is found there,
        and a bitmap block for each block it had to allocate. */
    ghost predicate BmapLogged(v: View, l: set<int>, i: int, bn: int, addr: int, maps: set<int>)
      reads this
      requires IsSlot(v, i, DataSlot(bn)) && IsSlot(V({}, {}), i, NDIRECT)
    {
      && InBitmap(sb, maps)
      && logged <= l + maps + Opt(addr) + (if bn >= NDIRECT then Opt(inodes[i].addrs[NDIRECT]) else {})
      && (bn < NDIRECT ==> inodes[i].addrs[NDIRECT] == v.inodes[i].addrs[NDIRECT])
      && |maps| <= (if Addr(v.disk, v.inodes[i], DataSlot(bn)) == 0 then 1 else 0)
                   + (if v.inodes[i].addrs[NDIRECT] == 0 && inodes[i].addrs[NDIRECT] != 0 then 1 else 0)
    }

    /** Sizes, and block numbers already assigned, do not change. */
    ghost predicate Grown(was: seq<Inode>, i: int)
      reads this
    {
      && |inodes| == |was| && (forall j :: 0 <= j < |was| && j != i ==> inodes[j] == was[j])
      && (0 <= i < |was| ==>
            && inodes[i].size == was[i].size
            && |was[i].addrs| == |inodes[i].addrs| == NDIRECT + 1
            && (was[i].addrs[NDIRECT] != 0 ==> inodes[i].addrs[NDIRECT] == was[i].addrs[NDIRECT]))
    }

    /** bmap; `panic` is its panic. */
    method Bmap(i: int, bn: int) returns (addr: int, panic: bool, ghost maps: set<int>)
      requires Sound() && 0 <= i < |inodes| && 0 <= bn
      modifies `disk, `logged, `inodes, `owner
      ensures panic <==> bn >= MAXFILE
      ensures Sound() && Grown(old(inodes), i)
      ensures !panic ==> BlockIs(disk, inodes[i], bn, addr)
      ensures !panic && addr != 0 ==> Addr(disk, inodes[i], DataSlot(bn)) == addr
      ensures !panic && addr == 0 ==> Full(sb, disk) && Addr(disk, inodes[i], DataSlot(bn)) == 0
      ensures !panic ==> IsSlot(old(V({}, {})), i, DataSlot(bn)) && BmapLogged(old(V({}, {})), old(logged), i, bn, addr, maps)
      ensures panic || old(Addr(disk, inodes[i], DataSlot(bn))) != 0 ==> V({}, {}) == old(V({}, {})) && logged == old(logged)
      ensures Took(sb, old(V({}, {})), old(logged), V({}, {}), logged, i, bn, bn + 1)
      ensures !panic && old(Addr(disk, inodes[i], DataSlot(bn))) != 0 ==> addr != 0
      ensures forall j :: Keeps(old(V({}, {})), V({}, {}), j)
    {
      ghost var v := V({}, {});
      addr, panic, maps := 0, false, {};
      TookNothing(sb, v, logged, i, bn, bn + 1);
      forall j ensures Keeps(v, v, j) { forall n ensures KeepOk(v, v, j, n) {} }
      if bn < NDIRECT {
        addr := inodes[i].addrs[bn];
        if addr == 0 {
          addr := Fill(i, bn, bn);
          maps := if addr == 0 then {} else {BBlock(sb, addr)};
          if addr != 0 { InBitmapOne(sb, addr); }
        }
        AddrIsBlock(sb, V({}, {}), i, bn);
        return;
      }
      if bn - NDIRECT < NINDIRECT {
        addr, maps := BmapIndirect(i, bn);
        AddrIsBlock(sb, V({}, {}), i, bn);
        return;
      }
      panic := true;
    }

    method BmapIndirect(i: int, bn: int) returns (addr: int, ghost maps: set<int>)
      requires Sound() && 0 <= i < |inodes| && NDIRECT <= bn < MAXFILE
      modifies `disk, `logged, `inodes, `owner
      ensures Sound() && Grown(old(inodes), i)
      ensures addr != 0 ==> Addr(disk, inodes[i], DataSlot(bn)) == addr
      ensures addr == 0 ==> Full(sb, disk) && Addr(disk, inodes[i], DataSlot(bn)) == 0
      ensures IsSlot(old(V({}, {})), i, DataSlot(bn)) && BmapLogged(old(V({}, {})), old(logged), i, bn, addr, maps)
      ensures old(Addr(disk, inodes[i], DataSlot(bn))) != 0 ==> addr != 0 && V({}, {}) == old(V({}, {})) && logged == old(logged)
      ensures Took(sb, old(V({}, {})), old(logged), V({}, {}), logged, i, bn, bn + 1)
      ensures forall j :: Keeps(old(V({}, {})), V({}, {}), j)
    {
      ghost var v, l := V({}, {}), logged;
      var ind;
      ind, maps := MapIndirect(i, bn);
      if ind == 0 { return 0, {}; }
      ghost var v1, l1, maps1 := V({}, {}), logged, maps;
      hide Took, InBitmap, BmapLogged, Full, Owned, Keeps;
      addr, maps := BmapEntry(i, bn);
      TookBoth(sb, v, l, v1, l1, V({}, {}), logged, i, bn, bn + 1, bn, bn + 1);
      forall j ensures Keeps(v, V({}, {}), j) { KeptTwice(v, v1, V({}, {}), j); }
      LoggedBoth(v, l, v1, l1, i, bn, addr, maps1, maps);
      maps := maps1 + maps;
    }

    /** The indirect block, which is allocated if need be. */
    method MapIndirect(i: int, bn: int) returns (ind: int, ghost maps: set<int>)
      requires Sound() && 0 <= i < |inodes| && NDIRECT <= bn < MAXFILE
      modifies `disk, `logged, `inodes, `owner
      ensures Sound() && Grown(old(inodes), i) && inodes[i].addrs[NDIRECT] == ind && InBitmap(sb, maps)
      ensures ind == 0 ==> Full(sb, disk) && logged == old(logged) && inodes == old(inodes)
      ensures if old(inodes[i].addrs[NDIRECT]) != 0 then V({}, {}) == old(V({}, {})) && maps == {} && logged == old(logged)
              else |maps| <= 1 && (ind != 0 ==> |maps| == 1 && logged <= old(logged) + maps + {ind})
      ensures Took(sb, old(V({}, {})), old(logged), V({}, {}), logged, i, bn, bn + 1)
      ensures forall j :: Keeps(old(V({}, {})), V({}, {}), j)
    {
      ghost var v := V({}, {});
      maps := {};
      forall j ensures Keeps(v, v, j) { forall n ensures KeepOk(v, v, j, n) {} }
      assert |inodes[i].addrs| == NDIRECT + 1;
      TookNothing(sb, v, logged, i, bn, bn + 1);
      hide Full, Owned, Keeps, Took;
      ind := inodes[i].addrs[NDIRECT];
      if ind == 0 {
        ind := Fill(i, NDIRECT, bn);
        if ind == 0 { return 0, {}; }
        maps := {BBlock(sb, ind)};
        InBitmapOne(sb, ind);
      }
    }

    /** The entry of the indirect block, which is there. */
    method BmapEntry(i: int, bn: int) returns (addr: int, ghost maps: set<int>)
      requires Sound() && 0 <= i < |inodes| && NDIRECT <= bn < MAXFILE
      requires |inodes[i].addrs| == NDIRECT + 1 && inodes[i].addrs[NDIRECT] != 0
      modifies `disk, `logged, `owner
      ensures Sound()
      ensures addr != 0 ==> Addr(disk, inodes[i], DataSlot(bn)) == addr
      ensures addr == 0 ==> Full(sb, disk) && Addr(disk, inodes[i], DataSlot(bn)) == 0
      ensures IsSlot(old(V({}, {})), i, DataSlot(bn)) && BmapLogged(old(V({}, {})), old(logged), i, bn, addr, maps)
      ensures old(Addr(disk, inodes[i], DataSlot(bn))) != 0 ==> addr != 0 && V({}, {}) == old(V({}, {})) && logged == old(logged)
      ensures Took(sb, old(V({}, {})), old(logged), V({}, {}), logged, i, bn, bn + 1)
      ensures forall j :: Keeps(old(V({}, {})), V({}, {}), j)
    {
      ghost var v := V({}, {});
      maps := {};
      TookNothing(sb, v, logged, i, bn, bn + 1);
      forall j ensures Keeps(v, v, j) { forall n ensures KeepOk(v, v, j, n) {} }
      IndirectPlace(sb, v, i);
      addr := Word(disk[inodes[i].addrs[NDIRECT]], bn - NDIRECT);
      hide Full, Owned, Keeps, Took;
      if addr == 0 {
        addr := FillEntry(i, DataSlot(bn), bn);
        maps := if addr == 0 then {} else {BBlock(sb, addr)};
        if addr != 0 { InBitmapOne(sb, addr); }
      }
    }

    lemma LoggedBoth(v: View, l: set<int>, v1: View, l1: set<int>, i: int, bn: int, addr: int, maps: set<int>, maps': set<int>)
      requires NDIRECT <= bn && IsSlot(v, i, DataSlot(bn)) && IsSlot(v1, i, DataSlot(bn)) && IsSlot(V({}, {}), i, NDIRECT)
      requires BmapLogged(v1, l1, i, bn, addr, maps') && InBitmap(sb, maps) && v1.inodes[i].addrs[NDIRECT] != 0
      requires inodes[i].addrs[NDIRECT] == v1.inodes[i].addrs[NDIRECT]
      requires (v.inodes[i].addrs[NDIRECT] == 0 && |maps| == 1 && l1 <= l + maps + Opt(v1.inodes[i].addrs[NDIRECT]))
            || (v1 == v && maps == {} && l1 == l)
      requires Addr(v1.disk, v1.inodes[i], DataSlot(bn)) == 0 ==> Addr(v.disk, v.inodes[i], DataSlot(bn)) == 0
      ensures BmapLogged(v, l, i, bn, addr, maps + maps')
    {
      CardPlus(maps, maps');
    }

    // ---- writing ----

    /** A write to file i is under way: its blocks hold c, and the other files are as `files` says. */
    ghost predicate Writing(i: int, c: seq<int>)
      reads this
    {
      && Sound() && 0 <= i < |inodes| == |files| && Synced(i)
      && (forall j :: j != i ==> FileOk(j)) && FileIs(V({}, {}), i, c)
    }

    ghost predicate Has(i: int, n: int)
      reads this
    {
      0 <= n < MAXFILE && IsSlot(V({}, {}), i, DataSlot(n)) && Addr(disk, inodes[i], DataSlot(n)) != 0
    }

    /** One round of writei: w is what either_copyin delivered, all of it if `whole`. */
    method WriteBlock(i: int, off: int, w: seq<int>, whole: bool, ghost c: seq<int>)
        returns (mapped: bool, ghost there: bool, ghost data: set<int>, ghost maps: set<int>)
      requires Writing(i, c) && 0 <= off <= |c| && Bytes(w)
      requires off / BSIZE < MAXFILE && off % BSIZE + |w| <= BSIZE
      modifies `disk, `logged, `inodes, `owner
      ensures Grown(old(inodes), i)
      ensures Writing(i, if mapped then Patched(c, off, w) else c) && GoodDisk(sb, disk)
      ensures !mapped ==> Full(sb, disk) && Misses(V({}, {}), i, off / BSIZE)
      ensures Spent(sb, old(logged), logged, old(inodes[i].addrs[NDIRECT]), inodes[i].addrs[NDIRECT], 1,
                    there, off / BSIZE >= NDIRECT, data, maps)
      ensures Took(sb, old(V({}, {})), old(logged), V({}, {}), logged, i, off / BSIZE, off / BSIZE + 1)
      ensures Places(old(V({}, {})), V({}, {}), i)
      ensures mapped && whole ==> DataLoggedAt(V({}, {}), logged, i, off / BSIZE)
      ensures there == old(Has(i, off / BSIZE))
    {
      hide Owned, Took, Places, Keeps, FileIs, FileOk, Full, Has, InBitmap, Spent, Misses, DataLoggedAt, GoodDisk, Synced, Patched;
      ghost var v, l := V({}, {}), logged;
      there := Has(i, off / BSIZE);
      var addr;
      addr, maps := MapBlock(i, off, c);
      data := Opt(addr);
      if addr == 0 { return false, there, data, maps; }
      ghost var v1, l1 := V({}, {}), logged;
      StoreIn(i, off, w, whole, addr, c, v);
      SoundDisk();
      SpentStill(sb, l, l1, logged, v.inodes[i].addrs[NDIRECT], inodes[i].addrs[NDIRECT], there, off / BSIZE >= NDIRECT, addr, maps);
      StoredTook(sb, v, v1, V({}, {}), l, l1, logged, i, off / BSIZE, addr);
      mapped := true;
    }

    /** What readi and writei start from. */
    lemma SizeOf(i: int)
      requires Valid() && 0 <= i < |inodes|
      ensures |files| == |inodes| && |files[i]| == inodes[i].size <= MAXFILE * BSIZE && |inodes[i].addrs| == NDIRECT + 1
      ensures Writing(i, files[i]) && dinodes == inodes && GoodDisk(sb, disk) && sb.inodestart <= IBlock(sb, i) < sb.size
    {
      assert FileOk(i);
    }

    lemma SoundDisk()
      requires Sound()
      ensures GoodDisk(sb, disk)
    {
    }

    /** bmap, for a write to block off / BSIZE of file i. */
    method MapBlock(i: int, off: int, ghost c: seq<int>) returns (addr: int, ghost maps: set<int>)
      requires Writing(i, c) && 0 <= off <= |c| && off / BSIZE < MAXFILE
      modifies `disk, `logged, `inodes, `owner
      ensures Grown(old(inodes), i) && Writing(i, c)
      ensures if addr == 0 then GoodDisk(sb, disk) && Full(sb, disk) && Misses(V({}, {}), i, off / BSIZE)
              else IsSlot(V({}, {}), i, DataSlot(off / BSIZE)) && Addr(disk, inodes[i], DataSlot(off / BSIZE)) == addr
      ensures Spent(sb, old(logged), logged, old(inodes[i].addrs[NDIRECT]), inodes[i].addrs[NDIRECT], 1,
                    old(Has(i, off / BSIZE)), off / BSIZE >= NDIRECT, Opt(addr), maps)
      ensures Took(sb, old(V({}, {})), old(logged), V({}, {}), logged, i, off / BSIZE, off / BSIZE + 1)
      ensures Places(old(V({}, {})), V({}, {}), i)
    {
      hide Owned, Took, FileIs, Full, InBitmap, Keeps, Places, BlockIs;
      ghost var v := V({}, {});
      var panic;
      addr, panic, maps := Bmap(i, off / BSIZE);
      SoundDisk();
      forall j | j != i ensures FileOk(j) {
        if 0 <= j < |inodes| { assert old(FileOk(j)); KeptFile(v, V({}, {}), j, files[j]); }
      }
      KeptFile(v, V({}, {}), i, c);
      KeepsPlaces(v, V({}, {}), i);
    }

    /** The bytes go to the block that bmap gave, which is logged when they are all there. */
    method StoreIn(i: int, off: int, w: seq<int>, whole: bool, addr: int, ghost c: seq<int>, ghost v: View)
      requires Writing(i, c) && 0 <= off <= |c| && Bytes(w) && Places(v, V({}, {}), i)
      requires off / BSIZE < MAXFILE && off % BSIZE + |w| <= BSIZE
      requires IsSlot(V({}, {}), i, DataSlot(off / BSIZE)) && Addr(disk, inodes[i], DataSlot(off / BSIZE)) == addr != 0
      modifies `disk, `logged
      ensures Writing(i, Patched(c, off, w)) && Places(v, V({}, {}), i)
      ensures logged == if whole then old(logged) + {addr} else old(logged)
      ensures whole ==> DataLoggedAt(V({}, {}), logged, i, off / BSIZE)
      ensures |disk| == |old(disk)| == sb.size && sb.inodestart <= addr < sb.size && disk == old(disk)[addr := disk[addr]]
      ensures addr in owner && owner[addr] == Slot(i, DataSlot(off / BSIZE))
    {
      ghost var v1 := V({}, {});
      ChunkWritten(sb, v1, i, c, off, w);
      assert SlotOk(v1, i, DataSlot(off / BSIZE)) && OwnerOk(sb, v1, addr);
      var blk := Patched(disk[addr], off % BSIZE, w);
      ChunkPlaces(sb, v, v1, i, addr, blk);
      ChunkStays(sb, v1, i, addr, blk, off / BSIZE);
      disk := disk[addr := blk];
      if whole { LogWrite(addr); }
      assert V({}, {}) == Put(v1, addr, blk);
      hide Owned, Places, ChunkReady;
      forall j | j != i ensures FileOk(j) {
        if 0 <= j < |inodes| { assert old(FileOk(j)); KeptFile(v1, V({}, {}), j, files[j]); }
      }
    }

    method Iupdate(i: int)
      requires 0 <= i < |inodes| == |dinodes|
      modifies `dinodes, `logged
      ensures dinodes == old(dinodes)[i := inodes[i]] && logged == old(logged) + {IBlock(sb, i)}
    {
      dinodes := dinodes[i := inodes[i]];
      LogWrite(IBlock(sb, i));
    }

    /** The state in the loop of writei, after rounds for `tot` bytes since v, of which `whole` came whole. */
    ghost predicate Wrote(v: View, l: set<int>, i: int, c: seq<int>, off: int, tot: int, whole: int, data: set<int>, maps: set<int>)
      reads this
    {
      && 0 <= off && 0 <= i < |v.inodes| && |v.inodes[i].addrs| == NDIRECT + 1
      && Grown(v.inodes, i) && Writing(i, c)
      && Spent(sb, l, logged, v.inodes[i].addrs[NDIRECT], inodes[i].addrs[NDIRECT], Spanned(off, tot), off % BSIZE != 0,
               Far(off, tot), data, maps)
      && Took(sb, v, l, V({}, {}), logged, i, off / BSIZE, off / BSIZE + Spanned(off, tot))
      && DataLogged(V({}, {}), logged, i, off / BSIZE, off / BSIZE + Spanned(off, whole))
    }

    lemma WroteMeans(v: View, l: set<int>, i: int, c: seq<int>, off: int, tot: int, whole: int, data: set<int>, maps: set<int>)
      requires Wrote(v, l, i, c, off, tot, whole, data, maps)
      ensures 0 <= i < |v.inodes| == |inodes| && |v.inodes[i].addrs| == |inodes[i].addrs| == NDIRECT + 1 && GoodDisk(sb, disk)
      ensures Grown(v.inodes, i) && Writing(i, c)
      ensures Spent(sb, l, logged, v.inodes[i].addrs[NDIRECT], inodes[i].addrs[NDIRECT], Spanned(off, tot), off % BSIZE != 0,
                    Far(off, tot), data, maps)
      ensures Took(sb, v, l, V({}, {}), logged, i, off / BSIZE, off / BSIZE + Spanned(off, tot))
      ensures DataLogged(V({}, {}), logged, i, off / BSIZE, off / BSIZE + Spanned(off, whole))
    {
    }

    /** After `tot` bytes from off on, a round begins at the start of a block, or is the first. */
    static predicate AtStart(off: int, tot: int) { tot == 0 || (off + tot) % BSIZE == 0 }

    static lemma RoundFits(off: int, tot: int, n: int, avail: int, m: int)
      requires 0 <= off && 0 <= tot <= avail && tot < n && AtStart(off, tot) && m == RoundSize(off + tot, n - tot)
      ensures tot + m < n ==> AtStart(off, tot + m)
      ensures tot + m > avail ==> WholeBlocks(off, avail) == tot
      ensures m <= BSIZE - (off + tot) % BSIZE && (tot == 0 || (off + tot) % BSIZE == 0)
    {
      if tot + m > avail { ShortRound(off, tot, m, avail); }
    }

    /** A block some of whose bytes are in the file is already there. */
    lemma FirstIsThere(i: int, c: seq<int>, off: int)
      requires Writing(i, c) && 0 <= off <= |c| && off % BSIZE != 0
      ensures Has(i, off / BSIZE)
    {
      assert ByteIs(V({}, {}), i, c, off - 1);
      assert (off - 1) / BSIZE == off / BSIZE;
    }

    /** One round of the loop, for the m bytes of src from tot on; either_copyin can read
        only the first `avail` bytes of src. */
    method WriteRound(i: int, src: seq<int>, avail: int, off0: int, tot: int, ghost v0: View,
                      ghost l: set<int>, ghost c0: seq<int>, ghost data: set<int>, ghost maps: set<int>)
        returns (m: int, mapped: bool, copied: int, ghost data': set<int>, ghost maps': set<int>)
      requires 0 <= tot <= avail && tot < |src| && Bytes(src) && 0 <= off0 <= |c0|
      requires AtStart(off0, tot) && off0 + |src| <= MAXFILE * BSIZE
      requires Wrote(v0, l, i, Patched(c0, off0, src[..tot]), off0, tot, tot, data, maps)
      modifies `disk, `logged, `inodes, `owner
      ensures 0 < m <= |src| - tot && (tot + m < |src| ==> AtStart(off0, tot + m)) && m <= BSIZE - (off0 + tot) % BSIZE
      ensures copied == if !mapped then tot else if tot + m <= avail then tot + m else avail
      ensures tot <= copied <= tot + m && (mapped && tot + m > avail ==> WholeBlocks(off0, avail) == tot)
      ensures Wrote(v0, l, i, Patched(c0, off0, src[..copied]), off0, tot + m, if mapped && tot + m <= avail then tot + m else tot,
                    data', maps')
      ensures !mapped ==> GoodDisk(sb, disk) && Full(sb, disk) && Misses(V({}, {}), i, (off0 + tot) / BSIZE)
    {
      hide Owned, FileIs, FileOk, Spanned, Spent, Full, Patched, Has, InBitmap, Bytes, Took, DataLogged, DataLoggedAt, Places, Far;
      hide Wrote, Synced, GoodDisk, RoundSize, WholeBlocks, AtStart, Misses, OwnerOk, Keeps;
      WroteMeans(v0, l, i, Patched(c0, off0, src[..tot]), off0, tot, tot, data, maps);
      ghost var c := Patched(c0, off0, src[..tot]);
      m := RoundSize(off0 + tot, |src| - tot);
      RoundFits(off0, tot, |src|, avail, m);
      var whole := tot + m <= avail;
      var w := if whole then src[tot..tot + m] else src[tot..avail];
      ghost var v1, l1 := V({}, {}), logged;
      RoundReady(src, avail, off0, tot, m, w, c0);
      if tot == 0 && off0 % BSIZE != 0 { FirstIsThere(i, c, off0); }
      ghost var d, ms, t;
      mapped, t, d, ms := WriteBlock(i, off0 + tot, w, whole, c);
      copied := if mapped then tot + |w| else tot;
      data', maps' := data + d, maps + ms;
      ghost var lo, mid, k, here, far := off0 / BSIZE, (off0 + tot) / BSIZE, Spanned(off0, tot), off0 % BSIZE != 0, Far(off0, tot);
      ghost var done := if mapped && whole then mid + 1 else mid;
      Joined(sb, v0, l, v1, l1, V({}, {}), logged, i, lo, mid, k, here, far, t, mid >= NDIRECT, mapped && whole, data, maps, d, ms);
      MakeWrote(v0, l, i, Patched(c0, off0, src[..copied]), off0, tot + m, if mapped && whole then tot + m else tot, data', maps',
                k + 1, done, here, far || mid >= NDIRECT);
    }

    lemma MakeWrote(v: View, l: set<int>, i: int, c: seq<int>, off: int, tot: int, whole: int, d: set<int>, ms: set<int>,
                    n: int, hi: int, here: bool, far: bool)
      requires 0 <= off && 0 <= i < |v.inodes| && |v.inodes[i].addrs| == NDIRECT + 1 && Grown(v.inodes, i) && Writing(i, c)
      requires |inodes| == |v.inodes| && |inodes[i].addrs| == NDIRECT + 1 && GoodDisk(sb, disk)
      requires 0 <= n == Spanned(off, tot) && hi == off / BSIZE + Spanned(off, whole) && here == (off % BSIZE != 0) && far == Far(off, tot)
      requires Spent(sb, l, logged, v.inodes[i].addrs[NDIRECT], inodes[i].addrs[NDIRECT], n, here, far, d, ms)
      requires Took(sb, v, l, V({}, {}), logged, i, off / BSIZE, off / BSIZE + n) && DataLogged(V({}, {}), logged, i, off / BSIZE, hi)
      ensures Wrote(v, l, i, c, off, tot, whole, d, ms)
    {
      hide Owned, FileIs, FileOk, Spanned, Spent, Took, DataLogged, Far, Writing, Grown;
    }

    /** The end of writei: the size, the inode, and what the file now is. */
    method WriteEnd(i: int, off: int, ghost c: seq<int>)
      requires Writing(i, c) && 0 <= off <= |c| <= MAXFILE * BSIZE
      requires 0 <= inodes[i].size <= |c|
      modifies `inodes, `dinodes, `logged, `files
      ensures Valid() && logged == old(logged) + {IBlock(sb, i)}
      ensures var size := if off > old(inodes[i].size) then off else old(inodes[i].size);
              && inodes == old(inodes)[i := old(inodes[i]).(size := size)]
              && files == old(files)[i := c[..size]]
      ensures dinodes == old(dinodes)[i := inodes[i]]
    {
      ghost var v := V({}, {});
      ghost var size := if off > inodes[i].size then off else inodes[i].size;
      SizeOk(sb, v, i, size);
      if off > inodes[i].size {
        inodes := inodes[i := inodes[i].(size := off)];
      }
      assert V({}, {}) == SetSize(v, i, size);
      Iupdate(i);
      files := files[i := c[..size]];
      forall j ensures FileOk(j) {
        if 0 <= j < |inodes| && j != i { assert old(FileOk(j)); KeptFile(v, V({}, {}), j, files[j]); }
        if j == i { FileShorter(v, i, c, size); KeptFile(v, V({}, {}), i, files[i]); }
      }
    }

    /** The loop of writei: r bytes done, `copied` bytes stored. */
    method WriteLoop(i: int, src: seq<int>, avail: int, off0: int, n: int, ghost c0: seq<int>)
        returns (r: int, ghost copied: int)
      requires Writing(i, c0) && 0 <= off0 <= |c0| && off0 + n <= MAXFILE * BSIZE
      requires |inodes[i].addrs| == NDIRECT + 1
      requires 0 <= n == |src| && Bytes(src) && 0 <= avail
      modifies `disk, `logged, `inodes, `owner
      ensures 0 <= r <= copied <= n && Grown(old(inodes), i) && GoodDisk(sb, disk)
      ensures Writing(i, Patched(c0, off0, src[..copied]))
      ensures Ends(i, off0, n, avail, r, copied)
      ensures forall b :: |(logged + {b}) - old(logged)| <= WriteBudget(sb, off0, n)
      ensures Took(sb, old(V({}, {})), old(logged), V({}, {}), logged, i, off0 / BSIZE, off0 / BSIZE + Spanned(off0, n))
      ensures DataLogged(V({}, {}), logged, i, off0 / BSIZE, off0 / BSIZE + Spanned(off0, r))
      ensures avail >= n ==> AllLogged(old(V({}, {})), V({}, {}), logged)
    {
      hide Owned, FileIs, FileOk, Took, DataLogged, WriteBudget, Spent, Spanned, Far, Writing, Wrote, Grown, Patched, Misses, AllLogged, Full;
      hide Ends, WholeBlocks, AtStart, Bytes, Fs.Sound, GoodDisk, Fs.Valid;
      ghost var v, l := V({}, {}), logged;
      ghost var data, maps := {}, {};
      r, copied := 0, 0;
      LoopStart(i, off0, c0, src);
      while r < n
        invariant 0 <= r <= n && copied == r && (r > 0 ==> r <= avail)
        invariant r < n ==> AtStart(off0, r)
        invariant Wrote(v, l, i, Patched(c0, off0, src[..r]), off0, r, r, data, maps)
      {
        var m, mapped, c;
        m, mapped, c, data, maps := WriteRound(i, src, avail, off0, r, v, l, c0, data, maps);
        copied := c;
        if !mapped || c < r + m {
          LoopDone(v, l, i, Patched(c0, off0, src[..copied]), off0, r + m, r, n, data, maps);
          LoopEnds(i, off0, n, avail, r, copied, mapped);
          if avail >= n { LoopLogs(v, l, i, Patched(c0, off0, src[..copied]), off0, r + m, r, data, maps); }
          return;
        }
        r := r + m;
      }
      LoopDone(v, l, i, Patched(c0, off0, src[..copied]), off0, r, r, n, data, maps);
      LoopEnds(i, off0, n, avail, r, copied, true);
      LoopLogs(v, l, i, Patched(c0, off0, src[..copied]), off0, r, r, data, maps);
    }

    lemma LoopStart(i: int, off: int, c: seq<int>, src: seq<int>)
      requires Writing(i, c) && 0 <= off <= |c| && |inodes[i].addrs| == NDIRECT + 1
      ensures Patched(c, off, src[..0]) == c && Wrote(V({}, {}), logged, i, c, off, 0, 0, {}, {}) && AtStart(off, 0)
      ensures off % BSIZE != 0 && off / BSIZE >= NDIRECT ==> inodes[i].addrs[NDIRECT] != 0
    {
      TookNothing(sb, V({}, {}), logged, i, off / BSIZE, off / BSIZE);
      if off % BSIZE != 0 && off / BSIZE >= NDIRECT { FirstIsThere(i, c, off); }
    }

    lemma LoopDone(v: View, l: set<int>, i: int, c: seq<int>, off: int, upto: int, r: int, n: int, data: set<int>, maps: set<int>)
      requires Wrote(v, l, i, c, off, upto, r, data, maps) && 0 <= off && 0 <= upto <= n && (n > 0 ==> upto > 0)
      requires 0 <= i < |v.inodes| && |v.inodes[i].addrs| == NDIRECT + 1
      requires off % BSIZE != 0 && off / BSIZE >= NDIRECT ==> v.inodes[i].addrs[NDIRECT] != 0
      ensures Grown(v.inodes, i) && Writing(i, c) && GoodDisk(sb, disk)
      ensures forall b :: |(logged + {b}) - l| <= WriteBudget(sb, off, n)
      ensures Took(sb, v, l, V({}, {}), logged, i, off / BSIZE, off / BSIZE + Spanned(off, n))
      ensures DataLogged(V({}, {}), logged, i, off / BSIZE, off / BSIZE + Spanned(off, r))
    {
      hide Owned, FileIs, FileOk, Took, DataLogged, WriteBudget, Spent, Grown, Far;
      WroteMeans(v, l, i, c, off, upto, r, data, maps);
      BudgetEnough(sb, l, logged, v.inodes[i].addrs[NDIRECT], inodes[i].addrs[NDIRECT], off, upto, n, data, maps);
      SpannedMonotone(off, upto, n);
      TookWider(sb, v, l, V({}, {}), logged, i, off / BSIZE, off / BSIZE + Spanned(off, upto), off / BSIZE + Spanned(off, n));
    }

    lemma LoopLogs(v: View, l: set<int>, i: int, c: seq<int>, off: int, upto: int, r: int, data: set<int>, maps: set<int>)
      requires Wrote(v, l, i, c, off, upto, r, data, maps)
      requires upto == r || (0 <= r < upto && AtStart(off, r) && upto - r <= BSIZE - (off + r) % BSIZE && Misses(V({}, {}), i, (off + r) / BSIZE))
      ensures AllLogged(v, V({}, {}), logged)
    {
      hide Owned, FileIs, FileOk, Took, DataLogged, Spent, Grown, Far, Misses, AllLogged;
      WroteMeans(v, l, i, c, off, upto, r, data, maps);
      assert Owned(sb, V({}, {}));
      if upto > r { OneMoreBlock(off, r, upto); }
      NoneUnlogged(sb, v, l, V({}, {}), logged, i, off / BSIZE, off / BSIZE + Spanned(off, upto), off / BSIZE + Spanned(off, r));
    }

    static lemma OneMoreBlock(off: int, r: int, upto: int)
      requires 0 <= off && 0 <= r < upto && AtStart(off, r) && upto - r <= BSIZE - (off + r) % BSIZE
      ensures Spanned(off, upto) == Spanned(off, r) + 1 && off / BSIZE + Spanned(off, r) == (off + r) / BSIZE
    {
    }

    lemma LoopEnds(i: int, off: int, n: int, avail: int, r: int, copied: int, mapped: bool)
      requires GoodDisk(sb, disk) && 0 <= off && 0 <= avail && 0 <= r <= n
      requires || (r == n && copied == r <= avail)
               || (!mapped && copied == r && r < n && Full(sb, disk) && Misses(V({}, {}), i, (off + r) / BSIZE))
               || (copied == avail < n && r == WholeBlocks(off, avail))
      ensures Ends(i, off, n, avail, r, copied)
    {
    }

    /** How writei ends: with all n bytes; or at a block that a full disk has no room for; or at
        byte `avail`, which it cannot read. Then all bytes before that one are stored, and those up
        to the last boundary between blocks are reported. */
    ghost predicate Ends(i: int, off: int, n: int, avail: int, r: int, copied: int)
      reads this
      requires GoodDisk(sb, disk) && 0 <= off && 0 <= avail
    {
      || (copied == r && if r == n then avail >= n else Full(sb, disk) && Misses(V({}, {}), i, (off + r) / BSIZE))
      || (copied == avail < n && r == WholeBlocks(off, avail))
    }

    /** writei. `copied` bytes reached the file; the other files, and this one elsewhere, are untouched. */
    method Writei(i: int, src: seq<int>, avail: int, off0: int, n: int) returns (r: int, ghost copied: int)
      requires Valid() && 0 <= i < |inodes| && 0 <= off0 < UINT && 0 <= n < UINT && |src| == n && Bytes(src) && 0 <= avail
      modifies `disk, `logged, `inodes, `dinodes, `owner, `files
      ensures Valid() && |inodes| == old(|inodes|)
      ensures r == -1 <==> off0 > |old(files[i])| || off0 + n > MAXFILE * BSIZE
      ensures r == -1 ==> V({}, {}) == old(V({}, {})) && files == old(files) && dinodes == old(dinodes) && logged == old(logged)
      ensures r != -1 ==> 0 <= r <= copied <= n && files == old(files)[i := Stored(old(files[i]), off0, src, copied, r)]
      ensures r != -1 ==> dinodes == old(dinodes)[i := inodes[i]]
      ensures r != -1 ==> Ends(i, off0, n, avail, r, copied)
      ensures r != -1 ==> |logged - old(logged)| <= WriteBudget(sb, off0, n)
      ensures r != -1 ==>
                && Took(sb, old(V({}, {})), old(logged), V({}, {}), logged, i, off0 / BSIZE, off0 / BSIZE + Spanned(off0, n))
                && DataLogged(V({}, {}), logged, i, off0 / BSIZE, off0 / BSIZE + Spanned(off0, r)) && IBlock(sb, i) in logged
      ensures r != -1 && avail >= n ==> AllLogged(old(V({}, {})), V({}, {}), logged)
    {
      hide FileOk, FileIs, Full, WriteBudget, Bytes, WholeBlocks, Spanned, Owned, Took, DataLogged, AllLogged, Fs.Valid, Writing, GoodDisk;
      copied := 0;
      SizeOf(i);
      if off0 > inodes[i].size || (off0 + n) % UINT < off0 { return -1, 0; }
      if off0 + n > MAXFILE * BSIZE { return -1, 0; }
      ghost var v, l, c0 := V({}, {}), logged, files[i];
      r, copied := WriteLoop(i, src, avail, off0, n, c0);
      ghost var v1, l1 := V({}, {}), logged;
      WriteEnd(i, off0 + r, Patched(c0, off0, src[..copied]));
      EndTook(sb, v, l, v1, l1, V({}, {}), logged, i, off0 / BSIZE, off0 / BSIZE + Spanned(off0, n), off0 / BSIZE + Spanned(off0, r));
    }

    // ---- reading ----

    /** readi into a user buffer with room for `room` bytes; `out` is what either_copyout delivered. */
    method Readi(i: int, off0: int, n0: int, room: int) returns (r: int, out: seq<int>)
      requires Valid() && 0 <= i < |inodes| && 0 <= off0 < UINT && 0 <= n0 < UINT && 0 <= room
      modifies `disk, `logged, `inodes, `owner
      ensures Valid() && V({}, {}) == old(V({}, {})) && logged == old(logged)
      ensures off0 > |files[i]| || off0 + n0 >= UINT ==> r == 0 && out == []
      ensures off0 <= |files[i]| && off0 + n0 < UINT ==>
                var n := if off0 + n0 > |files[i]| then |files[i]| - off0 else n0;
                && r == (if n <= room then n else -1)
                && out == files[i][off0..off0 + if n <= room then n else room]
      ensures forall k :: 0 <= k < |out| ==> StoredAt(disk, inodes[i], off0 + k, out[k])
    {
      hide Owned, FileIs, FileOk, RoundSize, Fs.Valid, Writing, GoodDisk, Fs.Sound, StoredAt;
      SizeOf(i);
      out := [];
      if off0 > inodes[i].size || (off0 + n0) % UINT < off0 { return 0, []; }
      var n := if off0 + n0 > inodes[i].size then inodes[i].size - off0 else n0;
      r, out := ReadLoop(i, off0, n, room);
      BytesAt(i);
    }

    /** Where the bytes of a file are. */
    lemma BytesAt(i: int)
      requires Valid() && 0 <= i < |inodes|
      ensures forall k :: 0 <= k < |files[i]| ==> StoredAt(disk, inodes[i], k, files[i][k])
    {
      hide Owned, FileIs, StoredAt;
      assert FileOk(i);
      forall k | 0 <= k < |files[i]| ensures StoredAt(disk, inodes[i], k, files[i][k]) {
        FileBytes(sb, V({}, {}), i, files[i], k);
      }
    }

    /** The loop of readi. */
    method ReadLoop(i: int, off0: int, n: int, room: int) returns (r: int, out: seq<int>)
      requires Valid() && 0 <= i < |inodes| && i < |files| && 0 <= off0 && 0 <= n && off0 + n <= |files[i]| && 0 <= room
      modifies `disk, `logged, `inodes, `owner
      ensures Valid() && V({}, {}) == old(V({}, {})) && logged == old(logged)
      ensures r == if n <= room then n else -1
      ensures out == files[i][off0..off0 + if n <= room then n else room]
    {
      hide Owned, FileIs, FileOk, RoundSize, Fs.Valid, GoodDisk, Fs.Sound;
      out := [];
      var tot := 0;
      while tot < n
        invariant 0 <= tot <= n && tot <= room
        invariant Valid() && V({}, {}) == old(V({}, {})) && logged == old(logged)
        invariant out == files[i][off0..off0 + tot]
        invariant tot < n ==> tot == 0 || (off0 + tot) % BSIZE == 0
      {
        var m := RoundSize(off0 + tot, n - tot);
        var whole := tot + m <= room;
        var w := ReadBlock(i, off0 + tot, if whole then m else room - tot);
        JoinSlices(files[i], off0, off0 + tot, off0 + tot + |w|);
        out := out + w;
        if !whole { return -1, out; }
        tot := tot + m;
      }
      r := tot;
    }

    /** One round of readi: m bytes of one block of the file. */
    method ReadBlock(i: int, off: int, m: int) returns (w: seq<int>)
      requires Valid() && 0 <= i < |inodes| && 0 <= off < |files[i]| && 0 <= m
      requires off + m <= |files[i]| && off % BSIZE + m <= BSIZE
      modifies `disk, `logged, `inodes, `owner
      ensures Valid() && V({}, {}) == old(V({}, {})) && logged == old(logged)
      ensures w == files[i][off..off + m]
    {
      assert FileOk(i) && ByteIs(V({}, {}), i, files[i], off);
      var addr, panic, maps := Bmap(i, off / BSIZE);
      forall j ensures FileOk(j) { assert old(FileOk(j)); }
      w := disk[addr][off % BSIZE..off % BSIZE + m];
      forall k | 0 <= k < m ensures w[k] == files[i][off + k] {
        SameBlock(off, k);
        assert FileOk(i) && ByteIs(V({}, {}), i, files[i], off + k);
        assert Addr(disk, inodes[i], DataSlot((off + k) / BSIZE)) == addr;
      }
    }

    // ---- truncating ----

    /** One round of the first loop of itrunc. */
    method FreeDirect(i: int, k: int) returns (ok: bool)
      requires Sound() && IsSlot(V({}, {}), i, k) && k < NDIRECT && inodes[i].addrs[k] != 0
      modifies `disk, `logged, `inodes, `owner
      ensures ok && Sound()
      ensures inodes == old(inodes)[i := old(inodes)[i].(addrs := old(inodes)[i].addrs[k := 0])]
      ensures OwnerLess(old(owner), owner, i)
      ensures forall j :: j != i ==> Keeps(old(V({}, {})), V({}, {}), j)
    {
      ghost var v, a, ex := V({}, {}), inodes[i].addrs[k], {Slot(i, k)};
      assert SlotOk(v, i, k);
      DetachOk(sb, v, i, k);
      owner := owner - {a};
      ghost var v1 := V({a}, ex);
      assert v1 == Detach(v, i, k) by { assert {} + {a} == {a} && {} + {Slot(i, k)} == ex; }
      ok := Bfree(inodes[i].addrs[k], {a}, ex);
      ghost var v2 := V({}, ex);
      assert {a} - {a} == {};
      ClearOk(sb, v2, i, k);
      inodes := inodes[i := inodes[i].(addrs := inodes[i].addrs[k := 0])];
      assert V({}, {}) == Clear(v2, i, k) by { assert ex == SlotsFrom(i, k); }
      forall j | j != i ensures Keeps(v, V({}, {}), j) {
        forall n ensures KeepOk(v, v1, j, n) && KeepOk(v2, V({}, {}), j, n) {}
        KeptTwice(v, v1, v2, j);
        KeptTwice(v, v2, V({}, {}), j);
      }
    }

    /** The entries of the indirect block of i before entry n. */
    ghost function Entries(i: int, n: int): set<Slot> {
      set x | NDIRECT < x < NSLOT && x <= NDIRECT + n :: Slot(i, x)
    }

    /** One round of the second loop of itrunc. */
    method FreeEntry(i: int, n: int) returns (ok: bool)
      requires Owned(sb, V({}, Entries(i, n))) && IsSlot(V({}, {}), i, NDIRECT) && 0 <= n < NINDIRECT
      requires DataStart(sb) <= inodes[i].addrs[NDIRECT] < sb.size
      modifies `disk, `logged, `owner
      ensures ok && Owned(sb, V({}, Entries(i, n + 1)))
      ensures |disk| == old(|disk|) && OwnerLess(old(owner), owner, i)
      ensures forall j :: j != i ==> Keeps(old(V({}, {})), V({}, {}), j)
    {
      ghost var ex, ex' := Entries(i, n), Entries(i, n + 1);
      ghost var v, k := V({}, ex), NDIRECT + 1 + n;
      assert ex' == ex + {Slot(i, k)} && Slot(i, k) !in ex;
      DetachOk(sb, v, i, k);
      var a := Word(disk[inodes[i].addrs[NDIRECT]], n);
      assert a == Addr(disk, inodes[i], k) && SlotOk(v, i, k);
      ok := true;
      if a != 0 {
        owner := owner - {a};
        ghost var v1 := V({a}, ex');
        assert v1 == Detach(v, i, k) by { assert {} + {a} == {a}; }
        ok := Bfree(a, {a}, ex');
        assert {a} - {a} == {};
        forall j | j != i ensures Keeps(old(V({}, {})), V({}, {}), j) {
          assert Keeps(v1, V({}, ex'), j);
          forall n ensures KeepOk(old(V({}, {})), V({}, {}), j, n) { assert KeepOk(v1, V({}, ex'), j, n); }
        }
      } else {
        assert V({}, ex') == Detach(v, i, k);
        forall j | j != i ensures Keeps(old(V({}, {})), V({}, {}), j) { forall n ensures KeepOk(v, v, j, n) {} }
      }
    }

    /** The end of the second half of itrunc: the indirect block itself. */
    method FreeIndirect(i: int) returns (ok: bool)
      requires Owned(sb, V({}, Entries(i, NINDIRECT))) && IsSlot(V({}, {}), i, NDIRECT) && inodes[i].addrs[NDIRECT] != 0
      modifies `disk, `logged, `inodes, `owner
      ensures ok && Sound()
      ensures inodes == old(inodes)[i := old(inodes)[i].(addrs := old(inodes)[i].addrs[NDIRECT := 0])]
      ensures OwnerLess(old(owner), owner, i)
      ensures forall j :: j != i ==> Keeps(old(V({}, {})), V({}, {}), j)
    {
      ghost var ex, ex' := Entries(i, NINDIRECT), SlotsFrom(i, NDIRECT);
      ghost var v, a := V({}, ex), inodes[i].addrs[NDIRECT];
      assert ex' == ex + {Slot(i, NDIRECT)} && Slot(i, NDIRECT) !in ex;
      assert SlotOk(v, i, NDIRECT);
      DetachOk(sb, v, i, NDIRECT);
      owner := owner - {a};
      ghost var v1 := V({a}, ex');
      assert v1 == Detach(v, i, NDIRECT) by { assert {} + {a} == {a}; }
      ok := Bfree(inodes[i].addrs[NDIRECT], {a}, ex');
      ghost var v2 := V({}, ex');
      assert {a} - {a} == {};
      ClearOk(sb, v2, i, NDIRECT);
      inodes := inodes[i := inodes[i].(addrs := inodes[i].addrs[NDIRECT := 0])];
      assert V({}, {}) == Clear(v2, i, NDIRECT) by { assert ex' - SlotsFrom(i, NDIRECT) == {}; }
      forall j | j != i ensures Keeps(old(V({}, {})), V({}, {}), j) {
        assert Keeps(v1, v2, j);
        forall n ensures KeepOk(old(V({}, {})), V({}, {}), j, n) { assert KeepOk(v1, v2, j, n); }
      }
    }

    /** itrunc is under way: it started from v, and the slots of inode i below `upto` are empty. */
    ghost predicate Truncating(v: View, i: int, upto: int)
      reads this
    {
      && Sound() && 0 <= i < |inodes| == |v.inodes|
      && |inodes[i].addrs| == |v.inodes[i].addrs| == NDIRECT + 1
      && (forall j :: 0 <= j < |inodes| && j != i ==> inodes[j] == v.inodes[j])
      && (forall k :: 0 <= k < upto && k <= NDIRECT ==> inodes[i].addrs[k] == 0)
      && OwnerLess(v.owner, owner, i) && forall j :: j != i ==> Keeps(v, V({}, {}), j)
    }

    method TruncDirect(i: int) returns (ok: bool)
      requires Sound() && 0 <= i < |inodes|
      modifies `disk, `logged, `inodes, `owner
      ensures ok && Truncating(old(V({}, {})), i, NDIRECT)
    {
      ghost var v := V({}, {});
      ok := true;
      forall j ensures Keeps(v, v, j) { forall n ensures KeepOk(v, v, j, n) {} }
      assert OwnerLess(v.owner, owner, i) by { forall a ensures OwnerLessAt(v.owner, owner, i, a) {} }
      hide Owned, Keeps, OwnerLess;
      for k := 0 to NDIRECT
        invariant ok && Truncating(v, i, k)
      {
        if inodes[i].addrs[k] != 0 {
          ghost var v1 := V({}, {});
          ok := FreeDirect(i, k);
          LessTwice(v.owner, v1.owner, owner, i);
          forall j | j != i ensures Keeps(v, V({}, {}), j) { KeptTwice(v, v1, V({}, {}), j); }
        }
      }
    }

    method TruncIndirect(i: int) returns (ok: bool)
      requires Sound() && 0 <= i < |inodes|
      modifies `disk, `logged, `inodes, `owner
      ensures ok && Sound() && OwnerLess(old(owner), owner, i)
      ensures inodes == old(inodes)[i := old(inodes)[i].(addrs := old(inodes)[i].addrs[NDIRECT := 0])]
      ensures forall j :: j != i ==> Keeps(old(V({}, {})), V({}, {}), j)
    {
      ghost var v := V({}, {});
      ok := true;
      forall j ensures Keeps(v, v, j) { forall n ensures KeepOk(v, v, j, n) {} }
      assert OwnerLess(v.owner, owner, i) by { forall a ensures OwnerLessAt(v.owner, owner, i, a) {} }
      if inodes[i].addrs[NDIRECT] == 0 {
        assert inodes[i].addrs[NDIRECT := 0] == inodes[i].addrs;
        return;
      }
      assert SlotOk(v, i, NDIRECT) && OwnerOk(sb, v, inodes[i].addrs[NDIRECT]);
      assert Entries(i, 0) == {};
      hide Owned, Keeps, OwnerLess;
      for n := 0 to NINDIRECT
        invariant ok && Owned(sb, V({}, Entries(i, n))) && |disk| == old(|disk|)
        invariant inodes == v.inodes && OwnerLess(v.owner, owner, i)
        invariant forall j :: j != i ==> Keeps(v, V({}, {}), j)
      {
        ghost var v1 := V({}, {});
        ok := FreeEntry(i, n);
        LessTwice(v.owner, v1.owner, owner, i);
        forall j | j != i ensures Keeps(v, V({}, {}), j) { KeptTwice(v, v1, V({}, {}), j); }
      }
      ghost var v2 := V({}, {});
      ok := FreeIndirect(i);
      LessTwice(v.owner, v2.owner, owner, i);
      forall j | j != i ensures Keeps(v, V({}, {}), j) { KeptTwice(v, v2, V({}, {}), j); }
    }

    /** itrunc; `ok` says that no bfree has panicked. */
    method Itrunc(i: int) returns (ok: bool)
      requires Valid() && 0 <= i < |inodes|
      modifies `disk, `logged, `inodes, `owner, `dinodes, `files
      ensures ok && Valid()
      ensures inodes == old(inodes)[i := Inode(0, seq(NDIRECT + 1, _ => 0))] && dinodes == old(dinodes)[i := inodes[i]]
      ensures files == old(files)[i := []]
      ensures OwnerLess(old(owner), owner, i) && forall a :: a in owner ==> owner[a].ino != i
    {
      ghost var v := V({}, {});
      ok := TruncDirect(i);
      ghost var v1 := V({}, {});
      var ok' := TruncIndirect(i);
      ok := ok && ok';
      LessTwice(v.owner, v1.owner, owner, i);
      forall a | a in owner ensures owner[a].ino != i { assert OwnerOk(sb, V({}, {}), a); }
      forall j | j != i ensures FileOk(j) {
        if 0 <= j < |inodes| {
          assert old(FileOk(j));
          KeptTwice(v, v1, V({}, {}), j);
          KeptFile(v, V({}, {}), j, files[j]);
        }
      }
      TruncEnd(i);
      assert inodes[i].addrs == seq(NDIRECT + 1, _ => 0);
    }

    /** ip->size = 0; iupdate(ip). */
    method TruncEnd(i: int)
      requires Sound() && 0 <= i < |inodes| == |files| && Synced(i) && forall j :: j != i ==> FileOk(j)
      modifies `logged, `inodes, `dinodes, `files
      ensures Valid() && inodes == old(inodes)[i := old(inodes)[i].(size := 0)]
      ensures dinodes == old(dinodes)[i := inodes[i]] && files == old(files)[i := []]
    {
      ghost var v := V({}, {});
      SizeOk(sb, v, i, 0);
      inodes := inodes[i := inodes[i].(size := 0)];
      assert V({}, {}) == SetSize(v, i, 0);
      Iupdate(i);
      files := files[i := []];
      forall j ensures FileOk(j) {
        if 0 <= j < |inodes| && j != i { assert old(FileOk(j)); KeptFile(v, V({}, {}), j, files[j]); }
        if j == i { forall k ensures ByteIs(V({}, {}), i, [], k) {} }
      }
    }

    // ---- filewrite ----

    /** One round of filewrite: one begin_op and its end_op. */
    method WriteChunk(f: OpenFile, src: seq<int>, avail: int, i: int, n1: int, ghost c0: seq<int>, ghost off0: int)
        returns (r: int, ghost copied: int)
      requires Valid() && 0 <= f.ip < |inodes| && 0 <= off0 && 0 <= f.off < UINT && 0 <= avail && Bytes(src)
      requires 0 <= i && 0 < n1 <= WRITE_MAX && i + n1 <= |src| && f.off == off0 + i
      requires f.ip < |files| && (off0 > |c0| ==> i == 0 && files[f.ip] == c0)
      requires off0 <= |c0| ==> files[f.ip] == Stored(c0, off0, src, i, i)
      modifies `disk, `logged, `inodes, `dinodes, `owner, `files, f`off
      ensures Valid() && |inodes| == old(|inodes|)
      ensures f.off == old(f.off) + (if r > 0 then r else 0) && f.off < UINT
      ensures off0 > |c0| ==> r == -1
      ensures r == -1 ==> files == old(files) && (off0 <= |c0| ==> off0 + i + n1 > MAXFILE * BSIZE)
      ensures r != -1 ==>
                && off0 <= |c0| && 0 <= r <= copied <= n1
                && files == old(files)[f.ip := Stored(c0, off0, src, i + copied, i + r)]
                && (r < n1 ==> avail < i + n1 || Full(sb, disk))
                && (avail >= i + n1 ==> copied == r)
      ensures SmallOp(logged)
      ensures avail >= i + n1 ==> Transaction(sb, old(Now()), Now(), logged)
    {
      hide Owned, FileIs, FileOk, Full, Bytes, WriteBudget, Stored, Patched, Valid, Spanned;
      BeginOp();
      var w := src[i..i + n1];
      if off0 <= |c0| { StoredLength(c0, off0, src, i); }
      SubBytes(src, i, n1);
      r, copied := Writei(f.ip, w, if avail > i then avail - i else 0, f.off, n1);
      if r > 0 { f.off := f.off + r; }
      ChunkBudget(sb, off0 + i, n1);
      assert logged - {} == logged;
      if r != -1 { StoredTwice(c0, off0, src, i, w, copied, r); }
    }

    /** begin_op, for the count of logged blocks. */
    method BeginOp()
      requires Valid()
      modifies `logged
      ensures Valid() && logged == {}
    {
      logged := {};
      forall j ensures FileOk(j) { assert old(FileOk(j)); }
    }

    ghost predicate SmallOp(o: set<int>)
    {
      |o| <= MAXOPBLOCKS && (sb.size <= BPB ==> |o| <= 7)
    }

    /** How far filewrite has come: `done` of the bytes are reported and `copied` are stored. */
    ghost predicate Reached(f: OpenFile, src: seq<int>, off0: int, ops: seq<set<int>>, done: int, copied: int, stages: seq<Stage>, whole: bool)
      reads this, f
    {
      && Valid() && f.off == off0 + done < UINT && stages != [] && stages[|stages| - 1] == Now() && 0 <= off0
      && 0 <= f.ip < |stages[0].files| == |files| && 0 <= done <= copied <= |src|
      && (forall o :: o in ops ==> SmallOp(o))
      && (if off0 > |stages[0].files[f.ip]| then done == copied == 0 && files == stages[0].files && !whole
          else files == stages[0].files[f.ip := Stored(stages[0].files[f.ip], off0, src, copied, done)])
      && (whole ==> Chunks(sb, stages, ops, f.ip, off0, src, done))
    }

    /** One round of filewrite's loop. */
    method WriteNext(f: OpenFile, src: seq<int>, avail: int, i: int, ghost off0: int, ghost ops: seq<set<int>>,
                     ghost stages: seq<Stage>, ghost whole: bool)
        returns (r: int, n1: int, ghost ops': seq<set<int>>, ghost done: int, ghost copied: int, ghost stages': seq<Stage>)
      requires Reached(f, src, off0, ops, i, i, stages, whole) && 0 <= i < |src| && Bytes(src) && 0 <= avail
      requires whole ==> i == |ops| * WRITE_MAX && avail >= |src|
      modifies `disk, `logged, `inodes, `dinodes, `owner, `files, f`off
      ensures n1 == Least(|src| - i, WRITE_MAX) && |ops'| == |ops| + 1 && stages' != [] && stages'[0] == stages[0]
      ensures Reached(f, src, off0, ops', done, copied, stages', whole)
      ensures r == n1 ==> done == copied == i + r && off0 <= |stages[0].files[f.ip]|
      ensures r != n1 ==> i <= done < i + n1
      ensures r != n1 && off0 <= |stages[0].files[f.ip]| ==> avail < |src| || Full(sb, disk) || off0 + |src| > MAXFILE * BSIZE
    {
      hide Owned, FileIs, FileOk, Full, Bytes, Stored, StageOk, Transaction, Chunks, AfterChunks, Fs.Valid, SmallOp;
      n1 := |src| - i;
      if n1 > WRITE_MAX { n1 := WRITE_MAX; }
      ReachedIn(f, src, off0, ops, i, stages, whole);
      ghost var c0 := stages[0].files[f.ip];
      ghost var cp;
      r, cp := WriteChunk(f, src, avail, i, n1, c0, off0);
      ops', done, copied := ops + [logged], if r > 0 then i + r else i, if r >= 0 then i + cp else i;
      assert ops'[..|ops|] == ops;
      ValidStage();
      if whole { NextChunk(sb, stages, ops', f.ip, off0, src, i, n1, r, Now()); }
      stages' := stages + [Now()];
    }

    lemma ReachedIn(f: OpenFile, src: seq<int>, off0: int, ops: seq<set<int>>, i: int, stages: seq<Stage>, whole: bool)
      requires Reached(f, src, off0, ops, i, i, stages, whole)
      ensures |inodes| == |files|
    {
    }

    /** filewrite on an inode. `ops` lists, for each begin_op, the blocks logged before its end_op;
        `done` bytes were reported by writei and `copied` stored. */
    method Filewrite(f: OpenFile, src: seq<int>, avail: int, n: int)
        returns (ret: int, ghost ops: seq<set<int>>, ghost done: int, ghost copied: int, ghost stages: seq<Stage>)
      requires Valid() && 0 <= f.ip < |inodes| && 0 <= f.off < UINT && 0 <= avail
      requires n < UINT / 2 && |src| == (if n < 0 then 0 else n) && Bytes(src)
      modifies `disk, `logged, `inodes, `dinodes, `owner, `files, f`off
      ensures Valid() && |inodes| == old(|inodes|)
      ensures ret == n || ret == -1
      ensures !f.writable || n < 0 || old(f.off > |files[f.ip]|) ==> files == old(files) && f.off == old(f.off)
      ensures f.writable && n >= 0 && old(f.off <= |files[f.ip]|) ==>
                && 0 <= done <= copied <= n && f.off == old(f.off) + done
                && files == old(files)[f.ip := Stored(old(files[f.ip]), old(f.off), src, copied, done)]
                && (ret == n <==> done == n)
                && (ret != n ==> avail < n || Full(sb, disk) || old(f.off) + n > MAXFILE * BSIZE)
      ensures forall o :: o in ops ==> SmallOp(o)
      ensures stages != [] && stages[0] == old(Now()) && stages[|stages| - 1] == Now()
      ensures f.writable && 0 <= n <= avail && old(f.off <= |files[f.ip]|) ==>
                Chunks(sb, stages, ops, f.ip, old(f.off), src, done)
    {
      hide Owned, FileIs, FileOk, Full, Bytes, Stored, StageOk, Transaction, Chunks, AfterChunks, SmallOp, Reached, Spanned, Took;
      ops, done, copied, stages := [], 0, 0, [Now()];
      if !f.writable { return -1, ops, 0, 0, stages; }
      ghost var off0, whole := f.off, 0 <= n <= avail && f.off <= |files[f.ip]|;
      StartReached(f, src, whole);
      var i := 0;
      while i < n
        invariant 0 <= i <= |src| && i == done == copied
        invariant Reached(f, src, off0, ops, i, i, stages, whole) && stages != [] && stages[0] == old(Now())
        invariant whole ==> i == n || i == |ops| * WRITE_MAX
      {
        var r, n1;
        r, n1, ops, done, copied, stages := WriteNext(f, src, avail, i, off0, ops, stages, whole);
        if r != n1 { break; }
        i := i + r;
      }
      EndReached(f, src, off0, ops, done, copied, stages, whole);
      ret := if i == n then n else -1;
    }

    lemma StartReached(f: OpenFile, src: seq<int>, whole: bool)
      requires Valid() && 0 <= f.ip < |inodes| && 0 <= f.off < UINT && (whole ==> f.off <= |files[f.ip]|)
      ensures Reached(f, src, f.off, [], 0, 0, [Now()], whole)
    {
      ValidStage();
      hide Owned, FileIs, FileOk, StageOk;
      var c0 := files[f.ip];
      if f.off <= |c0| {
        StoredPrefix(c0, f.off, src, 0);
        assert Stored(c0, f.off, src, 0, 0) == c0;
      }
      if whole { FirstStage(sb, Now(), f.ip, f.off, src); }
    }

    lemma EndReached(f: OpenFile, src: seq<int>, off0: int, ops: seq<set<int>>, done: int, copied: int, stages: seq<Stage>, whole: bool)
      requires Reached(f, src, off0, ops, done, copied, stages, whole)
      ensures Valid() && f.off == off0 + done && (forall o :: o in ops ==> SmallOp(o)) && 0 <= done <= copied <= |src|
      ensures stages[|stages| - 1] == Now() && 0 <= f.ip < |stages[0].files| == |files| == |inodes| && 0 <= off0
      ensures if off0 > |stages[0].files[f.ip]| then done == copied == 0 && files == stages[0].files
              else files == stages[0].files[f.ip := Stored(stages[0].files[f.ip], off0, src, copied, done)]
      ensures copied == 0 ==> files == stages[0].files
      ensures whole ==> Chunks(sb, stages, ops, f.ip, off0, src, done)
    {
      var c0 := stages[0].files[f.ip];
      if off0 <= |c0| && copied == 0 {
        StoredPrefix(c0, off0, src, 0);
        assert Stored(c0, off0, src, 0, 0) == c0;
      }
      hide Stored, Fs.Valid, SmallOp, Chunks;
    }
  }
}
