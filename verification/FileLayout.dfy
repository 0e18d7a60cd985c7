/** Where on the disk the bytes of a file, the bits of the bitmap and the inodes lie:
    Lab3/xv6-riscv/kernel/fs.c and fs.h, in terms of block numbers, words and bytes. */
module FileLayout {
  import opened FsBlocks
  import opened Inodes
  import opened InodeSteps

  // ---- the blocks of a file ----

  /** The blocks of a file lie in the order of the places of its inode. */
  lemma BlocksInOrder(m: int, n: int)
    requires 0 <= m < n < 268
    ensures 0 <= DataSlot(m) < DataSlot(n) < 269
  {
  }

  /** Each place but addrs[12], the indirect block's own, holds one block of the file. */
  lemma OneBlockEach(k: int)
    requires 0 <= k < 269
    ensures k != 12 <==> exists n :: 0 <= n < 268 && DataSlot(n) == k
  {
    assert k < 12 ==> DataSlot(k) == k;
    assert k > 12 ==> DataSlot(k - 1) == k;
  }

  /** Block number a is that of block n of the file: an entry of the inode for the first
      twelve, a word of the indirect block for the other 256. 0 stands for none. */
  ghost predicate BlockIs(d: seq<Block>, ip: Inode, n: int, a: int) {
    && |ip.addrs| == 13 && 0 <= n < 268
    && (n < 12 ==> a == ip.addrs[n])
    && (n >= 12 ==>
          var ind := ip.addrs[12];
          if ind == 0 then a == 0 else 0 < ind < |d| && |d[ind]| == 1024 && a == Word(d[ind], n - 12))
  }

  lemma AddrIsBlock(sb: Super, v: View, i: int, n: int)
    requires Owned(sb, v) && v.ex == {} && 0 <= i < |v.inodes| && 0 <= n < MAXFILE
    ensures BlockIs(v.disk, v.inodes[i], n, Addr(v.disk, v.inodes[i], DataSlot(n)))
  {
    assert IsSlot(v, i, NDIRECT) && SlotOk(v, i, NDIRECT) && OwnerOk(sb, v, v.inodes[i].addrs[NDIRECT]);
  }

  /** Byte k of the file is byte k % 1024 of its block k / 1024. */
  ghost predicate StoredAt(d: seq<Block>, ip: Inode, k: int, x: int) {
    exists a :: 0 < a < |d| && BlockIs(d, ip, k / 1024, a) && |d[a]| == 1024 && d[a][k % 1024] == x
  }

  /** Where the bytes of a file are. */
  lemma FileBytes(sb: Super, v: View, i: int, c: seq<int>, k: int)
    requires Owned(sb, v) && v.ex == {} && 0 <= i < |v.inodes| && FileIs(v, i, c) && 0 <= k < |c|
    ensures StoredAt(v.disk, v.inodes[i], k, c[k])
  {
    assert ByteIs(v, i, c, k);
    AddrIsBlock(sb, v, i, k / BSIZE);
    hide Owned, FileIs;
    var a := Addr(v.disk, v.inodes[i], DataSlot(k / BSIZE));
    assert 0 < a < |v.disk| && BlockIs(v.disk, v.inodes[i], k / 1024, a);
  }

  /** And the other way: what is read at the places of the blocks is the file. */
  lemma BytesOfFile(sb: Super, v: View, i: int, c: seq<int>)
    requires Owned(sb, v) && v.ex == {} && 0 <= i < |v.inodes|
    requires forall k :: 0 <= k < |c| ==> StoredAt(v.disk, v.inodes[i], k, c[k])
    ensures FileIs(v, i, c)
  {
    forall k ensures ByteIs(v, i, c, k) {
      if 0 <= k < |c| {
        assert StoredAt(v.disk, v.inodes[i], k, c[k]);
        var a :| 0 < a < |v.disk| && BlockIs(v.disk, v.inodes[i], k / 1024, a) && v.disk[a][k % 1024] == c[k];
        AddrIsBlock(sb, v, i, k / BSIZE);
      }
    }
  }

  // ---- the bitmap ----

  /** Which bit says that block b is in use: the places of two blocks never meet. */
  lemma BitmapPlaces(sb: Super, d: seq<Block>, b: int)
    requires GoodDisk(sb, d) && 0 <= b < sb.size
    ensures sb.bmapstart + b / 8192 < |d|
    ensures BBlock(sb, b) == sb.bmapstart + b / 8192
    ensures Used(sb, d, b) <==> d[sb.bmapstart + b / 8192][b % 8192 / 8] / [1, 2, 4, 8, 16, 32, 64, 128][b % 8] % 2 == 1
  {
    BitmapBelowData(sb, b);
    var x, k := d[sb.bmapstart + b / 8192][b % 8192 / 8], b % 8;
    BitOfByte(x, k);
    assert b % 8192 % 8 == k;
  }

  lemma BitOfByte(x: int, k: int)
    requires 0 <= k < 8
    ensures BitOf(x, k) <==> x / [1, 2, 4, 8, 16, 32, 64, 128][k] % 2 == 1
  {
    BitOfPower(x, k);
    assert Pow2(1) == 2 && Pow2(2) == 4 && Pow2(3) == 8 && Pow2(4) == 16;
    assert Pow2(5) == 32 && Pow2(6) == 64 && Pow2(7) == 128;
  }

  lemma {:induction false} BitOfPower(x: int, k: nat)
    ensures Pow2(k) > 0 && (BitOf(x, k) <==> x / Pow2(k) % 2 == 1)
    decreases k
  {
    if k > 0 {
      BitOfPower(x / 2, k - 1);
      DivTwice(x, Pow2(k - 1));
    }
  }

  lemma DivTwice(x: int, p: int)
    requires p > 0
    ensures x / 2 / p == x / (2 * p)
  {
    var q, r := x / 2 / p, x / 2 % p;
    assert x / 2 == q * p + r;
    assert x == 2 * (q * p + r) + x % 2;
    assert x == q * (2 * p) + (2 * r + x % 2);
    Quotient(x, 2 * p, q, 2 * r + x % 2);
  }

  lemma Quotient(x: int, p: int, q: int, r: int)
    requires p > 0 && x == q * p + r && 0 <= r < p
    ensures x / p == q
  {
    var e := x / p - q;
    assert x == x / p * p + x % p;
    assert e * p == r - x % p;
    assert e > 0 ==> e * p >= p;
    assert e < 0 ==> e * p <= -p;
  }

  // ---- words and inodes ----

  /** The bytes of a word, least significant first. */
  lemma WordBytes(b: Block, i: int)
    requires IsBlock(b) && 0 <= i < NINDIRECT
    ensures 0 <= Word(b, i) < UINT
    ensures Word(b, i) % 256 == b[4 * i] && Word(b, i) / 256 % 256 == b[4 * i + 1]
    ensures Word(b, i) / 65536 % 256 == b[4 * i + 2] && Word(b, i) / 16777216 == b[4 * i + 3]
  {
    var b0, b1, b2, b3 := b[4 * i], b[4 * i + 1], b[4 * i + 2], b[4 * i + 3];
    assert 0 <= b0 < 256 && 0 <= b1 < 256 && 0 <= b2 < 256 && 0 <= b3 < 256;
    var w := Word(b, i);
    Quotient(w, 256, b1 + 256 * b2 + 65536 * b3, b0);
    Quotient(w, 65536, b2 + 256 * b3, b0 + 256 * b1);
    Quotient(w, 16777216, b3, b0 + 256 * b1 + 65536 * b2);
  }

  /** Sixteen inodes lie in each block of the inode area, in order. */
  lemma InodePlaces(sb: Super, i: int)
    requires 0 <= i
    ensures 0 <= i - 16 * (IBlock(sb, i) - sb.inodestart) < 16
  {
  }
}
