/** Which inode owns which block, and what the blocks of an inode say:
    Lab3/xv6-riscv/kernel/fs.c:49-105 and 382-539 on values. */
module Inodes {
  import opened FsBlocks

  const NDIRECT := 12
  const MAXFILE := 268         // NDIRECT + NINDIRECT
  const IPB := 16              // BSIZE / sizeof(struct dinode)
  const NSLOT := 269           // the places of an inode that hold a block number

  datatype Super = Super(size: nat, ninodes: nat, logstart: nat, nlog: nat, inodestart: nat, bmapstart: nat)

  datatype Inode = Inode(size: nat, addrs: seq<int>)

  /** A place that holds a block number: addrs[idx] for idx <= NDIRECT, entry
      idx - NDIRECT - 1 of the indirect block above that. */
  datatype Slot = Slot(ino: int, idx: int)

  /** `owner` says which slot holds each block in use. A loose block is marked used and not
      yet, or no longer, held; the slots of `ex` are not to be read any more. */
  datatype View = View(disk: seq<Block>, inodes: seq<Inode>, owner: map<int, Slot>, loose: set<int>, ex: set<Slot>)

  function BBlock(sb: Super, b: int): int { b / BPB + sb.bmapstart }

  function IBlock(sb: Super, i: int): int { i / IPB + sb.inodestart }

  /** mkfs puts the log first among the metadata and the bitmap last. */
  function DataStart(sb: Super): int { sb.bmapstart + sb.size / BPB + 1 }

  ghost predicate GoodSuper(sb: Super) {
    && 2 <= sb.logstart && sb.logstart + sb.nlog <= sb.inodestart && IBlock(sb, sb.ninodes) < sb.bmapstart
    && DataStart(sb) <= sb.size < UINT / 2
  }

  ghost predicate GoodDisk(sb: Super, d: seq<Block>) {
    GoodSuper(sb) && |d| == sb.size && forall b :: 0 <= b < |d| ==> IsBlock(d[b])
  }

  lemma BitmapBelowData(sb: Super, b: int)
    requires GoodSuper(sb) && 0 <= b < sb.size
    ensures sb.bmapstart <= BBlock(sb, b) < DataStart(sb)
  {
  }

  predicate Used(sb: Super, d: seq<Block>, b: int)
    requires 0 <= b && 0 <= BBlock(sb, b) < |d| && |d[BBlock(sb, b)]| == BSIZE
  {
    Bit(d[BBlock(sb, b)], b % BPB)
  }

  /** The block number in slot idx, 0 for none. */
  function Addr(d: seq<Block>, ip: Inode, idx: int): int
    requires |ip.addrs| == NDIRECT + 1 && 0 <= idx < NSLOT
  {
    if idx <= NDIRECT then ip.addrs[idx]
    else
      var ind := ip.addrs[NDIRECT];
      if 0 < ind < |d| && |d[ind]| == BSIZE then Word(d[ind], idx - NDIRECT - 1) else 0
  }

  /** The slot of block n of a file. */
  function DataSlot(n: int): int { if n < NDIRECT then n else n + 1 }

  ghost predicate IsSlot(v: View, i: int, k: int) {
    0 <= i < |v.inodes| && |v.inodes[i].addrs| == NDIRECT + 1 && 0 <= k < NSLOT
  }

  ghost predicate SlotOk(v: View, i: int, k: int) {
    IsSlot(v, i, k) && Slot(i, k) !in v.ex ==>
      var a := Addr(v.disk, v.inodes[i], k);
      a != 0 ==> a in v.owner && v.owner[a] == Slot(i, k)
  }

  ghost predicate OwnerOk(sb: Super, v: View, a: int) {
    && (a in v.loose ==> DataStart(sb) <= a < sb.size)
    && (a in v.owner ==>
          var s := v.owner[a];
          && DataStart(sb) <= a < sb.size && a !in v.loose && s !in v.ex
          && IsSlot(v, s.ino, s.idx) && Addr(v.disk, v.inodes[s.ino], s.idx) == a)
  }

  /** The bitmap is exact: a block is in use when it is metadata, held by a slot, or loose. */
  ghost predicate BitOk(sb: Super, v: View, b: int)
    requires GoodDisk(sb, v.disk)
  {
    0 <= b < sb.size ==>
      (BitmapBelowData(sb, b); Used(sb, v.disk, b) <==> b < DataStart(sb) || b in v.owner || b in v.loose)
  }

  ghost predicate ExOk(v: View, i: int, k: int) {
    Slot(i, NDIRECT) in v.ex && NDIRECT < k < NSLOT ==> Slot(i, k) in v.ex
  }

  ghost predicate Owned(sb: Super, v: View) {
    && GoodDisk(sb, v.disk) && |v.inodes| == sb.ninodes
    && (forall i :: 0 <= i < |v.inodes| ==> |v.inodes[i].addrs| == NDIRECT + 1)
    && (forall i, k :: SlotOk(v, i, k))
    && (forall a :: OwnerOk(sb, v, a))
    && (forall b :: BitOk(sb, v, b))
    && (forall i, k :: ExOk(v, i, k))
  }

  /** A block held by two slots would be held by one. */
  lemma HeldOnce(sb: Super, v: View, s: Slot, t: Slot)
    requires Owned(sb, v) && s !in v.ex && t !in v.ex
    requires IsSlot(v, s.ino, s.idx) && IsSlot(v, t.ino, t.idx)
    requires Addr(v.disk, v.inodes[s.ino], s.idx) == Addr(v.disk, v.inodes[t.ino], t.idx) != 0
    ensures s == t
  {
    assert SlotOk(v, s.ino, s.idx) && SlotOk(v, t.ino, t.idx);
  }

  /** What the bitmap says of a block in the data area: used exactly when one slot holds it. */
  lemma UsedIffHeld(sb: Super, v: View, b: int)
    requires Owned(sb, v) && v.loose == {} && v.ex == {} && DataStart(sb) <= b < sb.size
    ensures BBlock(sb, b) < DataStart(sb)
    ensures Used(sb, v.disk, b) <==>
              exists s: Slot :: IsSlot(v, s.ino, s.idx) && Addr(v.disk, v.inodes[s.ino], s.idx) == b
  {
    BitmapBelowData(sb, b);
    assert BitOk(sb, v, b) && OwnerOk(sb, v, b);
    if s: Slot :| IsSlot(v, s.ino, s.idx) && Addr(v.disk, v.inodes[s.ino], s.idx) == b {
      assert SlotOk(v, s.ino, s.idx);
    }
  }
}
