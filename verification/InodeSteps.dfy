/** What each store of Lab3/xv6-riscv/kernel/fs.c does to the ownership of blocks and to
    the bytes of files. */
module InodeSteps {
  import opened FsBlocks
  import opened Sequences
  import opened Inodes

  // ---- the bytes of a file ----

  ghost predicate ByteIs(v: View, i: int, c: seq<int>, k: int) {
    0 <= k < |c| ==>
      && k / BSIZE < MAXFILE && IsSlot(v, i, DataSlot(k / BSIZE))
      && var a := Addr(v.disk, v.inodes[i], DataSlot(k / BSIZE));
         0 < a < |v.disk| && |v.disk[a]| == BSIZE && v.disk[a][k % BSIZE] == c[k]
  }

  /** c is what the blocks of inode i hold, as far as it goes. */
  ghost predicate FileIs(v: View, i: int, c: seq<int>) {
    forall k :: ByteIs(v, i, c, k)
  }

  /** Block n of file i is where it was and holds what it held. */
  ghost predicate KeepOk(v: View, v': View, i: int, n: int) {
    0 <= n < MAXFILE && IsSlot(v, i, DataSlot(n)) ==>
      && IsSlot(v', i, DataSlot(n))
      && var a := Addr(v.disk, v.inodes[i], DataSlot(n));
         0 < a < |v.disk| ==>
           Addr(v'.disk, v'.inodes[i], DataSlot(n)) == a < |v'.disk| && v'.disk[a] == v.disk[a]
  }

  ghost predicate Keeps(v: View, v': View, i: int) {
    forall n :: KeepOk(v, v', i, n)
  }

  lemma KeptTwice(v: View, v': View, v'': View, i: int)
    requires Keeps(v, v', i) && Keeps(v', v'', i)
    ensures Keeps(v, v'', i)
  {
    forall n ensures KeepOk(v, v'', i, n) {
      assert KeepOk(v, v', i, n) && KeepOk(v', v'', i, n);
    }
  }

  lemma KeptFile(v: View, v': View, i: int, c: seq<int>)
    requires Keeps(v, v', i) && FileIs(v, i, c)
    ensures FileIs(v', i, c)
  {
    forall k ensures ByteIs(v', i, c, k) {
      assert ByteIs(v, i, c, k) && KeepOk(v, v', i, k / BSIZE);
    }
  }

  /** No slot of inode i is out of use. */
  ghost predicate Whole(v: View, i: int) {
    forall k :: Slot(i, k) !in v.ex
  }

  // ---- one block changes ----

  function Put(v: View, a: int, blk: Block): View
    requires 0 <= a < |v.disk|
  {
    v.(disk := v.disk[a := blk])
  }

  lemma AddrPut(v: View, a: int, blk: Block, i: int, k: int)
    requires IsSlot(v, i, k) && 0 <= a < |v.disk|
    requires k > NDIRECT ==> v.inodes[i].addrs[NDIRECT] != a
    ensures Addr(Put(v, a, blk).disk, v.inodes[i], k) == Addr(v.disk, v.inodes[i], k)
  {
  }

  /** Block a is not the indirect block of any inode in use. */
  ghost predicate NoPointers(v: View, a: int) {
    forall i :: IsSlot(v, i, NDIRECT) && Slot(i, NDIRECT) !in v.ex ==> v.inodes[i].addrs[NDIRECT] != a
  }

  lemma MetadataNoPointers(sb: Super, v: View, a: int)
    requires Owned(sb, v) && 0 < a < DataStart(sb)
    ensures NoPointers(v, a)
  {
    forall i | IsSlot(v, i, NDIRECT) && Slot(i, NDIRECT) !in v.ex ensures v.inodes[i].addrs[NDIRECT] != a {
      assert SlotOk(v, i, NDIRECT) && OwnerOk(sb, v, a);
    }
  }

  lemma DataNoPointers(sb: Super, v: View, a: int)
    requires Owned(sb, v) && a != 0 && (a in v.owner ==> v.owner[a].idx != NDIRECT)
    ensures NoPointers(v, a)
  {
    forall i | IsSlot(v, i, NDIRECT) && Slot(i, NDIRECT) !in v.ex ensures v.inodes[i].addrs[NDIRECT] != a {
      assert SlotOk(v, i, NDIRECT);
    }
  }

  lemma SameAddr(v: View, a: int, blk: Block, i: int, k: int)
    requires IsSlot(v, i, k) && Slot(i, k) !in v.ex && ExOk(v, i, k)
    requires NoPointers(v, a) && 0 <= a < |v.disk|
    ensures Addr(Put(v, a, blk).disk, v.inodes[i], k) == Addr(v.disk, v.inodes[i], k)
  {
    if k > NDIRECT {
      assert IsSlot(v, i, NDIRECT);
      AddrPut(v, a, blk, i, k);
    }
  }

  /** A block without pointers may change: the slots hold what they held. */
  lemma PutSlots(sb: Super, v: View, a: int, blk: Block)
    requires Owned(sb, v) && 0 <= a < |v.disk| && NoPointers(v, a)
    ensures forall i, k :: SlotOk(Put(v, a, blk), i, k)
    ensures forall x :: OwnerOk(sb, Put(v, a, blk), x)
  {
    var v' := Put(v, a, blk);
    forall i, k ensures SlotOk(v', i, k) {
      assert SlotOk(v, i, k) && ExOk(v, i, k);
      if IsSlot(v, i, k) && Slot(i, k) !in v.ex { SameAddr(v, a, blk, i, k); }
    }
    forall x ensures OwnerOk(sb, v', x) {
      assert OwnerOk(sb, v, x);
      if x in v.owner {
        assert ExOk(v, v.owner[x].ino, v.owner[x].idx);
        SameAddr(v, a, blk, v.owner[x].ino, v.owner[x].idx);
      }
    }
  }

  /** A data block, or one not yet in use, may be overwritten. */
  lemma PutOk(sb: Super, v: View, a: int, blk: Block)
    requires Owned(sb, v) && DataStart(sb) <= a < sb.size && IsBlock(blk)
    requires a in v.owner ==> v.owner[a].idx != NDIRECT
    ensures Owned(sb, Put(v, a, blk))
  {
    var v' := Put(v, a, blk);
    DataNoPointers(sb, v, a);
    PutSlots(sb, v, a, blk);
    forall b ensures BitOk(sb, v', b) {
      assert BitOk(sb, v, b);
      if 0 <= b < sb.size { BitmapBelowData(sb, b); }
    }
    forall i, k ensures ExOk(v', i, k) { assert ExOk(v, i, k); }
  }

  lemma PutKeeps(sb: Super, v: View, a: int, blk: Block, j: int)
    requires Owned(sb, v) && Whole(v, j) && 0 <= a < |v.disk| && NoPointers(v, a)
    requires a in v.owner ==> v.owner[a].ino != j
    ensures Keeps(v, Put(v, a, blk), j)
  {
    forall n ensures KeepOk(v, Put(v, a, blk), j, n) {
      if 0 <= n < MAXFILE && IsSlot(v, j, DataSlot(n)) {
        assert SlotOk(v, j, DataSlot(n)) && ExOk(v, j, DataSlot(n)) && OwnerOk(sb, v, a);
        SameAddr(v, a, blk, j, DataSlot(n));
      }
    }
  }

  // ---- one bit of the bitmap changes ----

  /** The bitmap block after the bit of block b was set or cleared. */
  function Flipped(sb: Super, d: seq<Block>, b: int, on: bool): Block
    requires GoodSuper(sb) && |d| == sb.size && 0 <= b < sb.size
    requires |d[(BitmapBelowData(sb, b); BBlock(sb, b))]| == BSIZE
  {
    SetBit(d[BBlock(sb, b)], b % BPB, on)
  }

  function Flip(sb: Super, v: View, b: int, on: bool): View
    requires GoodSuper(sb) && |v.disk| == sb.size && 0 <= b < sb.size
    requires |v.disk[(BitmapBelowData(sb, b); BBlock(sb, b))]| == BSIZE
  {
    Put(v, BBlock(sb, b), Flipped(sb, v.disk, b, on)).(loose := if on then v.loose + {b} else v.loose - {b})
  }

  lemma FlippedBits(sb: Super, d: seq<Block>, b: int, on: bool, x: int)
    requires GoodDisk(sb, d) && 0 <= b < sb.size && 0 <= x < sb.size
    ensures 0 <= BBlock(sb, b) < |d| && 0 <= BBlock(sb, x) < |d|
    ensures IsBlock(Flipped(sb, d, b, on))
    ensures Used(sb, d[BBlock(sb, b) := Flipped(sb, d, b, on)], x) <==> if x == b then on else Used(sb, d, x)
  {
    BitmapBelowData(sb, b);
    BitmapBelowData(sb, x);
    BlockBitRoundTrip(d[BBlock(sb, b)], b % BPB, on, x % BPB);
  }

  lemma FlipOk(sb: Super, v: View, b: int, on: bool)
    requires Owned(sb, v) && 0 <= b < sb.size
    requires 0 <= BBlock(sb, b) < |v.disk|
    requires if on then !Used(sb, v.disk, b) else b in v.loose
    ensures Owned(sb, Flip(sb, v, b, on))
    ensures on ==> DataStart(sb) <= b && b !in v.owner && b !in v.loose
  {
    var v1 := Put(v, BBlock(sb, b), Flipped(sb, v.disk, b, on));
    var v' := Flip(sb, v, b, on);
    BitmapBelowData(sb, b);
    assert BitOk(sb, v, b) && OwnerOk(sb, v, b);
    MetadataNoPointers(sb, v, BBlock(sb, b));
    PutSlots(sb, v, BBlock(sb, b), Flipped(sb, v.disk, b, on));
    FlippedBits(sb, v.disk, b, on, b);
    assert GoodDisk(sb, v'.disk);
    forall i, k ensures SlotOk(v', i, k) && ExOk(v', i, k) { assert SlotOk(v1, i, k) && ExOk(v, i, k); }
    forall x ensures OwnerOk(sb, v', x) { assert OwnerOk(sb, v1, x); }
    forall x ensures BitOk(sb, v', x) { FlipBitOk(sb, v, b, on, x); }
  }

  lemma FlipBitOk(sb: Super, v: View, b: int, on: bool, x: int)
    requires Owned(sb, v) && 0 <= b < sb.size
    requires 0 <= BBlock(sb, b) < |v.disk|
    requires if on then !Used(sb, v.disk, b) else b in v.loose
    requires GoodDisk(sb, Flip(sb, v, b, on).disk)
    ensures BitOk(sb, Flip(sb, v, b, on), x)
  {
    assert BitOk(sb, v, x) && OwnerOk(sb, v, b) && BitOk(sb, v, b);
    if 0 <= x < sb.size { FlippedBits(sb, v.disk, b, on, x); }
  }

  lemma FlipKeeps(sb: Super, v: View, b: int, on: bool, j: int)
    requires Owned(sb, v) && Whole(v, j) && 0 <= b < sb.size
    requires 0 <= BBlock(sb, b) < |v.disk|
    ensures Keeps(v, Flip(sb, v, b, on), j)
  {
    var m := BBlock(sb, b);
    BitmapBelowData(sb, b);
    MetadataNoPointers(sb, v, m);
    assert OwnerOk(sb, v, m);
    var v1 := Put(v, m, Flipped(sb, v.disk, b, on));
    PutKeeps(sb, v, m, Flipped(sb, v.disk, b, on), j);
    forall n ensures KeepOk(v, Flip(sb, v, b, on), j, n) { assert KeepOk(v, v1, j, n); }
  }

  // ---- a slot takes a block ----

  function SetAddr(v: View, i: int, k: int, b: int): View
    requires IsSlot(v, i, k) && k <= NDIRECT
  {
    v.(inodes := v.inodes[i := v.inodes[i].(addrs := v.inodes[i].addrs[k := b])])
  }

  /** ip->addrs[k] = b, for a loose block b. */
  function Attach(v: View, i: int, k: int, b: int): View
    requires IsSlot(v, i, k) && k <= NDIRECT
  {
    SetAddr(v, i, k, b).(owner := v.owner[b := Slot(i, k)], loose := v.loose - {b})
  }

  /** a[k - NDIRECT - 1] = b in the indirect block, for a loose block b. */
  function AttachEntry(v: View, i: int, k: int, b: int): View
    requires IsSlot(v, i, k) && k > NDIRECT && 0 < v.inodes[i].addrs[NDIRECT] < |v.disk|
    requires |v.disk[v.inodes[i].addrs[NDIRECT]]| == BSIZE && 0 <= b < UINT
  {
    var ind := v.inodes[i].addrs[NDIRECT];
    Put(v, ind, SetWord(v.disk[ind], k - NDIRECT - 1, b)).(owner := v.owner[b := Slot(i, k)], loose := v.loose - {b})
  }

  /** What taking block b for slot (i, k) must do to the slots. */
  ghost predicate Taken(v: View, v': View, i: int, k: int, b: int) {
    && |v'.inodes| == |v.inodes| && v'.ex == v.ex
    && v'.owner == v.owner[b := Slot(i, k)] && v'.loose == v.loose - {b}
    && forall j, x :: TakenAt(v, v', i, k, b, j, x)
  }

  ghost predicate TakenAt(v: View, v': View, i: int, k: int, b: int, j: int, x: int) {
    && (IsSlot(v, j, x) <==> IsSlot(v', j, x))
    && (IsSlot(v, j, x) ==> Addr(v'.disk, v'.inodes[j], x) == if j == i && x == k then b else Addr(v.disk, v.inodes[j], x))
  }

  lemma TakenOk(sb: Super, v: View, v': View, i: int, k: int, b: int)
    requires Owned(sb, v) && v.ex == {} && b in v.loose && IsSlot(v, i, k) && Addr(v.disk, v.inodes[i], k) == 0
    requires Taken(v, v', i, k, b)
    ensures forall j, x :: SlotOk(v', j, x)
    ensures forall x :: OwnerOk(sb, v', x)
  {
    forall j, x ensures SlotOk(v', j, x) {
      assert SlotOk(v, j, x) && TakenAt(v, v', i, k, b, j, x) && OwnerOk(sb, v, b);
      if IsSlot(v, j, x) { assert OwnerOk(sb, v, Addr(v.disk, v.inodes[j], x)); }
    }
    forall x ensures OwnerOk(sb, v', x) {
      assert OwnerOk(sb, v, x) && OwnerOk(sb, v, b) && TakenAt(v, v', i, k, b, i, k);
      if x in v.owner { assert TakenAt(v, v', i, k, b, v.owner[x].ino, v.owner[x].idx); }
    }
  }

  lemma AttachTakes(sb: Super, v: View, i: int, k: int, b: int)
    requires Owned(sb, v) && v.ex == {} && b in v.loose && IsSlot(v, i, k) && k <= NDIRECT
    requires v.inodes[i].addrs[k] == 0
    requires k == NDIRECT ==> 0 < b < |v.disk| && v.disk[b] == ZEROS
    ensures Taken(v, Attach(v, i, k, b), i, k, b)
  {
    var v' := Attach(v, i, k, b);
    forall j, x ensures TakenAt(v, v', i, k, b, j, x) {
      if j == i && x > NDIRECT && x < NSLOT { ZeroWord(x - NDIRECT - 1); }
    }
  }

  lemma AttachOk(sb: Super, v: View, i: int, k: int, b: int)
    requires Owned(sb, v) && v.ex == {} && b in v.loose && IsSlot(v, i, k) && k <= NDIRECT
    requires v.inodes[i].addrs[k] == 0
    requires k == NDIRECT ==> 0 < b < |v.disk| && v.disk[b] == ZEROS
    ensures Owned(sb, Attach(v, i, k, b))
  {
    var v' := Attach(v, i, k, b);
    AttachTakes(sb, v, i, k, b);
    TakenOk(sb, v, v', i, k, b);
    forall x ensures BitOk(sb, v', x) { assert BitOk(sb, v, x); }
    forall i, k ensures ExOk(v', i, k) { assert ExOk(v, i, k); }
  }

  lemma AttachKeeps(sb: Super, v: View, i: int, k: int, b: int, j: int)
    requires Owned(sb, v) && v.ex == {} && b in v.loose && IsSlot(v, i, k) && k <= NDIRECT
    requires v.inodes[i].addrs[k] == 0
    requires k == NDIRECT ==> 0 < b < |v.disk| && v.disk[b] == ZEROS
    ensures Keeps(v, Attach(v, i, k, b), j)
  {
    AttachTakes(sb, v, i, k, b);
    forall n ensures KeepOk(v, Attach(v, i, k, b), j, n) {
      assert TakenAt(v, Attach(v, i, k, b), i, k, b, j, DataSlot(n));
    }
  }

  lemma EntryTakes(sb: Super, v: View, i: int, k: int, b: int)
    requires Owned(sb, v) && v.ex == {} && b in v.loose && IsSlot(v, i, k) && k > NDIRECT
    requires v.inodes[i].addrs[NDIRECT] != 0 && Addr(v.disk, v.inodes[i], k) == 0
    ensures var ind := v.inodes[i].addrs[NDIRECT]; DataStart(sb) <= ind < sb.size && 0 <= b < UINT
    ensures Taken(v, AttachEntry(v, i, k, b), i, k, b)
  {
    var ind := v.inodes[i].addrs[NDIRECT];
    assert SlotOk(v, i, NDIRECT) && OwnerOk(sb, v, ind) && OwnerOk(sb, v, b);
    var v' := AttachEntry(v, i, k, b);
    forall j, x ensures TakenAt(v, v', i, k, b, j, x) {
      if IsSlot(v, j, x) && x > NDIRECT {
        if j == i {
          WordRoundTrip(v.disk[ind], k - NDIRECT - 1, b, x - NDIRECT - 1);
        } else {
          assert SlotOk(v, j, NDIRECT);
        }
      }
    }
  }

  lemma EntryOk(sb: Super, v: View, i: int, k: int, b: int)
    requires Owned(sb, v) && v.ex == {} && b in v.loose && IsSlot(v, i, k) && k > NDIRECT
    requires v.inodes[i].addrs[NDIRECT] != 0 && Addr(v.disk, v.inodes[i], k) == 0
    ensures var ind := v.inodes[i].addrs[NDIRECT]; DataStart(sb) <= ind < sb.size && 0 <= b < UINT
    ensures Owned(sb, AttachEntry(v, i, k, b))
  {
    EntryTakes(sb, v, i, k, b);
    var v', ind := AttachEntry(v, i, k, b), v.inodes[i].addrs[NDIRECT];
    TakenOk(sb, v, v', i, k, b);
    WordRoundTrip(v.disk[ind], k - NDIRECT - 1, b, 0);
    forall x ensures BitOk(sb, v', x) {
      assert BitOk(sb, v, x);
      if 0 <= x < sb.size { BitmapBelowData(sb, x); }
    }
    forall i, k ensures ExOk(v', i, k) { assert ExOk(v, i, k); }
  }

  lemma EntryKeeps(sb: Super, v: View, i: int, k: int, b: int, j: int)
    requires Owned(sb, v) && v.ex == {} && b in v.loose && IsSlot(v, i, k) && k > NDIRECT
    requires v.inodes[i].addrs[NDIRECT] != 0 && Addr(v.disk, v.inodes[i], k) == 0
    ensures var ind := v.inodes[i].addrs[NDIRECT]; DataStart(sb) <= ind < sb.size && 0 <= b < UINT
    ensures Keeps(v, AttachEntry(v, i, k, b), j)
  {
    EntryTakes(sb, v, i, k, b);
    var v' := AttachEntry(v, i, k, b);
    forall n ensures KeepOk(v, v', j, n) {
      assert TakenAt(v, v', i, k, b, j, DataSlot(n));
      if 0 <= n < MAXFILE && IsSlot(v, j, DataSlot(n)) {
        assert SlotOk(v, j, DataSlot(n)) && SlotOk(v, i, NDIRECT);
      }
    }
  }

  // ---- a slot gives its block up ----

  /** The slot (i, k) is not read any more; its block, if any, is loose. */
  function Detach(v: View, i: int, k: int): View
    requires IsSlot(v, i, k)
  {
    var a := Addr(v.disk, v.inodes[i], k);
    if a == 0 then v.(ex := v.ex + {Slot(i, k)})
    else v.(ex := v.ex + {Slot(i, k)}, owner := v.owner - {a}, loose := v.loose + {a})
  }

  lemma DetachOk(sb: Super, v: View, i: int, k: int)
    requires Owned(sb, v) && IsSlot(v, i, k) && Slot(i, k) !in v.ex
    requires k == NDIRECT ==> forall x :: NDIRECT < x < NSLOT ==> Slot(i, x) in v.ex
    ensures Owned(sb, Detach(v, i, k))
  {
    var v', a := Detach(v, i, k), Addr(v.disk, v.inodes[i], k);
    forall j, x ensures SlotOk(v', j, x) { assert SlotOk(v, j, x) && SlotOk(v, i, k); }
    forall x ensures OwnerOk(sb, v', x) { assert OwnerOk(sb, v, x) && SlotOk(v, i, k); }
    forall x ensures BitOk(sb, v', x) { assert BitOk(sb, v, x) && SlotOk(v, i, k); }
    forall j, x ensures ExOk(v', j, x) { assert ExOk(v, j, x); }
  }

  ghost function SlotsFrom(i: int, k: int): set<Slot> {
    set x | 0 <= x < NSLOT && (x == k || (k == NDIRECT && x > NDIRECT)) :: Slot(i, x)
  }

  /** ip->addrs[k] = 0 puts the slot back in use, with the entries below it. */
  ghost function Clear(v: View, i: int, k: int): View
    requires IsSlot(v, i, k) && k <= NDIRECT
  {
    SetAddr(v, i, k, 0).(ex := v.ex - SlotsFrom(i, k))
  }

  lemma ClearOk(sb: Super, v: View, i: int, k: int)
    requires Owned(sb, v) && IsSlot(v, i, k) && k <= NDIRECT && SlotsFrom(i, k) <= v.ex
    requires k < NDIRECT ==> Slot(i, NDIRECT) !in v.ex
    ensures Owned(sb, Clear(v, i, k))
  {
    var v' := Clear(v, i, k);
    assert Slot(i, k) in SlotsFrom(i, k);
    forall j, x ensures SlotOk(v', j, x) { assert SlotOk(v, j, x); }
    forall x ensures OwnerOk(sb, v', x) {
      assert OwnerOk(sb, v, x);
      if x in v.owner && v.owner[x].ino == i && k == NDIRECT {
        assert v.owner[x] !in SlotsFrom(i, k);
      }
    }
    forall x ensures BitOk(sb, v', x) { assert BitOk(sb, v, x); }
    forall j, x ensures ExOk(v', j, x) { assert ExOk(v, j, x); }
  }

  // ---- bytes are written ----

  ghost predicate Bytes(w: seq<int>) {
    forall k :: 0 <= k < |w| ==> 0 <= w[k] < 256
  }

  /** w is to go to byte off of file i, inside one block that the file has. */
  ghost predicate ChunkReady(sb: Super, v: View, i: int, c: seq<int>, off: int, w: seq<int>) {
    && Owned(sb, v) && v.ex == {} && FileIs(v, i, c) && 0 <= off <= |c| && Bytes(w)
    && off / BSIZE < MAXFILE && off % BSIZE + |w| <= BSIZE
    && IsSlot(v, i, DataSlot(off / BSIZE)) && Addr(v.disk, v.inodes[i], DataSlot(off / BSIZE)) != 0
  }

  lemma ChunkPlace(sb: Super, v: View, i: int, c: seq<int>, off: int, w: seq<int>)
    requires ChunkReady(sb, v, i, c, off, w)
    ensures var a := Addr(v.disk, v.inodes[i], DataSlot(off / BSIZE));
            && DataStart(sb) <= a < sb.size && a in v.owner && v.owner[a] == Slot(i, DataSlot(off / BSIZE))
            && |v.disk[a]| == BSIZE && IsBlock(Patched(v.disk[a], off % BSIZE, w))
  {
    var a := Addr(v.disk, v.inodes[i], DataSlot(off / BSIZE));
    assert SlotOk(v, i, DataSlot(off / BSIZE)) && OwnerOk(sb, v, a);
  }

  function Chunk(v: View, i: int, off: int, w: seq<int>): View
    requires 0 <= off && IsSlot(v, i, DataSlot(off / BSIZE)) && DataSlot(off / BSIZE) < NSLOT
    requires var a := Addr(v.disk, v.inodes[i], DataSlot(off / BSIZE)); 0 <= a < |v.disk| && |v.disk[a]| == BSIZE
  {
    var a := Addr(v.disk, v.inodes[i], DataSlot(off / BSIZE));
    Put(v, a, Patched(v.disk[a], off % BSIZE, w))
  }

  lemma ChunkByte(sb: Super, v: View, i: int, c: seq<int>, off: int, w: seq<int>, k: int)
    requires ChunkReady(sb, v, i, c, off, w)
    requires var a := Addr(v.disk, v.inodes[i], DataSlot(off / BSIZE)); 0 <= a < |v.disk| && |v.disk[a]| == BSIZE
    ensures ByteIs(Chunk(v, i, off, w), i, Patched(c, off, w), k)
  {
    var a := Addr(v.disk, v.inodes[i], DataSlot(off / BSIZE));
    var n := k / BSIZE;
    ChunkPlace(sb, v, i, c, off, w);
    if 0 <= k < |Patched(c, off, w)| {
      assert ByteIs(v, i, c, k);
      assert off <= k < off + |w| ==> n == off / BSIZE && k % BSIZE == off % BSIZE + (k - off);
      DataNoPointers(sb, v, a);
      assert SlotOk(v, i, DataSlot(n)) && ExOk(v, i, DataSlot(n));
      SameAddr(v, a, Patched(v.disk[a], off % BSIZE, w), i, DataSlot(n));
    }
  }

  /** The bytes land in the file, and nowhere else. */
  lemma ChunkWritten(sb: Super, v: View, i: int, c: seq<int>, off: int, w: seq<int>)
    requires ChunkReady(sb, v, i, c, off, w)
    ensures var a := Addr(v.disk, v.inodes[i], DataSlot(off / BSIZE)); DataStart(sb) <= a < sb.size && |v.disk[a]| == BSIZE
    ensures Owned(sb, Chunk(v, i, off, w)) && FileIs(Chunk(v, i, off, w), i, Patched(c, off, w))
    ensures forall j :: j != i ==> Keeps(v, Chunk(v, i, off, w), j)
  {
    var a := Addr(v.disk, v.inodes[i], DataSlot(off / BSIZE));
    ChunkPlace(sb, v, i, c, off, w);
    var blk := Patched(v.disk[a], off % BSIZE, w);
    PutOk(sb, v, a, blk);
    DataNoPointers(sb, v, a);
    forall j | j != i ensures Keeps(v, Chunk(v, i, off, w), j) { PutKeeps(sb, v, a, blk, j); }
    forall k ensures ByteIs(Chunk(v, i, off, w), i, Patched(c, off, w), k) { ChunkByte(sb, v, i, c, off, w, k); }
  }

  /** Less of a file may be looked at. */
  lemma FileShorter(v: View, i: int, c: seq<int>, n: nat)
    requires FileIs(v, i, c) && n <= |c|
    ensures FileIs(v, i, c[..n])
  {
    forall k ensures ByteIs(v, i, c[..n], k) { assert ByteIs(v, i, c, k); }
  }

  function SetSize(v: View, i: int, size: nat): View
    requires 0 <= i < |v.inodes|
  {
    v.(inodes := v.inodes[i := v.inodes[i].(size := size)])
  }

  /** The size of a file is no matter of ownership. */
  lemma SizeOk(sb: Super, v: View, i: int, size: nat)
    requires Owned(sb, v) && 0 <= i < |v.inodes|
    ensures Owned(sb, SetSize(v, i, size))
    ensures forall j :: Keeps(v, SetSize(v, i, size), j)
  {
    var v' := SetSize(v, i, size);
    forall j, k ensures SlotOk(v', j, k) && ExOk(v', j, k) { assert SlotOk(v, j, k) && ExOk(v, j, k); }
    forall a ensures OwnerOk(sb, v', a) && BitOk(sb, v', a) { assert OwnerOk(sb, v, a) && BitOk(sb, v, a); }
    forall j ensures Keeps(v, v', j) { forall n ensures KeepOk(v, v', j, n) {} }
  }
}
