/** A mounted volume of Lab4/fat-fuse: the loops of fat_table.c and fat_file.c over the FAT
    map in memory and the clusters on disk.

    Writes to the FAT itself succeed; `budget` is how many bytes of file data the device
    transfers in a call before it fails, which makes reads and writes come up short. The image is
    as long as it is: a write past its end extends it. */
module FatVolume {
  import opened Wrappers
  import opened FatTable
  import opened FatBytes
  import opened Sequences
  import opened FatFile
  import opened FatLayout

  /** The last entry of the chain that a write of n bytes at off needs. */
  function LastWanted(g: Geometry, off: nat, n: nat): nat
    requires g.bpc > 0
  {
    Ix(g, if n == 0 then off else off + n - 1)
  }

  /** The clusters it has to search for. */
  function Want(g: Geometry, off: nat, n: nat, len: nat): nat
    requires g.bpc > 0
  {
    var last := LastWanted(g, off, n);
    if last < len then 0 else last + 1 - len
  }

  /** The bytes that a write looks for clusters for: one more than the device takes. */
  function Tried(n: nat, budget: nat): nat { Min(n, budget + 1) }

  /** No data cluster is free, although a later entry of the map is. */
  ghost predicate DiskFull(g: Geometry, fat: seq<nat>) {
    Top(g) < |fat| && forall c :: 2 <= c < Top(g) ==> fat[c] != FREE
  }

  lemma IxPrevious(g: Geometry, off: nat)
    requires g.bpc > 0 && off > 0
    ensures Ix(g, off) == if Mask(g, off) == 0 then Ix(g, off - 1) + 1 else Ix(g, off - 1)
  {
    if Mask(g, off - 1) + 1 < g.bpc { SameCluster(g, off - 1, 1); } else { NextCluster(g, off - 1); }
  }

  lemma {:induction false} IxMonotone(g: Geometry, a: nat, b: nat)
    requires g.bpc > 0 && a <= b
    ensures Ix(g, a) <= Ix(g, b)
    decreases b
  {
    hide Ix, Mask;
    if a < b {
      IxPrevious(g, b);
      IxMonotone(g, a, b - 1);
    }
  }

  /** A piece that fits the cluster of byte k stays below the end of the chain. */
  lemma PieceFits(g: Geometry, k: nat, n: nat, len: nat)
    requires g.bpc > 0 && Ix(g, k) < len && n <= g.bpc - Mask(g, k)
    ensures k + n <= Room(g, len)
  {
    BelowRoom(g, k, len);
    if n > 0 {
      SameCluster(g, k, n - 1);
      BelowRoom(g, k + n - 1, len);
    }
    hide Ix, Mask, Room;
  }

  /** How many of the n bytes from off on arrive in whole pieces, a piece being what lies in one
      cluster, when the device transfers `budget` bytes: all, or those up to the last boundary
      between clusters that it reaches. */
  function WholePieces(g: Geometry, off: nat, n: nat, budget: nat): (k: nat)
    requires g.bpc > 0
    ensures k <= n && k <= budget
  {
    if n <= budget then n
    else if Mask(g, off + budget) > budget then 0
    else budget - Mask(g, off + budget)
  }

  lemma AllPieces(g: Geometry, off: nat, n: nat, budget: nat)
    requires g.bpc > 0
    ensures n <= budget ==> WholePieces(g, off, n, budget) == n
  {
  }

  /** The piece after the first k bytes comes short. */
  lemma ShortPiece(g: Geometry, off: nat, n: nat, budget: nat, k: nat)
    requires g.bpc > 0 && k <= budget < n && k < n && (k > 0 ==> Mask(g, off + k) == 0)
    requires budget - k < Min(g.bpc - Mask(g, off + k), n - k)
    ensures WholePieces(g, off, n, budget) == k
  {
    SameCluster(g, off + k, budget - k);
    assert off + budget == off + k + (budget - k);
  }

  class Volume {
    const g: Geometry
    var fat: seq<nat>
    var disk: seq<byte>
    var files: map<nat, File>
    ghost var chain: map<nat, seq<nat>>

    ghost function S(): Vol
      reads this
    {
      Vol(fat, disk, files, chain)
    }

    ghost predicate Valid()
      reads this
    {
      Ok(g, S())
    }

    constructor (geometry: Geometry, map0: seq<nat>, disk0: seq<byte>, files0: map<nat, File>, ghost chain0: map<nat, seq<nat>>)
      requires Ok(geometry, Vol(map0, disk0, files0, chain0))
      ensures Valid() && g == geometry && S() == Vol(map0, disk0, files0, chain0)
    {
      g, fat, disk, files, chain := geometry, map0, disk0, files0, chain0;
    }

    // ---- fat_table.c ----

    /** fat_table_seek_cluster. One step past the end is no error: it is the end mark. A second one
        is, if the mark is the one this program writes; any other is looked up in the map. */
    method SeekCluster(start: nat, offset: nat, ghost ch: seq<nat>) returns (cluster: nat, err: Errno)
      requires GoodFat(g, fat) && Chain(g, fat, ch) && ch[0] == start
      ensures Ix(g, offset) < |ch| ==> cluster == ch[Ix(g, offset)] && err == OK
      ensures Ix(g, offset) == |ch| ==> IsEnd(cluster) && err == OK
      ensures Ix(g, offset) > |ch| ==>
                ch[|ch| - 1] < |fat| && err == (if NextOf(g, fat, ch[|ch| - 1]) == EOC then EOVERFLOW else OFFMAP) && cluster == 0
    {
      hide Chain;
      ChainAt(g, fat, ch, 0);
      ChainAt(g, fat, ch, |ch| - 1);
      cluster := start;
      var i := 0;
      while i < offset / g.bpc
        invariant i <= Ix(g, offset) && i <= |ch| && Leads(cluster, ch, i)
        invariant i == |ch| ==> cluster == NextOf(g, fat, ch[|ch| - 1])
      {
        if cluster == 0x0FFF_FFFF {
          if i < |ch| { ChainAt(g, fat, ch, i); }
          return 0, EOVERFLOW;
        }
        if cluster >= |fat| {
          if i < |ch| { ChainAt(g, fat, ch, i); }
          return 0, OFFMAP;
        }
        ChainAt(g, fat, ch, i);
        cluster := NextOf(g, fat, cluster);
        i := i + 1;
      }
      return cluster, OK;
    }

    /** fat_table_get_next_free_cluster: EOC when only entries past the data clusters are free,
        and no answer when the search runs off the map. */
    method GetNextFreeCluster() returns (c: Option<nat>)
      requires GoodFat(g, fat)
      ensures c == None <==> NoFree(fat)
      ensures c.Some? && ValidCluster(g, c.value) ==> c.value < |fat| && fat[c.value] == FREE && forall x :: 2 <= x < c.value ==> fat[x] != FREE
      ensures c.Some? && !ValidCluster(g, c.value) ==> c.value == EOC && DiskFull(g, fat) && forall need: nat :: Searchable(g, fat, need)
    {
      var n := 2;
      while true
        invariant 2 <= n <= |fat| && forall x :: 2 <= x < n ==> fat[x] != FREE
        decreases |fat| - n
      {
        if n == |fat| { return None; }
        if fat[n] == 0 { break; }
        n := n + 1;
      }
      if !(2 <= n < (g.n + 2) % UINT) {
        return Some(0x0FFF_FFFF);
      }
      return Some(n);
    }

    // ---- fat_file.c ----

    /** next_or_new_cluster after entry i of the chain of file id. */
    method NextOrNewCluster(cluster: nat, ghost id: nat, ghost i: nat) returns (next: nat, err: Errno)
      requires Valid() && id in files && i < |chain[id]| && cluster == chain[id][i]
      modifies this
      ensures Valid()
      ensures i + 1 < |old(chain[id])| ==> err == OK && S() == old(S()) && next == chain[id][i + 1]
      ensures i + 1 == |old(chain[id])| && err == OK ==>
                && ValidCluster(g, next) && next < |old(fat)| && old(fat)[next] == FREE
                && old(chain[id]) != [] && old(chain[id])[|old(chain[id])| - 1] < |old(fat)|
                && S() == Grow(old(S()), id, next)
      ensures err != OK ==> next == 0 && S() == old(S()) && i + 1 == |chain[id]| && NoCluster(g, fat, err)
    {
      hide Ok, Chain, Searchable;
      ChainOf(g, S(), id, i);
      next := NextOf(g, fat, cluster);
      if 0x0FFF_FFF8 <= next <= 0x0FFF_FFFF {
        var free := GetNextFreeCluster();
        if free == None {
          return 0, OFFMAP;
        }
        next := free.value;
        if 0x0FFF_FFF8 <= next <= 0x0FFF_FFFF {
          return 0, EIO;
        }
        GrowOk(g, S(), id, next);
        fat := fat[cluster := next];
        fat := fat[next := 0x0FFF_FFFF];
        chain := chain[id := chain[id] + [next]];
      }
      return next, OK;
    }

    /** One full_pread of fat_file_pread, n bytes of the cluster that holds byte `offset`. */
    method ReadCluster(cluster: nat, offset: nat, n: nat, ghost id: nat, ghost from: nat) returns (piece: seq<byte>)
      requires Valid() && id in files && Ix(g, offset) < |chain[id]| && cluster == chain[id][Ix(g, offset)]
      requires offset < files[id].size && from <= offset && offset + n <= files[id].size && n <= g.bpc - Mask(g, offset)
      ensures |piece| == n && from <= offset + n <= |Content(g, S(), id)|
      ensures Content(g, S(), id)[from..offset] + piece == Content(g, S(), id)[from..offset + n]
    {
      FileFacts(g, S(), id, offset);
      ReadFits(g, S(), id, offset, n);
      ReadPiece(g, S(), id, from, offset, n);
      hide Ok, Content, Chain;
      var at := ClusterOffset(g, cluster) + Mask(g, offset);
      piece := disk[at..at + n];
    }

    /** fat_file_pread: the bytes it says it has read, short only at the end of the file or on a bad
        device. A piece that the device cuts short is not among them. */
    method Pread(id: nat, size0: nat, offset0: nat, budget: nat) returns (buf: seq<byte>, err: Errno)
      requires Valid() && id in files
      ensures offset0 > files[id].size ==> err == EOVERFLOW && buf == []
      ensures offset0 <= files[id].size ==>
                && err == OK && g.bpc > 0
                && buf == Content(g, S(), id)[offset0..offset0 + WholePieces(g, offset0, Min(size0, files[id].size - offset0), budget)]
      ensures AllLie(g, S(), id, offset0, buf)
    {
      hide Ok, Chain, AllLie, Covered, ByteOf, Content, Mask, Ix, Address, Room, WholePieces;
      buf := [];
      var offset := offset0;
      HasChain(g, S(), id);
      SliceLies(g, S(), id, offset0, buf);
      if offset > files[id].size {
        return [], EOVERFLOW;
      }
      var size := Min(size0, files[id].size - offset);
      AllPieces(g, offset0, size, budget);
      if size == 0 {
        return [], OK;
      }
      FileFacts(g, S(), id, offset);
      ghost var ch := chain[id];
      var cluster;
      cluster, err := SeekCluster(files[id].start, offset, ch);
      var remaining := size;
      while remaining > 0
        invariant 0 <= remaining <= size && offset == offset0 + (size - remaining) && |buf| == size - remaining <= budget
        invariant remaining > 0 ==> Ix(g, offset) < |ch| && cluster == ch[Ix(g, offset)]
        invariant remaining > 0 && buf != [] ==> Mask(g, offset) == 0
        invariant buf == Content(g, S(), id)[offset0..offset]
        decreases remaining
      {
        FileFacts(g, S(), id, offset);
        if cluster == BAD || EOC_MIN <= cluster <= EOC {
          assert false;
          break;
        }
        var n := Min(g.bpc - Mask(g, offset), remaining);
        var got := Min(n, budget - |buf|);
        var piece := ReadCluster(cluster, offset, got, id, offset0);
        if got != n {
          ShortPiece(g, offset0, size, budget, |buf|);
          break;
        }
        buf := buf + piece;
        AfterPiece(g, S(), id, offset, n, remaining);
        offset := offset + got;
        remaining := remaining - got;
        cluster := NextOf(g, fat, cluster);
      }
      SliceLies(g, S(), id, offset0, buf);
      return buf, OK;
    }

    /** One full_pwrite of fat_file_pwrite. */
    method WriteCluster(cluster: nat, k: nat, w: seq<byte>, ghost id: nat)
      requires Valid() && id in files && Fits(g, chain[id], k, w) && cluster == chain[id][Ix(g, k)]
      modifies `disk
      ensures Covered(g, chain[id], k) && S() == Put(g, old(S()), id, k, w)
    {
      hide Ok, Written, Address, Mask, Room;
      PutOk(g, S(), id, k, w);
      AddressIs(g, chain[id], k);
      var at := ClusterOffset(g, cluster) + Mask(g, k);
      disk := Written(disk, at, w);
    }

    /** The next cluster of a file that is being written, from entry i. */
    method MoveOn(cluster: nat, ghost id: nat, ghost i: nat, ghost v0: Vol, ghost off: nat, ghost done: nat, ghost buf: seq<byte>,
                  ghost n: nat)
      returns (next: nat, err: Errno)
      requires Midway(g, v0, S(), id, off, done, buf, n)
      requires i < |chain[id]| && cluster == chain[id][i] && i + 1 <= LastWanted(g, off, n)
      modifies this
      ensures Midway(g, v0, S(), id, off, done, buf, n)
      ensures err == OK ==> i + 1 < |chain[id]| && next == chain[id][i + 1] && ValidCluster(g, next)
      ensures err != OK ==> next == 0 && S() == old(S()) && Stopped(g, v0, S(), id, off, n, err)
    {
      hide Ok, Chain, TookFree, Searchable, Plenty, ByteIs, ByteSame, Ix, Room, LastWanted;
      ghost var v := S();
      HasChain(g, v, id);
      next, err := NextOrNewCluster(cluster, id, i);
      if err == OK {
        if i + 1 == |v.chain[id]| {
          WriteGrow(g, v0, v, id, off, done, buf, next);
          WantGrow(g, v, id, next, off, n);
          RoomMonotone(g, |v.chain[id]|, |v.chain[id]| + 1);
        }
        ChainOf(g, S(), id, i);
      } else {
        NotFound(g, v0, v, id, off, n, err);
      }
    }

    /** fat_file_pwrite up to its loop: the cluster that the first byte goes to. */
    method FirstCluster(id: nat, offset: nat, ghost buf: seq<byte>, ghost n: nat) returns (cluster: nat, err: Errno)
      requires Valid() && id in files && offset <= files[id].size
      modifies this
      ensures Midway(g, old(S()), S(), id, offset, 0, buf, n)
      ensures err == OK ==> Ix(g, offset) < |chain[id]| && cluster == chain[id][Ix(g, offset)]
      ensures err != OK ==> S() == old(S()) && Stopped(g, old(S()), S(), id, offset, n, err)
    {
      hide Ok, Chain, TookFree, Searchable, Plenty, ByteIs, ByteSame, Ix, Mask, Room, Want, Writing;
      ghost var v0 := S();
      var start := 0;
      if offset != 0 {
        start := offset - 1;
      }
      WriteStart(g, v0, id, offset, buf);
      StartFacts(g, v0, id, offset);
      cluster, err := SeekCluster(files[id].start, start, chain[id]);
      if Mask(g, offset) == 0 && cluster != 0 && offset != 0 {
        LastIx(g, offset, n);
        cluster, err := MoveOn(cluster, id, Ix(g, start), v0, offset, 0, buf, n);
      }
    }

    /** One round of fat_file_pwrite's loop; more says whether there is another. */
    method WriteRound(cluster: nat, id: nat, buf: seq<byte>, offset: nat, done: nat, budget: nat, ghost v0: Vol)
      returns (done': nat, next: nat, more: bool, err: Errno)
      requires Midway(g, v0, S(), id, offset, done, buf, Tried(|buf|, budget)) && done < |buf| && done <= budget
      requires Ix(g, offset + done) < |chain[id]| && cluster == chain[id][Ix(g, offset + done)]
      modifies this
      ensures Midway(g, v0, S(), id, offset, done', buf, Tried(|buf|, budget)) && done' <= budget
      ensures more ==> done < done' < |buf| && Ix(g, offset + done') < |chain[id]| && next == chain[id][Ix(g, offset + done')]
      ensures !more ==> Ended(g, v0, S(), id, offset, done', |buf|, budget, err)
    {
      hide Ok, Chain, TookFree, Searchable, Plenty, ByteIs, ByteSame, Ix, Mask, Room, Want, Put, LastWanted;
      ghost var tried := Tried(|buf|, budget);
      err := OK;
      var k := offset + done;
      ghost var v := S();
      HasChain(g, v, id);
      var n := Min(g.bpc - Mask(g, k), |buf| - done);
      var put := Min(n, budget - done);
      PlaceFits(g, v0, v, id, offset, done, buf, put);
      WriteCluster(cluster, k, buf[done..done + put], id);
      WritePut(g, v0, v, id, offset, done, buf, buf[done..done + put]);
      PieceFits(g, k, put, |chain[id]|);
      done', next, more := done + put, cluster, false;
      if put == n && done' < |buf| {
        NextCluster(g, k);
        WantedAt(g, offset, done', tried);
        next, err := MoveOn(cluster, id, Ix(g, k), v0, offset, done', buf, tried);
        more := err == OK;
      } else {
        RoundStops(g, v0, S(), id, offset, done, done', buf, budget);
      }
    }

    /** fat_file_pwrite. The write begins where offset is no further than the end of the file;
        it is short only when the device fails or no cluster is free. The size that it stores has
        32 bits: from 2^32 bytes on most of the file is out of reach afterwards. */
    method Pwrite(id: nat, buf: seq<byte>, offset: nat, budget: nat) returns (count: nat, err: Errno)
      requires Valid() && id in files && files[id].size < UINT
      modifies this
      ensures Valid()
      ensures err == EOVERFLOW <==> offset > old(files[id].size)
      ensures err == EOVERFLOW ==> count == 0 && S() == old(S())
      ensures offset <= old(files[id].size) ==>
                && g.bpc > 0 && id in old(chain)
                && (err == OFFMAP <==> !Searchable(g, old(fat), Want(g, offset, Tried(|buf|, budget), |old(chain)[id]|)))
                && (Plenty(g, old(fat), Want(g, offset, Tried(|buf|, budget), |old(chain)[id]|))
                    <==> err == OK && id in chain && Want(g, offset, Tried(|buf|, budget), |chain[id]|) == 0)
      ensures err == OFFMAP ==> NoFree(fat) && files == old(files)
      ensures err == EIO ==> count == 0 && S() == old(S()) && DiskFull(g, fat)
      ensures err == OK ==>
                && offset <= |Content(g, old(S()), id)| && count <= |buf| && id in files
                && SizeStored(offset, count, old(files[id].size)) <= |Patched(Content(g, old(S()), id), offset, buf[..count])|
                && Content(g, S(), id)
                   == Patched(Content(g, old(S()), id), offset, buf[..count])[..SizeStored(offset, count, old(files[id].size))]
                && OthersSame(g, old(S()), S(), id) && Grew(g, old(S()), S(), id)
                && count <= budget && id in chain
                && if Want(g, offset, Tried(|buf|, budget), |chain[id]|) == 0 then count == Min(|buf|, budget) else DiskFull(g, fat)
    {
      hide Ok, Chain, TookFree, Searchable, Ix, Mask, Room, Want, Content, Patched, OthersSame, ByteIs, ByteSame, Tried, LastWanted, Plenty;
      ghost var v0, tried := S(), Tried(|buf|, budget);
      HasChain(g, v0, id);
      if offset > files[id].size {
        return 0, EOVERFLOW;
      }
      var cluster;
      cluster, err := FirstCluster(id, offset, buf, tried);
      if err != OK {
        return 0, err;
      }
      var done: nat, more := 0, |buf| > 0;
      if !more { NothingToWrite(g, v0, S(), id, offset, buf, budget); }
      while more
        invariant Midway(g, v0, S(), id, offset, done, buf, tried) && done <= budget
        invariant more ==> done < |buf| && Ix(g, offset + done) < |chain[id]| && cluster == chain[id][Ix(g, offset + done)]
        invariant !more ==> Ended(g, v0, S(), id, offset, done, |buf|, budget, err)
        decreases more, |buf| - done
      {
        done, cluster, more, err := WriteRound(cluster, id, buf, offset, done, budget, v0);
      }
      if err == OFFMAP { return done, OFFMAP; }
      WriteEnd(g, v0, S(), id, offset, done, buf);
      ResizeSame(S(), id);
      Wrapped(g, v0, S(), id, offset, done, buf);
      if offset + done > files[id].size {
        files := files[id := files[id].(size := (offset + done) % UINT)];
      }
      return done, OK;
    }

    /** The loop that frees a chain from entry m on; cut from entry k. */
    method FreeRest(first: nat, ghost fat0: seq<nat>, ghost ch: seq<nat>, ghost k: nat, ghost m0: nat)
      requires GoodFat(g, fat0) && Chain(g, fat0, ch) && Cut(fat0, fat, ch, k, m0)
      requires Leads(first, ch, m0)
      modifies `fat
      ensures Cut(fat0, fat, ch, k, |ch|)
    {
      hide Chain, Cut;
      var last := first;
      ghost var m := m0;
      CutLength(fat0, fat, ch, k, m);
      while !(0x0FFF_FFF8 <= last <= 0x0FFF_FFFF || last == 0x0FFF_FFF7)
        invariant m <= |ch| && Cut(fat0, fat, ch, k, m) && Leads(last, ch, m)
        decreases |ch| - m
      {
        CutMore(g, fat0, fat, ch, k, m);
        var next := NextOf(g, fat, last);
        fat := fat[last := 0];
        last := next;
        m := m + 1;
      }
      if m < |ch| { ChainAt(g, fat0, ch, m); }
    }

    /** fat_file_truncate. It reads beyond the map, at the end mark, exactly when the file is cut
        at its end and all its clusters are full. */
    method Truncate(id: nat, offset: nat) returns (off: bool)
      requires Valid() && id in files
      modifies this
      ensures Valid() && files.Keys == old(files.Keys) && id in old(chain) && id in chain && g.bpc > 0
      ensures off <==> offset <= old(files[id].size) && offset == Room(g, |old(chain)[id]|)
      ensures off || offset > old(files[id].size) ==> S() == old(S())
      ensures !off && offset <= old(files[id].size) ==>
                && Ix(g, offset) < |old(chain)[id]|
                && chain[id] == old(chain[id])[..Ix(g, offset) + 1]
                && Content(g, S(), id) == Content(g, old(S()), id)[..offset]
                && OthersSame(g, old(S()), S(), id)
                && Gave(g, old(fat), fat, old(chain[id])[Ix(g, offset) + 1..])
    {
      hide Ok, Chain, Cut, Content, Ix, Room, OthersSame, Gave;
      ghost var v0 := S();
      FileFacts(g, v0, id, offset);
      if offset > files[id].size {
        return false;
      }
      TruncateInside(g, v0, id, offset);
      ghost var ch, i := chain[id], Ix(g, offset);
      var last, err := SeekCluster(files[id].start, offset, ch);
      if err != OK {
        assert false;
        return false;
      }
      if last >= |fat| {
        return true;
      }
      var next := NextOf(g, fat, last);
      CutFirst(g, fat, ch, i);
      fat := fat[last := 0x0FFF_FFFF];
      last := next;
      FreeRest(last, v0.fat, ch, i + 1, i + 1);
      TruncatedOk(g, v0, fat, id, offset);
      files := files[id := files[id].(size := offset)];
      chain := chain[id := ch[..i + 1]];
      return false;
    }

    /** fat_file_eliminate. */
    method Eliminate(id: nat)
      requires Valid() && id in files
      modifies this
      ensures Valid() && files == old(files) - {id} && chain == old(chain) - {id}
      ensures OthersSame(g, old(S()), S(), id) && Gave(g, old(fat), fat, old(chain[id]))
    {
      hide Ok, Chain, Cut, Content, OthersSame, Gave;
      ghost var v0 := S();
      FileFacts(g, v0, id, 0);
      ghost var ch := chain[id];
      CutNothing(fat, ch);
      var last := files[id].start;
      ghost var m := 0;
      while !(0x0FFF_FFF8 <= last <= 0x0FFF_FFFF)
        invariant m <= |ch| && Cut(v0.fat, fat, ch, 0, m) && files == v0.files && disk == v0.disk && chain == v0.chain
        invariant Leads(last, ch, m)
        decreases |ch| - m
      {
        CutMore(g, v0.fat, fat, ch, 0, m);
        var next := NextOf(g, fat, last);
        fat := fat[last := 0];
        last := next;
        m := m + 1;
      }
      if m < |ch| { ChainAt(g, v0.fat, ch, m); }
      EliminatedOk(g, v0, fat, id);
      files := files - {id};
      chain := chain - {id};
    }

    /** What has been written is what is read back, as long as the file stays below 2^32 bytes. */
    method WriteThenRead(id: nat, buf: seq<byte>, offset: nat, budget: nat) returns (count: nat, err: Errno, back: seq<byte>)
      requires Valid() && id in files && files[id].size < UINT
      modifies this
      ensures offset <= old(files[id].size) ==>
                && g.bpc > 0 && id in old(chain)
                && (Plenty(g, old(fat), Want(g, offset, Tried(|buf|, budget), |old(chain)[id]|)) ==> err == OK && count == Min(|buf|, budget))
      ensures err == OK ==> count <= Min(|buf|, budget) && (back == buf[..count] <==> offset + count < UINT)
    {
      hide Ok, Content, Chain, Patched, Searchable, OthersSame, Grew, Want, Plenty, Tried, DiskFull, NoFree, WholePieces;
      back := [];
      ghost var before := Content(g, S(), id);
      count, err := Pwrite(id, buf, offset, budget);
      if err == OK {
        var e;
        back, e := Pread(id, count, offset, count);
        HasSize(g, S(), id);
        ReadBack(before, offset, buf[..count], Content(g, S(), id));
        if offset <= files[id].size { ReadWhole(g, offset, count, files[id].size); }
      }
    }
  }

  /** Exactly the clusters of gone have become free. */
  ghost predicate Gave(g: Geometry, fat0: seq<nat>, fat: seq<nat>, gone: seq<nat>) {
    |fat0| == |fat| && forall c :: 2 <= c < |fat| ==> (fat[c] == FREE <==> fat0[c] == FREE || c in gone)
  }

  lemma CutLength(fat: seq<nat>, fat': seq<nat>, ch: seq<nat>, k: nat, m: nat)
    requires Cut(fat, fat', ch, k, m)
    ensures |fat'| == |fat| && k <= m <= |ch|
  {
  }

  lemma CutNothing(fat: seq<nat>, ch: seq<nat>)
    ensures Cut(fat, fat, ch, 0, 0)
  {
  }

  lemma CutFirst(g: Geometry, fat: seq<nat>, ch: seq<nat>, i: nat)
    requires GoodFat(g, fat) && Chain(g, fat, ch) && i < |ch|
    ensures ch[i] < |fat| && Leads(NextOf(g, fat, ch[i]), ch, i + 1)
    ensures Cut(fat, fat[ch[i] := EOC], ch, i + 1, i + 1)
  {
    ChainAt(g, fat, ch, i);
  }

  lemma CutGave(g: Geometry, fat: seq<nat>, fat': seq<nat>, ch: seq<nat>, k: nat)
    requires GoodFat(g, fat) && Chain(g, fat, ch) && Cut(fat, fat', ch, k, |ch|)
    ensures Gave(g, fat, fat', ch[k..]) && GoodFat(g, fat')
  {
    assert ch[k..|ch|] == ch[k..];
    if k > 0 { ChainAt(g, fat, ch, k - 1); assert LinkOk(g, fat, ch, k - 1); }
  }

  /** Cutting one chain leaves the others. */
  lemma CutOther(g: Geometry, v: Vol, fat': seq<nat>, id: nat, k: nat, o: nat)
    requires Ok(g, v) && id in v.files && o in v.files && o != id
    requires Cut(v.fat, fat', v.chain[id], k, |v.chain[id]|)
    ensures Chain(g, fat', v.chain[o])
  {
    LastOk(g, v, o);
    assert Separate(v.chain[o], v.chain[id]) && FileOk(g, v, o);
    var ch, co := v.chain[id], v.chain[o];
    assert forall x :: x in ch[k..|ch|] ==> x in ch;
    forall i | 0 <= i < |co| ensures fat'[co[i]] == v.fat[co[i]] {
      assert co[i] in co && co[i] !in ch;
    }
    OtherChain(g, v.fat, fat', co);
    hide Chain, Separate;
  }

  /** The entry that truncate reads first: where seek_cluster stops. */
  function SeekResult(g: Geometry, ch: seq<nat>, offset: nat): nat
    requires g.bpc > 0
  {
    if Ix(g, offset) < |ch| then ch[Ix(g, offset)] else EOC
  }

  /** truncate stays inside the FAT map except in one case: a file whose clusters are all
      full, cut at its end. */
  lemma TruncateInside(g: Geometry, v: Vol, id: nat, offset: nat)
    requires Ok(g, v) && id in v.files && offset <= v.files[id].size
    ensures g.bpc > 0
    ensures SeekResult(g, v.chain[id], offset) < |v.fat| <==> offset != Room(g, |v.chain[id]|)
    ensures Ix(g, offset) < |v.chain[id]| <==> offset != Room(g, |v.chain[id]|)
    ensures Ix(g, offset) <= |v.chain[id]|
  {
    FileFacts(g, v, id, offset);
    if offset > 0 {
      IxPrevious(g, offset);
      FileFacts(g, v, id, offset - 1);
    }
    hide Chain, Room, Ix;
  }

  /** A write has put `done` bytes of buf at off; the clusters that n bytes need can be found now
      if they could at its start. */
  ghost predicate Midway(g: Geometry, v0: Vol, v: Vol, id: nat, off: nat, done: nat, buf: seq<byte>, n: nat) {
    && Writing(g, v0, v, id, off, done, buf) && id in v0.chain && id in v.chain && off + done <= Room(g, |v.chain[id]|)
    && SameNeed(g, v0.fat, Want(g, off, n, |v0.chain[id]|), v.fat, Want(g, off, n, |v.chain[id]|))
  }

  /** The clusters that are still needed are to be found exactly if those needed before were. */
  ghost predicate SameNeed(g: Geometry, fat0: seq<nat>, need0: nat, fat: seq<nat>, need: nat) {
    && (Searchable(g, fat0, need0) <==> Searchable(g, fat, need))
    && (Plenty(g, fat0, need0) <==> Plenty(g, fat, need))
  }

  /** The two failures of the search for a cluster. */
  ghost predicate NoCluster(g: Geometry, fat: seq<nat>, err: Errno) {
    || (err == EIO && DiskFull(g, fat) && forall need: nat :: Searchable(g, fat, need))
    || (err == OFFMAP && NoFree(fat))
  }

  /** Why a write stops looking for clusters, and whether that was to be expected at its start. */
  ghost predicate Stopped(g: Geometry, v0: Vol, v: Vol, id: nat, off: nat, n: nat, err: Errno) {
    && g.bpc > 0 && id in v0.chain && id in v.chain && NoCluster(g, v.fat, err) && Want(g, off, n, |v.chain[id]|) > 0
    && (err == OFFMAP <==> !Searchable(g, v0.fat, Want(g, off, n, |v0.chain[id]|)))
    && !Plenty(g, v0.fat, Want(g, off, n, |v0.chain[id]|))
  }

  /** How the loop of a write ends. */
  ghost predicate Ended(g: Geometry, v0: Vol, v: Vol, id: nat, off: nat, done: nat, len: nat, budget: nat, err: Errno) {
    && g.bpc > 0 && id in v0.chain && id in v.chain
    && (err == OFFMAP <==> !Searchable(g, v0.fat, Want(g, off, Tried(len, budget), |v0.chain[id]|)))
    && (err == OFFMAP ==> NoFree(v.fat))
    && (Plenty(g, v0.fat, Want(g, off, Tried(len, budget), |v0.chain[id]|))
        <==> err != OFFMAP && Want(g, off, Tried(len, budget), |v.chain[id]|) == 0)
    && (err != OFFMAP && Want(g, off, Tried(len, budget), |v.chain[id]|) == 0 ==> done == Min(len, budget))
    && (err != OFFMAP && Want(g, off, Tried(len, budget), |v.chain[id]|) > 0 ==> DiskFull(g, v.fat))
  }

  lemma NotFound(g: Geometry, v0: Vol, v: Vol, id: nat, off: nat, n: nat, err: Errno)
    requires Ok(g, v) && id in v.files && id in v0.chain && id in v.chain && NoCluster(g, v.fat, err)
    requires g.bpc > 0 && |v.chain[id]| <= LastWanted(g, off, n)
    requires SameNeed(g, v0.fat, Want(g, off, n, |v0.chain[id]|), v.fat, Want(g, off, n, |v.chain[id]|))
    ensures Stopped(g, v0, v, id, off, n, err)
  {
    NoFreeIff(g, v.fat, Want(g, off, n, |v.chain[id]|));
    if Plenty(g, v.fat, Want(g, off, n, |v.chain[id]|)) { SomeFree(g, v.fat, Want(g, off, n, |v.chain[id]|)); }
    hide Searchable, LastWanted, NoFree;
  }

  /** The cluster of a byte that is tried for is one that is wanted. */
  lemma WantedAt(g: Geometry, off: nat, done: nat, n: nat)
    requires g.bpc > 0 && done < n
    ensures Ix(g, off + done) <= LastWanted(g, off, n)
  {
    IxMonotone(g, off + done, off + n - 1);
    hide Ix;
  }

  /** A round that takes no new cluster has all the clusters that the write wants. */
  lemma RoundStops(g: Geometry, v0: Vol, v: Vol, id: nat, off: nat, done: nat, done': nat, buf: seq<byte>, budget: nat)
    requires Midway(g, v0, v, id, off, done', buf, Tried(|buf|, budget)) && g.bpc > 0
    requires done < |buf| && done <= done' <= |buf| && done' <= budget && Ix(g, off + done) < |v.chain[id]|
    requires done' < |buf| ==> done' == budget && done' - done < g.bpc - Mask(g, off + done)
    ensures Ended(g, v0, v, id, off, done', |buf|, budget, OK)
  {
    var last := Tried(|buf|, budget) - 1;
    if done' < |buf| {
      SameCluster(g, off + done, done' - done);
    } else {
      BelowRoom(g, off + last, |v.chain[id]|);
    }
    assert Want(g, off, Tried(|buf|, budget), |v.chain[id]|) == 0;
    hide Ix, Mask, Room, Writing;
  }

  lemma NothingToWrite(g: Geometry, v0: Vol, v: Vol, id: nat, off: nat, buf: seq<byte>, budget: nat)
    requires Midway(g, v0, v, id, off, 0, buf, Tried(|buf|, budget)) && buf == [] && g.bpc > 0 && Ix(g, off) < |v.chain[id]|
    ensures Ended(g, v0, v, id, off, 0, |buf|, budget, OK)
  {
    assert Want(g, off, 0, |v.chain[id]|) == 0;
    hide Ix, Room, Writing;
  }

  /** The same disk read along a prefix of the same chain. */
  lemma SameBytes(g: Geometry, v: Vol, v': Vol, o: nat, k: nat)
    requires Ok(g, v) && Ok(g, v') && o in v.files && o in v'.files && v'.disk == v.disk
    requires v'.chain[o] <= v.chain[o] && k < Room(g, |v'.chain[o]|)
    ensures k < Room(g, |v.chain[o]|) && ByteOf(g, v', o, k) == ByteOf(g, v, o, k)
  {
    RoomMonotone(g, |v'.chain[o]|, |v.chain[o]|);
    FileFacts(g, v, o, k);
    FileFacts(g, v', o, k);
    hide Chain, Room, Ix, Mask;
  }

  lemma SameContent(g: Geometry, v: Vol, v': Vol, o: nat)
    requires Ok(g, v) && Ok(g, v') && o in v.files && o in v'.files && v'.disk == v.disk
    requires v'.chain[o] <= v.chain[o] && v'.files[o].size <= v.files[o].size
    ensures Content(g, v', o) == Content(g, v, o)[..v'.files[o].size]
  {
    FileFacts(g, v', o, 0);
    FileFacts(g, v, o, 0);
    forall k | 0 <= k < v'.files[o].size ensures Content(g, v', o)[k] == Content(g, v, o)[k] {
      SameBytes(g, v, v', o, k);
    }
    hide Chain, Room, Ix, Mask, Ok;
  }

  lemma SameOthers(g: Geometry, v: Vol, v': Vol, id: nat)
    requires Ok(g, v) && Ok(g, v') && v'.disk == v.disk
    requires forall o :: o in v.files && o != id ==> o in v'.files && v'.files[o] == v.files[o] && v'.chain[o] == v.chain[o]
    ensures OthersSame(g, v, v', id)
  {
    forall o | o in v.files && o != id ensures Content(g, v', o) == Content(g, v, o) {
      SameContent(g, v, v', o);
      assert |Content(g, v, o)| == v.files[o].size;
    }
    hide Content, Ok;
  }

  function Truncated(v: Vol, fat: seq<nat>, id: nat, offset: nat, i: nat): Vol
    requires id in v.files && id in v.chain && i < |v.chain[id]|
  {
    Vol(fat, v.disk, v.files[id := v.files[id].(size := offset)], v.chain[id := v.chain[id][..i + 1]])
  }

  lemma TruncatedValid(g: Geometry, v: Vol, fat: seq<nat>, id: nat, offset: nat)
    requires Ok(g, v) && id in v.files && offset <= v.files[id].size && Ix(g, offset) < |v.chain[id]|
    requires Cut(v.fat, fat, v.chain[id], Ix(g, offset) + 1, |v.chain[id]|)
    ensures Ok(g, Truncated(v, fat, id, offset, Ix(g, offset)))
  {
    hide Chain, Cut, Room, Ix;
    var i := Ix(g, offset);
    var v' := Truncated(v, fat, id, offset, i);
    assert FileOk(g, v, id);
    CutChain(g, v.fat, fat, v.chain[id], i + 1);
    CutLength(v.fat, fat, v.chain[id], i + 1, |v.chain[id]|);
    BelowRoom(g, offset, i + 1);
    BackedStill(g, v.disk, v.chain[id], v.files[id].size, v.disk, v.chain[id][..i + 1], offset);
    forall o | o in v.files && o != id ensures FileOk(g, v', o) {
      CutOther(g, v, fat, id, i + 1, o);
      assert FileOk(g, v, o);
    }
    forall a, b | a in v.chain && b in v.chain && a != b ensures Separate(v'.chain[a], v'.chain[b]) {
      assert Separate(v.chain[a], v.chain[b]);
    }
  }

  lemma TruncatedOk(g: Geometry, v: Vol, fat: seq<nat>, id: nat, offset: nat)
    requires Ok(g, v) && id in v.files && offset <= v.files[id].size && Ix(g, offset) < |v.chain[id]|
    requires Cut(v.fat, fat, v.chain[id], Ix(g, offset) + 1, |v.chain[id]|)
    ensures var v' := Truncated(v, fat, id, offset, Ix(g, offset));
            && Ok(g, v') && Content(g, v', id) == Content(g, v, id)[..offset]
            && OthersSame(g, v, v', id) && Gave(g, v.fat, fat, v.chain[id][Ix(g, offset) + 1..])
  {
    var v' := Truncated(v, fat, id, offset, Ix(g, offset));
    TruncatedValid(g, v, fat, id, offset);
    FileFacts(g, v, id, 0);
    CutGave(g, v.fat, fat, v.chain[id], Ix(g, offset) + 1);
    hide Chain, Cut, Room, Ix, Content, OthersSame, Gave;
    SameContent(g, v, v', id);
    SameOthers(g, v, v', id);
  }

  lemma EliminatedOk(g: Geometry, v: Vol, fat: seq<nat>, id: nat)
    requires Ok(g, v) && id in v.files && Cut(v.fat, fat, v.chain[id], 0, |v.chain[id]|)
    ensures var v' := Vol(fat, v.disk, v.files - {id}, v.chain - {id});
            Ok(g, v') && OthersSame(g, v, v', id) && Gave(g, v.fat, fat, v.chain[id])
  {
    var v' := Vol(fat, v.disk, v.files - {id}, v.chain - {id});
    FileFacts(g, v, id, 0);
    CutGave(g, v.fat, fat, v.chain[id], 0);
    CutLength(v.fat, fat, v.chain[id], 0, |v.chain[id]|);
    assert v.chain[id][0..] == v.chain[id];
    forall o | o in v'.files ensures FileOk(g, v', o) {
      CutOther(g, v, fat, id, 0, o);
      assert FileOk(g, v, o);
    }
    forall a, b | a in v'.chain && b in v'.chain && a != b ensures Separate(v'.chain[a], v'.chain[b]) {
      assert Separate(v.chain[a], v.chain[b]);
    }
    hide Chain, Cut, Separate, Room, Gave;
    assert Ok(g, v');
    SameOthers(g, v, v', id);
  }

  lemma AddressIs(g: Geometry, ch: seq<nat>, k: nat)
    requires Covered(g, ch, k)
    ensures Address(g, ch, k) == ClusterOffset(g, ch[Ix(g, k)]) + Mask(g, k)
  {
  }

  lemma HasChain(g: Geometry, v: Vol, id: nat)
    requires Ok(g, v) && id in v.files
    ensures id in v.chain && g.bpc > 0
  {
  }

  lemma ResizeSame(v: Vol, id: nat)
    requires id in v.files
    ensures Resize(v, id, v.files[id].size) == v
  {
    assert v.files[id := v.files[id].(size := v.files[id].size)] == v.files;
  }

  lemma LastIx(g: Geometry, off: nat, n: nat)
    requires g.bpc > 0 && off > 0 && Mask(g, off) == 0
    ensures Ix(g, off - 1) + 1 <= LastWanted(g, off, n)
  {
    IxPrevious(g, off);
    IxMonotone(g, off, if n == 0 then off else off + n - 1);
    hide Ix, Mask;
  }

  /** Where a write starts. */
  lemma StartFacts(g: Geometry, v: Vol, id: nat, off: nat)
    requires Ok(g, v) && id in v.files && off <= v.files[id].size
    ensures g.bpc > 0 && id in v.chain && GoodFat(g, v.fat) && Chain(g, v.fat, v.chain[id]) && v.chain[id] != []
    ensures v.chain[id][0] == v.files[id].start && off <= Room(g, |v.chain[id]|)
    ensures var start := if off == 0 then 0 else off - 1;
            && Ix(g, start) < |v.chain[id]| && v.chain[id][Ix(g, start)] != 0
            && (off == 0 || Mask(g, off) != 0 ==> Ix(g, off) == Ix(g, start))
            && (off != 0 && Mask(g, off) == 0 ==> Ix(g, off) == Ix(g, start) + 1)
  {
    var start := if off == 0 then 0 else off - 1;
    FileFacts(g, v, id, start);
    if off > 0 { IxPrevious(g, off); } else { BelowRoom(g, 0, |v.chain[id]|); }
    assert LinkOk(g, v.fat, v.chain[id], 0);
    if off == 0 { RoomPositive(g, |v.chain[id]|); }
    hide Chain, Ix, Mask, Room;
  }

  lemma RoomPositive(g: Geometry, n: nat)
    requires g.bpc > 0 && n > 0
    ensures Room(g, n) > 0
  {
    RoomMonotone(g, 1, n);
  }

  lemma WantGrow(g: Geometry, v: Vol, id: nat, c: nat, off: nat, n: nat)
    requires Ok(g, v) && id in v.files && ValidCluster(g, c) && c < |v.fat| && v.fat[c] == FREE
    requires |v.chain[id]| <= LastWanted(g, off, n)
    ensures v.chain[id] != [] && v.chain[id][|v.chain[id]| - 1] < |v.fat|
    ensures SameNeed(g, v.fat, Want(g, off, n, |v.chain[id]|), Grow(v, id, c).fat, Want(g, off, n, |v.chain[id]| + 1))
  {
    LastOk(g, v, id);
    var last := v.chain[id][|v.chain[id]| - 1];
    SearchableLess(g, v.fat, Want(g, off, n, |v.chain[id]|), last, c);
    PlentyLess(g, v.fat, Want(g, off, n, |v.chain[id]|), last, c);
    hide Chain, Ix;
  }

  /** The next piece of a write lies in one cluster of the chain. */
  lemma PlaceFits(g: Geometry, v0: Vol, v: Vol, id: nat, off: nat, done: nat, buf: seq<byte>, n: nat)
    requires Writing(g, v0, v, id, off, done, buf) && Ix(g, off + done) < |v.chain[id]|
    requires n <= g.bpc - Mask(g, off + done) && done + n <= |buf|
    ensures Ok(g, v) && Fits(g, v.chain[id], off + done, buf[done..done + n])
  {
    FileFacts(g, v, id, off + done);
    hide Ix, Mask, Chain;
  }

  lemma ChainAt(g: Geometry, fat: seq<nat>, ch: seq<nat>, i: nat)
    requires GoodFat(g, fat) && Chain(g, fat, ch) && (i < |ch| || i == 0)
    ensures i < |ch| && ValidCluster(g, ch[i]) && ch[i] < |fat| && ch[i] != EOC
    ensures Leads(NextOf(g, fat, ch[i]), ch, i + 1)
  {
    assert LinkOk(g, fat, ch, i);
  }

  lemma ChainOf(g: Geometry, v: Vol, id: nat, i: nat)
    requires Ok(g, v) && id in v.files && i < |v.chain[id]|
    ensures id in v.chain && GoodFat(g, v.fat) && ValidCluster(g, v.chain[id][i]) && v.chain[id][i] < |v.fat|
    ensures Leads(NextOf(g, v.fat, v.chain[id][i]), v.chain[id], i + 1)
    ensures v.chain[id][i] < BAD
    ensures i + 1 < |v.chain[id]| ==> ValidCluster(g, v.chain[id][i + 1]) && v.chain[id][i + 1] < BAD
  {
    assert FileOk(g, v, id);
    ChainAt(g, v.fat, v.chain[id], i);
    if i + 1 < |v.chain[id]| { ChainAt(g, v.fat, v.chain[id], i + 1); }
  }

  lemma FileFacts(g: Geometry, v: Vol, id: nat, offset: nat)
    requires Ok(g, v) && id in v.files
    ensures id in v.chain && GoodFat(g, v.fat) && Chain(g, v.fat, v.chain[id])
    ensures v.chain[id] != [] && v.chain[id][0] == v.files[id].start
    ensures v.files[id].size <= Room(g, |v.chain[id]|) && Distinct(v.chain[id])
    ensures Backed(g, v.disk, v.chain[id], v.files[id].size)
    ensures offset < Room(g, |v.chain[id]|) <==> Ix(g, offset) < |v.chain[id]|
    ensures Ix(g, offset) < |v.chain[id]| ==>
              && Covered(g, v.chain[id], offset) && v.chain[id][Ix(g, offset)] < |v.fat|
              && ValidCluster(g, v.chain[id][Ix(g, offset)]) && v.chain[id][Ix(g, offset)] < BAD
  {
    assert FileOk(g, v, id);
    BelowRoom(g, offset, |v.chain[id]|);
    ChainCovers(g, v.fat, v.chain[id], offset);
    if Ix(g, offset) < |v.chain[id]| { ChainAt(g, v.fat, v.chain[id], Ix(g, offset)); }
  }

  /** A piece within one cluster is within the disk. */
  lemma ReadFits(g: Geometry, v: Vol, id: nat, k: nat, n: nat)
    requires Ok(g, v) && id in v.files && k < v.files[id].size && k + n <= v.files[id].size && n <= g.bpc - Mask(g, k)
    ensures Covered(g, v.chain[id], k) && Address(g, v.chain[id], k) + n <= |v.disk|
  {
    hide Chain, Room, GoodFat, Ok, Address;
    FileFacts(g, v, id, k);
    var last := if n == 0 then k else k + n - 1;
    assert Here(g, v.disk, v.chain[id], last) && Here(g, v.disk, v.chain[id], k);
    Consecutive(g, v.chain[id], k, last);
  }

  /** The bytes on disk are the bytes of the file. */
  lemma ReadPiece(g: Geometry, v: Vol, id: nat, off: nat, k: nat, n: nat)
    requires Ok(g, v) && id in v.files && off <= k < v.files[id].size && k + n <= v.files[id].size
    requires n <= g.bpc - Mask(g, k)
    ensures Covered(g, v.chain[id], k) && Address(g, v.chain[id], k) + n <= |v.disk|
    ensures var at := Address(g, v.chain[id], k);
            Content(g, v, id)[off..k] + v.disk[at..at + n] == Content(g, v, id)[off..k + n]
  {
    FileFacts(g, v, id, k);
    ReadFits(g, v, id, k, n);
    var at, c := Address(g, v.chain[id], k), Content(g, v, id);
    forall m | k <= m < k + n ensures c[m] == v.disk[at + m - k] {
      ReadByte(g, v, id, k, m);
    }
    hide Ok, Address, Content, Chain, Room, Mask, Covered, ByteOf;
    var piece := v.disk[at..at + n];
    assert forall m :: 0 <= m < n ==> piece[m] == c[k + m];
    assert c[off..k + n] == c[off..k] + c[k..k + n];
    assert c[k..k + n] == piece;
  }

  lemma ReadByte(g: Geometry, v: Vol, id: nat, k: nat, m: nat)
    requires Ok(g, v) && id in v.files && k <= m < v.files[id].size && m - k < g.bpc - Mask(g, k)
    ensures Covered(g, v.chain[id], k) && Address(g, v.chain[id], k) + (m - k) < |v.disk|
    ensures Content(g, v, id)[m] == v.disk[Address(g, v.chain[id], k) + (m - k)]
  {
    FileFacts(g, v, id, k);
    FileFacts(g, v, id, m);
    ReadFits(g, v, id, k, m - k + 1);
    Consecutive(g, v.chain[id], k, m);
    hide Ok, Address, Chain, Room;
  }

  /** A whole piece ends where the next cluster of the chain begins, or the last byte was in it. */
  lemma AfterPiece(g: Geometry, v: Vol, id: nat, k: nat, n: nat, remaining: nat)
    requires Ok(g, v) && id in v.files && Ix(g, k) < |v.chain[id]| && n == Min(g.bpc - Mask(g, k), remaining)
    requires k + remaining <= v.files[id].size
    ensures v.chain[id][Ix(g, k)] < |v.fat|
    ensures n < remaining ==>
              && Mask(g, k + n) == 0 && Ix(g, k + n) < |v.chain[id]|
              && NextOf(g, v.fat, v.chain[id][Ix(g, k)]) == v.chain[id][Ix(g, k + n)]
  {
    hide Ok, Chain, Covered, Room, Mask, Ix;
    NextPiece(g, v, id, k, n);
    FileFacts(g, v, id, k + n);
    NextCluster(g, k);
  }

  lemma NextPiece(g: Geometry, v: Vol, id: nat, k: nat, n: nat)
    requires Ok(g, v) && id in v.files && Ix(g, k) < |v.chain[id]| && n <= g.bpc - Mask(g, k)
    ensures var c := v.chain[id][Ix(g, k)];
            && c < |v.fat|
            && (n == g.bpc - Mask(g, k) ==>
                  Ix(g, k + n) == Ix(g, k) + 1
                  && (Ix(g, k + n) < |v.chain[id]| ==> NextOf(g, v.fat, c) == v.chain[id][Ix(g, k + n)]))
  {
    ChainOf(g, v, id, Ix(g, k));
    NextCluster(g, k);
    hide Ok, Ix, Mask;
  }

  // ---- the stored size ----

  /** What pwrite leaves in the 32 bits of file_size after k bytes at off. */
  function SizeStored(off: nat, k: nat, size: nat): nat { if off + k > size then (off + k) % UINT else size }

  /** What pread finds of w, which pwrite has put at off. */
  lemma ReadBack(before: seq<byte>, off: nat, w: seq<byte>, c: seq<byte>)
    requires off <= |before| < UINT && SizeStored(off, |w|, |before|) <= |Patched(before, off, w)|
    requires c == Patched(before, off, w)[..SizeStored(off, |w|, |before|)]
    ensures off + |w| < UINT ==> off + |w| <= |c| && c[off..off + |w|] == w
    ensures off + |w| >= UINT ==> |c| < off + |w| && w != []
  {
    PatchedSlice(before, off, w);
    hide Patched;
  }

  lemma ReadWhole(g: Geometry, off: nat, k: nat, size: nat)
    requires g.bpc > 0 && off <= size
    ensures WholePieces(g, off, Min(k, size - off), k) == Min(k, size - off)
  {
    AllPieces(g, off, Min(k, size - off), k);
  }

  lemma HasSize(g: Geometry, v: Vol, id: nat)
    requires Ok(g, v) && id in v.files
    ensures |Content(g, v, id)| == v.files[id].size && g.bpc > 0
  {
  }

  /** The file ends at its stored size, even when that is the smaller one. */
  lemma Wrapped(g: Geometry, v0: Vol, v: Vol, id: nat, off: nat, done: nat, buf: seq<byte>)
    requires Writing(g, v0, v, id, off, done, buf) && off <= v0.files[id].size && off + done <= Room(g, |v.chain[id]|)
    ensures var v' := Resize(v, id, SizeStored(off, done, v0.files[id].size));
            var c := Patched(Content(g, v0, id), off, buf[..done]);
            && Ok(g, v') && SizeStored(off, done, v0.files[id].size) <= |c|
            && Content(g, v', id) == c[..SizeStored(off, done, v0.files[id].size)]
            && OthersSame(g, v0, v', id) && Grew(g, v0, v', id)
  {
    hide Content, Patched, Room, Chain, TookFree, Ok, ByteIs, ByteSame, OthersSame;
    WriteEnd(g, v0, v, id, off, done, buf);
    var w := Resize(v, id, EndSize(off, done, v0.files[id].size));
    var size := SizeStored(off, done, v0.files[id].size);
    Shrunk(g, v0, w, id, size);
    assert Resize(v, id, size) == Resize(w, id, size);
  }

  lemma Shrunk(g: Geometry, v0: Vol, w: Vol, id: nat, size: nat)
    requires OthersSame(g, v0, w, id) && Grew(g, v0, w, id) && id in w.files && size <= w.files[id].size
    ensures var v' := Resize(w, id, size);
            && Ok(g, v') && Content(g, v', id) == Content(g, w, id)[..size]
            && OthersSame(g, v0, v', id) && Grew(g, v0, v', id)
  {
    hide Content, Chain, Room, Ix, Mask, TookFree;
    ShorterOk(g, w, id, size);
    var v' := Resize(w, id, size);
    SameContent(g, w, v', id);
    SameOthers(g, w, v', id);
  }

  lemma ShorterOk(g: Geometry, v: Vol, id: nat, size: nat)
    requires Ok(g, v) && id in v.files && size <= v.files[id].size
    ensures Ok(g, Resize(v, id, size))
  {
    var v' := Resize(v, id, size);
    forall o | o in v'.files ensures FileOk(g, v', o) { assert FileOk(g, v, o); }
    hide Chain, Room;
  }
}
