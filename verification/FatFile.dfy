/** The operations of Lab4/fat-fuse/fat_file.c on a volume: reading, writing, truncating and
    deleting files, each against the file's contents as a byte sequence. */
module FatFile {
  import opened FatTable
  import opened FatBytes
  import opened Sequences

  /** OFFMAP stands for a read beyond the FAT map, which no errno reports. */
  datatype Errno = OK | EOVERFLOW | EIO | OFFMAP

  /** start_cluster and dentry->file_size of a file. */
  datatype File = File(start: nat, size: nat)

  /** A volume, with the chain of every file. */
  datatype Vol = Vol(fat: seq<nat>, disk: seq<byte>, files: map<nat, File>, chain: map<nat, seq<nat>>)

  ghost predicate FileOk(g: Geometry, v: Vol, id: nat)
    requires id in v.files && id in v.chain
  {
    && Chain(g, v.fat, v.chain[id]) && v.chain[id][0] == v.files[id].start
    && v.files[id].size <= Room(g, |v.chain[id]|)
    && Backed(g, v.disk, v.chain[id], v.files[id].size)
  }

  /** No cluster belongs to two files. */
  ghost predicate Separate(a: seq<nat>, b: seq<nat>) {
    forall c :: c in a ==> c !in b
  }

  ghost predicate AllSeparate(chain: map<nat, seq<nat>>) {
    forall a, b :: a in chain && b in chain && a != b ==> Separate(chain[a], chain[b])
  }

  ghost predicate Ok(g: Geometry, v: Vol) {
    && GoodFat(g, v.fat) && v.files.Keys == v.chain.Keys
    && (forall id :: id in v.files ==> FileOk(g, v, id))
    && AllSeparate(v.chain)
  }

  lemma ChainCovers(g: Geometry, fat: seq<nat>, ch: seq<nat>, k: nat)
    requires GoodFat(g, fat) && Chain(g, fat, ch)
    ensures Covered(g, ch, k) <==> k < Room(g, |ch|)
    ensures Distinct(ch)
  {
    BelowRoom(g, k, |ch|);
    if Ix(g, k) < |ch| { assert LinkOk(g, fat, ch, Ix(g, k)); }
    forall i, j | 0 <= i < |ch| && 0 <= j < |ch| && ch[i] == ch[j] ensures i == j { Acyclic(g, fat, ch, i, j); }
  }

  ghost function ByteOf(g: Geometry, v: Vol, id: nat, k: nat): byte
    requires Ok(g, v) && id in v.files && k < Room(g, |v.chain[id]|)
  {
    ChainCovers(g, v.fat, v.chain[id], k);
    ByteAt(g, v.disk, v.chain[id], k)
  }

  /** What reading the whole file would give. */
  ghost function Content(g: Geometry, v: Vol, id: nat): (c: seq<byte>)
    requires Ok(g, v) && id in v.files
    ensures |c| == v.files[id].size
    ensures forall k :: 0 <= k < |c| ==> c[k] == ByteOf(g, v, id, k)
  {
    seq(v.files[id].size, k requires 0 <= k < v.files[id].size => ByteOf(g, v, id, k))
  }

  /** Nothing about the other files has changed. */
  ghost predicate OthersSame(g: Geometry, v: Vol, v': Vol, id: nat) {
    && Ok(g, v) && Ok(g, v')
    && forall o :: o in v.files && o != id ==>
         && o in v'.files && v'.files[o] == v.files[o] && v'.chain[o] == v.chain[o]
         && Content(g, v', o) == Content(g, v, o)
  }

  function Min(a: nat, b: nat): nat { if a < b then a else b }

  // ---- the three updates of a write ----

  /** A free cluster joins the chain of a file. */
  function Grow(v: Vol, id: nat, c: nat): Vol
    requires id in v.chain && v.chain[id] != [] && v.chain[id][|v.chain[id]| - 1] < |v.fat| && c < |v.fat|
  {
    v.(fat := Extended(v.fat, v.chain[id][|v.chain[id]| - 1], c), chain := v.chain[id := v.chain[id] + [c]])
  }

  lemma LastOk(g: Geometry, v: Vol, id: nat)
    requires Ok(g, v) && id in v.files
    ensures v.chain[id] != [] && forall i :: 0 <= i < |v.chain[id]| ==>
              ValidCluster(g, v.chain[id][i]) && v.chain[id][i] < |v.fat| && v.fat[v.chain[id][i]] != FREE
  {
    assert FileOk(g, v, id);
    forall i | 0 <= i < |v.chain[id]|
      ensures ValidCluster(g, v.chain[id][i]) && v.chain[id][i] < |v.fat| && v.fat[v.chain[id][i]] != FREE
    {
      assert LinkOk(g, v.fat, v.chain[id], i);
    }
  }

  lemma GrowOk(g: Geometry, v: Vol, id: nat, c: nat)
    requires Ok(g, v) && id in v.files && ValidCluster(g, c) && c < |v.fat| && v.fat[c] == FREE
    ensures v.chain[id] != [] && v.chain[id][|v.chain[id]| - 1] < |v.fat|
    ensures Ok(g, Grow(v, id, c))
  {
    LastOk(g, v, id);
    var v' := Grow(v, id, c);
    assert FileOk(g, v, id);
    ExtendChain(g, v.fat, v.chain[id], c);
    RoomGrows(g, |v.chain[id]|);
    GrowSeparate(g, v, id, c);
    BackedStill(g, v.disk, v.chain[id], v.files[id].size, v.disk, v.chain[id] + [c], v.files[id].size);
    forall o | o in v.files && o != id ensures FileOk(g, v', o) { GrowOther(g, v, id, c, o); }
    hide Chain, Separate, AllSeparate, Extended, Room, Backed;
  }

  lemma GrowOther(g: Geometry, v: Vol, id: nat, c: nat, o: nat)
    requires Ok(g, v) && id in v.files && o in v.files && o != id && ValidCluster(g, c) && c < |v.fat| && v.fat[c] == FREE
    ensures v.chain[id] != [] && v.chain[id][|v.chain[id]| - 1] < |v.fat|
    ensures FileOk(g, Grow(v, id, c), o)
  {
    LastOk(g, v, id);
    LastOk(g, v, o);
    var last := v.chain[id][|v.chain[id]| - 1];
    assert FileOk(g, v, o) && Separate(v.chain[id], v.chain[o]) && last in v.chain[id];
    forall i | 0 <= i < |v.chain[o]| ensures v.chain[o][i] != last && v.chain[o][i] != c {
      assert v.chain[o][i] in v.chain[o];
    }
    OtherChain(g, v.fat, Extended(v.fat, last, c), v.chain[o]);
    hide Chain, AllSeparate, Separate, Backed;
  }

  lemma RoomGrows(g: Geometry, n: nat)
    ensures Room(g, n + 1) == Room(g, n) + g.bpc
  {
  }

  lemma GrowSeparate(g: Geometry, v: Vol, id: nat, c: nat)
    requires Ok(g, v) && id in v.files && ValidCluster(g, c) && c < |v.fat| && v.fat[c] == FREE
    ensures AllSeparate(v.chain[id := v.chain[id] + [c]])
  {
    forall o | o in v.files ensures c !in v.chain[o] { LastOk(g, v, o); }
    var chain' := v.chain[id := v.chain[id] + [c]];
    forall a, b | a in chain' && b in chain' && a != b ensures Separate(chain'[a], chain'[b]) {
      assert Separate(v.chain[a], v.chain[b]);
    }
  }

  /** Bytes k..k + |w| of a file, within one cluster, are overwritten on disk. */
  ghost function Put(g: Geometry, v: Vol, id: nat, k: nat, w: seq<byte>): Vol
    requires id in v.chain && Covered(g, v.chain[id], k)
  {
    v.(disk := Written(v.disk, Address(g, v.chain[id], k), w))
  }

  lemma PutOk(g: Geometry, v: Vol, id: nat, k: nat, w: seq<byte>)
    requires Ok(g, v) && id in v.files && Fits(g, v.chain[id], k, w)
    ensures v.files.Keys == v.chain.Keys && Covered(g, v.chain[id], k)
    ensures Ok(g, Put(g, v, id, k, w))
  {
    hide Chain, Separate, Address, AllSeparate, Written, Backed, Room, Covered;
    var v' := Put(g, v, id, k, w);
    forall o | o in v.files ensures FileOk(g, v', o) {
      assert FileOk(g, v, o);
      BackedStill(g, v.disk, v.chain[o], v.files[o].size, v'.disk, v.chain[o], v.files[o].size);
    }
  }

  lemma PutBytes(g: Geometry, v: Vol, id: nat, k: nat, w: seq<byte>, o: nat, m: nat)
    requires Ok(g, v) && id in v.files && Fits(g, v.chain[id], k, w) && o in v.files && m < Room(g, |v.chain[o]|)
    ensures Ok(g, Put(g, v, id, k, w)) && |Put(g, v, id, k, w).disk| >= |v.disk|
    ensures ByteOf(g, Put(g, v, id, k, w), o, m)
            == if o == id && k <= m < k + |w| then w[m - k] else ByteOf(g, v, o, m)
    ensures o == id && k <= m < k + |w| ==> Here(g, Put(g, v, id, k, w).disk, v.chain[id], m)
  {
    PutOk(g, v, id, k, w);
    assert FileOk(g, v, o) && FileOk(g, v, id);
    ChainCovers(g, v.fat, v.chain[o], m);
    ChainCovers(g, v.fat, v.chain[id], k);
    if o == id {
      WriteSame(g, v.disk, v.chain[id], k, w, m);
    } else {
      assert Separate(v.chain[o], v.chain[id]);
      assert v.chain[o][Ix(g, m)] in v.chain[o];
      WriteOther(g, v.disk, v.chain[id], k, w, v.chain[o], m);
    }
    hide Chain, Address, Written, Covered;
  }

  // ---- a write in progress ----

  /** What ch has more than ch0 was free, and is all that is no longer free. */
  ghost predicate TookFree(g: Geometry, fat0: seq<nat>, fat: seq<nat>, ch0: seq<nat>, ch: seq<nat>) {
    && ch0 <= ch && |fat0| == |fat|
    && (forall i :: |ch0| <= i < |ch| ==> ch[i] < |fat0| && fat0[ch[i]] == FREE)
    && (forall c :: 2 <= c < |fat| ==> (fat[c] == FREE <==> fat0[c] == FREE && c !in ch))
  }

  /** The chain of id has grown by clusters that were free, and by nothing else. */
  ghost predicate Grew(g: Geometry, v0: Vol, v: Vol, id: nat) {
    && Ok(g, v0) && Ok(g, v) && id in v0.files && v.files.Keys == v0.files.Keys
    && TookFree(g, v0.fat, v.fat, v0.chain[id], v.chain[id])
    && (forall o :: o in v0.files && o != id ==> v.chain[o] == v0.chain[o])
  }

  /** Byte k of file id when the first `done` bytes of buf have gone to off.. */
  ghost predicate ByteIs(g: Geometry, v0: Vol, v: Vol, id: nat, off: nat, done: nat, buf: seq<byte>, k: nat)
    requires Ok(g, v0) && Ok(g, v) && id in v0.files && id in v.files && done <= |buf|
  {
    k < Room(g, |v.chain[id]|) ==>
      && (off <= k < off + done ==> Here(g, v.disk, v.chain[id], k) && ByteOf(g, v, id, k) == buf[k - off])
      && (k < Room(g, |v0.chain[id]|) && !(off <= k < off + done) ==> ByteOf(g, v, id, k) == ByteOf(g, v0, id, k))
  }

  ghost predicate ByteSame(g: Geometry, v0: Vol, v: Vol, o: nat, k: nat)
    requires Ok(g, v0) && Ok(g, v) && o in v0.files && o in v.files
  {
    k < Room(g, |v0.chain[o]|) && k < Room(g, |v.chain[o]|) ==> ByteOf(g, v, o, k) == ByteOf(g, v0, o, k)
  }

  ghost predicate Writing(g: Geometry, v0: Vol, v: Vol, id: nat, off: nat, done: nat, buf: seq<byte>) {
    && Grew(g, v0, v, id) && v.files == v0.files && done <= |buf|
    && (forall k: nat {:trigger ByteIs(g, v0, v, id, off, done, buf, k)} :: ByteIs(g, v0, v, id, off, done, buf, k))
    && (forall o, k: nat {:trigger ByteSame(g, v0, v, o, k)} :: o in v0.files && o != id ==> ByteSame(g, v0, v, o, k))
  }

  lemma WriteStart(g: Geometry, v: Vol, id: nat, off: nat, buf: seq<byte>)
    requires Ok(g, v) && id in v.files
    ensures Writing(g, v, v, id, off, 0, buf)
  {
    assert Grew(g, v, v, id) by {
      LastOk(g, v, id);
      forall c | 2 <= c < |v.fat| && v.fat[c] == FREE ensures c !in v.chain[id] { }
    }
    hide Ok, Grew, ByteOf;
  }

  lemma GrowBytes(g: Geometry, v: Vol, id: nat, c: nat, o: nat, k: nat)
    requires Ok(g, v) && id in v.files && ValidCluster(g, c) && c < |v.fat| && v.fat[c] == FREE
    requires o in v.files && k < Room(g, |v.chain[o]|)
    ensures v.chain[id] != [] && v.chain[id][|v.chain[id]| - 1] < |v.fat|
    ensures Ok(g, Grow(v, id, c)) && k < Room(g, |Grow(v, id, c).chain[o]|)
    ensures ByteOf(g, Grow(v, id, c), o, k) == ByteOf(g, v, o, k)
  {
    GrowOk(g, v, id, c);
    RoomGrows(g, |v.chain[id]|);
    assert FileOk(g, v, o);
    ChainCovers(g, v.fat, v.chain[o], k);
    hide Chain, AllSeparate, Room;
  }

  lemma GrowGrew(g: Geometry, v0: Vol, v: Vol, id: nat, c: nat)
    requires Grew(g, v0, v, id) && ValidCluster(g, c) && c < |v.fat| && v.fat[c] == FREE
    ensures v.chain[id] != [] && v.chain[id][|v.chain[id]| - 1] < |v.fat|
    ensures Grew(g, v0, Grow(v, id, c), id)
  {
    GrowOk(g, v, id, c);
    LastOk(g, v, id);
    var last := v.chain[id][|v.chain[id]| - 1];
    hide Ok;
    TookOne(g, v0.fat, v.fat, v0.chain[id], v.chain[id], c);
    hide TookFree, Extended;
  }

  lemma TookOne(g: Geometry, fat0: seq<nat>, fat: seq<nat>, ch0: seq<nat>, ch: seq<nat>, c: nat)
    requires TookFree(g, fat0, fat, ch0, ch) && ValidCluster(g, c) && c < |fat| && fat[c] == FREE && ch != []
    requires ValidCluster(g, ch[|ch| - 1]) && ch[|ch| - 1] < |fat| && fat[ch[|ch| - 1]] != FREE
    ensures TookFree(g, fat0, Extended(fat, ch[|ch| - 1], c), ch0, ch + [c])
  {
    var fat', ch' := Extended(fat, ch[|ch| - 1], c), ch + [c];
    assert ch[|ch| - 1] in ch;
    forall x | 2 <= x < |fat| ensures fat'[x] == FREE <==> fat0[x] == FREE && x !in ch' {
      assert x in ch' <==> x in ch || x == c;
    }
  }

  lemma WriteGrow(g: Geometry, v0: Vol, v: Vol, id: nat, off: nat, done: nat, buf: seq<byte>, c: nat)
    requires Writing(g, v0, v, id, off, done, buf) && ValidCluster(g, c) && c < |v.fat| && v.fat[c] == FREE
    requires off + done <= Room(g, |v.chain[id]|)
    ensures v.chain[id] != [] && v.chain[id][|v.chain[id]| - 1] < |v.fat|
    ensures Writing(g, v0, Grow(v, id, c), id, off, done, buf)
  {
    GrowGrew(g, v0, v, id, c);
    var v' := Grow(v, id, c);
    RoomMonotone(g, |v0.chain[id]|, |v.chain[id]|);
    forall k: nat ensures ByteIs(g, v0, v', id, off, done, buf, k) {
      assert ByteIs(g, v0, v, id, off, done, buf, k);
      if k < Room(g, |v.chain[id]|) { GrowBytes(g, v, id, c, id, k); }
    }
    forall o, k: nat | o in v0.files && o != id ensures ByteSame(g, v0, v', o, k) {
      assert ByteSame(g, v0, v, o, k);
      if k < Room(g, |v.chain[o]|) { GrowBytes(g, v, id, c, o, k); }
    }
    hide Ok, Grew, ByteIs, ByteSame, Grow;
  }

  lemma RoomMonotone(g: Geometry, a: nat, b: nat)
    requires a <= b
    ensures Room(g, a) <= Room(g, b)
  {
    var d := b - a;
    assert d * g.bpc >= 0 && b * g.bpc == a * g.bpc + d * g.bpc;
  }

  lemma WritePut(g: Geometry, v0: Vol, v: Vol, id: nat, off: nat, done: nat, buf: seq<byte>, w: seq<byte>)
    requires Writing(g, v0, v, id, off, done, buf) && Fits(g, v.chain[id], off + done, w)
    requires done + |w| <= |buf| && w == buf[done..done + |w|]
    ensures Writing(g, v0, Put(g, v, id, off + done, w), id, off, done + |w|, buf)
  {
    hide Ok, ByteIs, ByteSame, TookFree, Written, Fits;
    PutOk(g, v, id, off + done, w);
    var v', d := Put(g, v, id, off + done, w), done + |w|;
    assert Grew(g, v0, v', id);
    forall k: nat ensures ByteIs(g, v0, v', id, off, d, buf, k) { PutIs(g, v0, v, id, off, done, buf, w, k); }
    forall o, k: nat | o in v0.files && o != id ensures ByteSame(g, v0, v', o, k) { PutSame(g, v0, v, id, off, done, buf, w, o, k); }
  }

  lemma PutIs(g: Geometry, v0: Vol, v: Vol, id: nat, off: nat, done: nat, buf: seq<byte>, w: seq<byte>, k: nat)
    requires Writing(g, v0, v, id, off, done, buf) && Fits(g, v.chain[id], off + done, w)
    requires done + |w| <= |buf| && w == buf[done..done + |w|]
    ensures Ok(g, Put(g, v, id, off + done, w)) && ByteIs(g, v0, Put(g, v, id, off + done, w), id, off, done + |w|, buf, k)
  {
    hide Ok, TookFree, Written, Fits, ByteSame, ByteOf, Room, Covered;
    PutOk(g, v, id, off + done, w);
    assert ByteIs(g, v0, v, id, off, done, buf, k);
    if k < Room(g, |v.chain[id]|) { PutBytes(g, v, id, off + done, w, id, k); }
  }

  lemma PutSame(g: Geometry, v0: Vol, v: Vol, id: nat, off: nat, done: nat, buf: seq<byte>, w: seq<byte>, o: nat, k: nat)
    requires Writing(g, v0, v, id, off, done, buf) && Fits(g, v.chain[id], off + done, w) && o in v0.files && o != id
    ensures Ok(g, Put(g, v, id, off + done, w)) && ByteSame(g, v0, Put(g, v, id, off + done, w), o, k)
  {
    hide Ok, TookFree, Written, Fits, ByteIs, ByteOf, Room, Covered;
    PutOk(g, v, id, off + done, w);
    assert ByteSame(g, v0, v, o, k);
    if k < Room(g, |v.chain[o]|) { PutBytes(g, v, id, off + done, w, o, k); }
  }

  // ---- the end of a write ----

  function Resize(v: Vol, id: nat, size: nat): Vol
    requires id in v.files
  {
    v.(files := v.files[id := v.files[id].(size := size)])
  }

  lemma ResizeOk(g: Geometry, v: Vol, id: nat, size: nat)
    requires Ok(g, v) && id in v.files && size <= Room(g, |v.chain[id]|)
    requires Backed(g, v.disk, v.chain[id], size)
    ensures Ok(g, Resize(v, id, size))
    ensures forall o, k: nat :: o in v.files && k < Room(g, |v.chain[o]|) ==>
              ByteOf(g, Resize(v, id, size), o, k) == ByteOf(g, v, o, k)
  {
    forall o | o in v.files ensures FileOk(g, Resize(v, id, size), o) { assert FileOk(g, v, o); }
    hide Chain, AllSeparate, Room, Covered, ByteAt, Backed;
  }

  lemma EndContent(g: Geometry, v0: Vol, v: Vol, id: nat, off: nat, done: nat, buf: seq<byte>, size: nat)
    requires Writing(g, v0, v, id, off, done, buf) && off <= v0.files[id].size
    requires off + done <= Room(g, |v.chain[id]|) && size == if off + done > v0.files[id].size then off + done else v0.files[id].size
    requires Ok(g, Resize(v, id, size)) && size <= Room(g, |v.chain[id]|) && v0.files[id].size <= Room(g, |v0.chain[id]|)
    requires forall k: nat :: k < Room(g, |v.chain[id]|) ==> ByteOf(g, Resize(v, id, size), id, k) == ByteOf(g, v, id, k)
    ensures Content(g, Resize(v, id, size), id) == Patched(Content(g, v0, id), off, buf[..done])
  {
    var v' := Resize(v, id, size);
    var c, p := Content(g, v', id), Patched(Content(g, v0, id), off, buf[..done]);
    hide Ok, ByteOf, Grew, Room;
    forall k | 0 <= k < size ensures c[k] == p[k] {
      assert ByteIs(g, v0, v, id, off, done, buf, k);
    }
  }

  lemma EndOther(g: Geometry, v0: Vol, v: Vol, id: nat, off: nat, done: nat, buf: seq<byte>, size: nat, o: nat)
    requires Writing(g, v0, v, id, off, done, buf) && o in v0.files && o != id
    requires Ok(g, Resize(v, id, size))
    requires forall k: nat :: k < Room(g, |v.chain[o]|) ==> ByteOf(g, Resize(v, id, size), o, k) == ByteOf(g, v, o, k)
    ensures Content(g, Resize(v, id, size), o) == Content(g, v0, o)
  {
    assert FileOk(g, v0, o);
    hide Ok, ByteOf, Room;
    forall k | 0 <= k < v0.files[o].size ensures ByteOf(g, Resize(v, id, size), o, k) == ByteOf(g, v0, o, k) {
      assert ByteSame(g, v0, v, o, k);
    }
  }

  function EndSize(off: nat, done: nat, size: nat): nat { if off + done > size then off + done else size }

  /** What the file had is on the image, and so is what has been written. */
  lemma EndBacked(g: Geometry, v0: Vol, v: Vol, id: nat, off: nat, done: nat, buf: seq<byte>)
    requires Writing(g, v0, v, id, off, done, buf) && off <= v0.files[id].size && off + done <= Room(g, |v.chain[id]|)
    ensures Backed(g, v.disk, v.chain[id], EndSize(off, done, v0.files[id].size))
  {
    assert FileOk(g, v, id);
    hide Ok, ByteOf, Room, TookFree, Here;
    forall k: nat | k < EndSize(off, done, v0.files[id].size) ensures Here(g, v.disk, v.chain[id], k) {
      assert ByteIs(g, v0, v, id, off, done, buf, k);
    }
  }

  lemma EndOk(g: Geometry, v0: Vol, v: Vol, id: nat, off: nat, done: nat, buf: seq<byte>)
    requires Writing(g, v0, v, id, off, done, buf) && off <= v0.files[id].size && off + done <= Room(g, |v.chain[id]|)
    ensures var size := EndSize(off, done, v0.files[id].size);
            && size <= Room(g, |v.chain[id]|) && v0.files[id].size <= Room(g, |v0.chain[id]|)
            && Ok(g, Resize(v, id, size)) && Grew(g, v0, Resize(v, id, size), id)
            && forall o, k: nat :: o in v.files && k < Room(g, |v.chain[o]|) ==>
                 ByteOf(g, Resize(v, id, size), o, k) == ByteOf(g, v, o, k)
  {
    var size := EndSize(off, done, v0.files[id].size);
    assert FileOk(g, v0, id);
    RoomMonotone(g, |v0.chain[id]|, |v.chain[id]|);
    EndBacked(g, v0, v, id, off, done, buf);
    ResizeOk(g, v, id, size);
    hide Ok, ByteOf, Room, FileOk, ByteIs, ByteSame, TookFree, Backed;
  }

  /** A write ends with the new bytes in place, the size raised if need be, and every other
      file as it was. */
  lemma WriteEnd(g: Geometry, v0: Vol, v: Vol, id: nat, off: nat, done: nat, buf: seq<byte>)
    requires Writing(g, v0, v, id, off, done, buf) && off <= v0.files[id].size
    requires off + done <= Room(g, |v.chain[id]|)
    ensures var v' := Resize(v, id, EndSize(off, done, v0.files[id].size));
            && Ok(g, v') && Content(g, v', id) == Patched(Content(g, v0, id), off, buf[..done])
            && OthersSame(g, v0, v', id) && Grew(g, v0, v', id)
  {
    hide Ok, ByteOf, Room, FileOk, Content, Patched, ByteIs, ByteSame, TookFree;
    var size := EndSize(off, done, v0.files[id].size);
    EndOk(g, v0, v, id, off, done, buf);
    EndContent(g, v0, v, id, off, done, buf, size);
    forall o | o in v0.files && o != id ensures Content(g, Resize(v, id, size), o) == Content(g, v0, o) {
      EndOther(g, v0, v, id, off, done, buf, size, o);
    }
  }
}
