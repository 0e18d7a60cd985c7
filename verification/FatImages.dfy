/** Images that Lab4/fat-fuse/fat_volume.c mounts, what it makes of their boot sectors, and calls on them
    that do not do what they report. */
module FatImages {
  import opened FatTable
  import opened FatBytes
  import opened FatFile
  import opened FatVolume

  /** The boot sector of a FAT32 volume, without a root directory area. */
  datatype Boot = Boot(total16: nat, total32: nat, reserved: nat, tables: nat, perFat: nat, sector: nat, perCluster: nat)

  /** What read_boot_sector accepts, and the field widths. */
  predicate Mountable(b: Boot) {
    && b.total16 < 0x1_0000 && b.total32 < UINT && 0 < b.reserved < 0x1_0000 && b.perFat < UINT
    && 1 <= b.tables <= 2 && b.sector in {32, 64, 128, 256, 512, 1024, 2048, 4096}
    && b.perCluster in {1, 2, 4, 8, 16, 32, 64, 128}
  }

  /** The sectors of the volume: the 16-bit field, or the 32-bit one where that is 0. */
  function Sectors(b: Boot): nat { if b.total16 != 0 then b.total16 else b.total32 }

  function Tables(b: Boot): nat { b.tables * b.perFat }

  /** Its metadata fit into it. */
  predicate Sane(b: Boot) { Mountable(b) && b.reserved + Tables(b) <= Sectors(b) }

  /** The clusters that lie on the volume. */
  function Clusters(b: Boot): nat
    requires Sane(b)
  {
    (Sectors(b) - b.reserved - Tables(b)) / b.perCluster
  }

  /** num_data_clusters as read_boot_sector computes it, in 32 bits, from the 16-bit field alone and
      without the tables. */
  function Counted(b: Boot): nat
    requires Mountable(b)
  {
    (b.total16 - b.reserved) % UINT / b.perCluster
  }

  function GeometryOf(b: Boot): Geometry
    requires Mountable(b)
  {
    Geometry(Counted(b), b.sector * b.perCluster, (Tables(b) + b.reserved) * b.sector)
  }

  /** The sectors counted that are none of the data area. */
  function Excess(b: Boot): nat
    requires Mountable(b)
  {
    Tables(b) + if b.total16 != 0 then 0 else UINT - b.total32
  }

  /** The count is right exactly when what it has too much does not fill a cluster. On a FAT32 volume,
      whose 16-bit field is 0, it does not even depend on the size of the volume. */
  lemma CountedIff(b: Boot)
    requires Sane(b)
    ensures Counted(b) >= Clusters(b)
    ensures Counted(b) == Clusters(b) <==> Excess(b) <= (b.total16 - b.reserved) % UINT % b.perCluster
    ensures b.total16 == 0 ==> Counted(b) == (UINT - b.reserved) / b.perCluster
  {
    var all := (b.total16 - b.reserved) % UINT;
    assert all == Sectors(b) - b.reserved - Tables(b) + Excess(b);
    SameQuotient(all - Excess(b), Excess(b), b.perCluster);
  }

  lemma SameQuotient(x: nat, d: nat, p: nat)
    requires p > 0
    ensures (x + d) / p >= x / p && ((x + d) / p == x / p <==> d <= (x + d) % p)
  {
    var q, r, s, t := (x + d) / p, (x + d) % p, x / p, x % p;
    assert x + d == q * p + r && x == s * p + t;
    if q < s { Apart(q, s, p); }
    if s < q { Apart(s, q, p); }
  }

  /** A cluster lies on the volume exactly when it is one of those. */
  lemma OnVolume(b: Boot, c: nat)
    requires Sane(b) && c >= 2
    ensures var g := GeometryOf(b); ClusterOffset(g, c) + g.bpc <= Sectors(b) * b.sector <==> c < Clusters(b) + 2
  {
    EndsAt(Tables(b) + b.reserved, b.sector, b.perCluster, c, Sectors(b) - b.reserved - Tables(b));
  }

  lemma EndsAt(t: nat, s: nat, p: nat, c: nat, free: nat)
    requires s > 0 && p > 0 && c >= 2
    ensures t * s + (c - 2) * (s * p) + s * p <= (t + free) * s <==> c < free / p + 2
  {
    Product(c - 2, s, p);
    Scaled(t, (c - 1) * p, free, s);
    Whole(c - 1, free, p);
  }

  lemma Product(x: nat, s: nat, p: nat)
    ensures x * (s * p) + s * p == (x + 1) * p * s
  {
    assert x * (s * p) == x * p * s;
    assert (x + 1) * p == x * p + p;
    assert (x * p + p) * s == x * p * s + p * s;
  }

  lemma Scaled(a: nat, x: nat, y: nat, k: nat)
    requires k > 0
    ensures a * k + x * k <= (a + y) * k <==> x <= y
  {
    assert (a + y) * k == a * k + y * k;
    if y < x { Apart(y, x, k); } else if x < y { Apart(x, y, k); }
  }

  lemma Whole(x: nat, y: nat, p: nat)
    requires p > 0
    ensures x * p <= y <==> x <= y / p
  {
    var q := y / p;
    assert y == q * p + y % p;
    if q < x { Apart(q, x, p); } else if x < q { Apart(x, q, p); }
  }

  // ---- images with one file ----

  /** The entries of the map. */
  function Entries(b: Boot): nat { b.perFat * b.sector / 4 }

  /** A map whose first len clusters are one file; the other entries are all as `rest`. */
  function Line(len: nat, m: nat, rest: nat): (fat: seq<nat>)
    ensures |fat| == m
    ensures forall i :: 0 <= i < m ==> fat[i] == if 2 <= i < len + 1 then i + 1 else if i < len + 2 then EOC else rest
  {
    seq(m, i requires 0 <= i < m => if 2 <= i < len + 1 then i + 1 else if i < len + 2 then EOC else rest)
  }

  function FirstClusters(len: nat): (ch: seq<nat>)
    ensures |ch| == len && forall i :: 0 <= i < len ==> ch[i] == i + 2
  {
    seq(len, i requires 0 <= i < len => i + 2)
  }

  lemma LineChain(g: Geometry, len: nat, m: nat, rest: nat)
    requires 0 < len && len + 2 <= m <= BAD && len + 2 <= Top(g)
    ensures Chain(g, Line(len, m, rest), FirstClusters(len))
  {
    forall i | 0 <= i < len ensures LinkOk(g, Line(len, m, rest), FirstClusters(len), i) {}
  }

  lemma LineBacked(g: Geometry, len: nat, disk: seq<byte>, size: nat)
    requires g.bpc > 0 && g.start + len * g.bpc <= |disk| && size <= Room(g, len) && len + 2 <= Top(g)
    ensures Backed(g, disk, FirstClusters(len), size)
  {
    forall k: nat | k < size ensures Here(g, disk, FirstClusters(len), k) {
      BelowRoom(g, k, len);
      assert k == Ix(g, k) * g.bpc + Mask(g, k);
    }
  }

  /** An image of `bytes` bytes x with one file of len clusters. */
  method Image(b: Boot, len: nat, size: nat, rest: nat, bytes: nat, x: byte) returns (vol: Volume)
    requires Mountable(b) && 0 < len && len + 2 <= Entries(b) <= BAD && len + 2 <= Top(GeometryOf(b))
    requires size <= Room(GeometryOf(b), len) && GeometryOf(b).start + Room(GeometryOf(b), len) <= bytes
    ensures fresh(vol) && vol.Valid() && vol.g == GeometryOf(b) && vol.fat == Line(len, Entries(b), rest) && |vol.disk| == bytes
    ensures vol.files == map[0 := File(2, size)] && vol.chain == map[0 := FirstClusters(len)]
  {
    var g, disk := GeometryOf(b), seq(bytes, _ => x);
    ghost var chain: map<nat, seq<nat>> := map[0 := FirstClusters(len)];
    LineChain(g, len, Entries(b), rest);
    LineBacked(g, len, disk, size);
    hide Chain, Backed;
    vol := new Volume(g, Line(len, Entries(b), rest), disk, map[0 := File(2, size)], chain);
  }

  // ---- reads beyond the map ----

  /** A map of one sector, all of which is one file. */
  function Small(): Boot { Boot(0, 159, 32, 1, 1, 512, 1) }

  const FULL: nat := 64512          // 126 clusters of 512 bytes

  /** Cut at its end, where nothing is to be removed, the file makes truncate read beyond the map. */
  method CutFull(x: byte) returns (off: bool)
    ensures off
  {
    var vol := Image(Small(), 126, FULL, EOC, 81408, x);
    off := vol.Truncate(0, FULL);
  }

  /** One more byte at its end makes pwrite search beyond the map for a cluster. */
  method GrowFull(x: byte, y: byte) returns (count: nat, err: Errno)
    ensures err == OFFMAP
  {
    var vol := Image(Small(), 126, FULL, EOC, 81408, x);
    NoZeros(vol.fat, |vol.fat|);
    assert Want(vol.g, FULL, Tried(1, 1), 126) == 1;
    count, err := vol.Pwrite(0, [y], FULL, 1);
  }

  lemma {:induction false} NoZeros(fat: seq<nat>, n: nat)
    requires n <= |fat| && forall z :: 2 <= z < n ==> fat[z] != FREE
    ensures Zeros(fat, n) == 0
  {
    if n > 2 { NoZeros(fat, n - 1); }
  }

  // ---- the stored size ----

  /** Clusters of 32 KiB, 131198 of them. */
  function Large(): Boot { Boot(0, 8398754, 32, 2, 1025, 512, 64) }

  /** A file of 2^32 - 1 bytes, and two more: pwrite says that it has written them, pread finds none. */
  method GrowPast(x: byte, y: byte) returns (count: nat, err: Errno, back: seq<byte>)
    ensures err == OK && count == 2 && back == []
  {
    hide Chain, Backed, Grew, OthersSame, Content, Ok;
    var size := UINT - 1;
    var vol := Image(Large(), 131072, size, FREE, 8398754 * 512, x);
    assert vol.fat[131074] == FREE;
    ZeroCounts(vol.fat, DataEnd(vol.g, vol.fat), 131074);
    assert Want(vol.g, size, Tried(2, 2), 131072) == 1;
    count, err := vol.Pwrite(0, [y, y], size, 2);
    var e;
    back, e := vol.Pread(0, 2, size, 2);
  }

  // ---- clusters that are not there ----

  /** 70544 clusters of 512 bytes, and a map of 70656 entries. */
  function Disk35(): Boot { Boot(0, 71680, 32, 2, 552, 512, 1) }

  /** Its clusters are all in use. pwrite takes the next entry of the map, whose cluster lies past the
      end of the volume, and the image grows. */
  method GrowImage(x: byte, y: byte) returns (vol: Volume, count: nat, err: Errno)
    ensures Sane(Disk35()) && vol.Valid() && err == OK && count == 1 && |vol.disk| > Sectors(Disk35()) * 512
  {
    hide Ok, Content, OthersSame, Grew, Searchable, Plenty, Want, DiskFull, NoFree, Room, Chain, Backed;
    var n, size := 70544, 70544 * 512;
    OneWanted(n, size);
    vol := Image(Disk35(), n, size, FREE, 71680 * 512, x);
    ghost var v := vol.S();
    count, err := vol.Pwrite(0, [y], size, 1);
    HasSize(vol.g, vol.S(), 0);
    PastEnd(vol.g, v, vol.S(), n);
  }

  lemma OneWanted(n: nat, size: nat)
    requires n == 70544 && size == 70544 * 512
    ensures var b := Disk35();
            && Sane(b) && n + 2 <= Entries(b) == 70656 <= BAD && n + 2 <= Top(GeometryOf(b)) && GeometryOf(b).bpc == 512
            && size == Room(GeometryOf(b), n) && GeometryOf(b).start + size <= 71680 * 512
            && Plenty(GeometryOf(b), Line(n, 70656, FREE), Want(GeometryOf(b), size, Tried(1, 1), n))
  {
    var b := Disk35();
    var fat := Line(n, 70656, FREE);
    assert fat[n + 2] == FREE;
    ZeroCounts(fat, DataEnd(GeometryOf(b), fat), n + 2);
    assert Want(GeometryOf(b), size, Tried(1, 1), n) == 1;
  }

  /** What has been added to the file is where no used entry of the map was. */
  lemma PastEnd(g: Geometry, v: Vol, v': Vol, n: nat)
    requires g == GeometryOf(Disk35()) && Grew(g, v, v', 0) && 0 in v'.files && v.chain[0] == FirstClusters(n) && n == 70544
    requires v.fat == Line(n, 70656, FREE) && v'.files[0].size > n * 512
    ensures |v'.disk| > 71680 * 512
  {
    assert FileOk(g, v', 0);
    assert Here(g, v'.disk, v'.chain[0], n * 512);
    var c := v'.chain[0][n];
    assert v.fat[c] == FREE && c >= n + 2;
  }
}
