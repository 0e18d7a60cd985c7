/** Files of Lab4/fat-fuse/fat_file.c as byte sequences spread over the clusters of a disk. */
module FatBytes {
  import opened FatTable
  import opened Sequences

  type byte = bv8

  // ---- where the bytes of a chain are ----

  /** fat_table_cluster_offset */
  function ClusterOffset(g: Geometry, c: nat): nat
    requires c >= 2
  {
    g.start + (c - 2) * g.bpc
  }

  /** offset >> cluster_order: which cluster of the chain. */
  function Ix(g: Geometry, k: nat): nat
    requires g.bpc > 0
  {
    k / g.bpc
  }

  /** fat_table_mask_offset */
  function Mask(g: Geometry, k: nat): (r: nat)
    requires g.bpc > 0
    ensures r < g.bpc
  {
    k % g.bpc
  }

  predicate Covered(g: Geometry, ch: seq<nat>, k: nat) {
    g.bpc > 0 && Ix(g, k) < |ch| && ValidCluster(g, ch[Ix(g, k)])
  }

  /** The position on disk of byte k of a chain. */
  function Address(g: Geometry, ch: seq<nat>, k: nat): nat
    requires Covered(g, ch, k)
  {
    ClusterOffset(g, ch[Ix(g, k)]) + Mask(g, k)
  }

  /** Byte a of the image, which reads as zero where a later write would extend it. */
  function At0(disk: seq<byte>, a: nat): byte { if a < |disk| then disk[a] else 0 }

  /** pwrite of w at byte a, which extends an image that ends before. */
  function Written(disk: seq<byte>, a: nat, w: seq<byte>): (d: seq<byte>)
    ensures |d| >= |disk| && (w != [] ==> |d| >= a + |w|)
    ensures forall x: nat :: At0(d, x) == if a <= x < a + |w| then w[x - a] else At0(disk, x)
  {
    if w == [] then disk
    else
      var padded := if a <= |disk| then disk else disk + seq(a - |disk|, _ => 0);
      Patched(padded, a, w)
  }

  /** Byte k of the chain lies on the image. */
  predicate Here(g: Geometry, disk: seq<byte>, ch: seq<nat>, k: nat) {
    Covered(g, ch, k) && Address(g, ch, k) < |disk|
  }

  /** Clusters do not overlap. */
  lemma Disjoint(g: Geometry, c: nat, r: nat, c': nat, r': nat)
    requires ValidCluster(g, c) && ValidCluster(g, c') && r < g.bpc && r' < g.bpc
    requires ClusterOffset(g, c) + r == ClusterOffset(g, c') + r'
    ensures c == c' && r == r'
  {
    if c < c' {
      Apart(c - 2, c' - 2, g.bpc);
    } else if c' < c {
      Apart(c' - 2, c - 2, g.bpc);
    }
  }

  lemma Apart(a: nat, b: nat, k: nat)
    requires a < b
    ensures a * k + k <= b * k
  {
    var d := b - a - 1;
    assert d * k >= 0;
    assert b * k == a * k + k + d * k;
  }

  /** d bytes further in the same cluster. */
  lemma SameCluster(g: Geometry, k: nat, d: nat)
    requires g.bpc > 0 && Mask(g, k) + d < g.bpc
    ensures Ix(g, k + d) == Ix(g, k) && Mask(g, k + d) == Mask(g, k) + d
  {
    var q, r := Ix(g, k), Mask(g, k) + d;
    assert k == q * g.bpc + Mask(g, k);
    Quotient(k + d, q, r, g.bpc);
  }

  lemma Quotient(x: nat, q: nat, r: nat, bpc: nat)
    requires r < bpc && x == q * bpc + r
    ensures x / bpc == q && x % bpc == r
  {
    var q', r' := x / bpc, x % bpc;
    assert x == q' * bpc + r';
    if q' < q { Apart(q', q, bpc); } else if q < q' { Apart(q, q', bpc); }
  }

  /** The byte after a full cluster starts the next. */
  lemma NextCluster(g: Geometry, k: nat)
    requires g.bpc > 0
    ensures Ix(g, k + (g.bpc - Mask(g, k))) == Ix(g, k) + 1 && Mask(g, k + (g.bpc - Mask(g, k))) == 0
  {
    assert k == Ix(g, k) * g.bpc + Mask(g, k);
    assert (Ix(g, k) + 1) * g.bpc == Ix(g, k) * g.bpc + g.bpc;
    Quotient(k + (g.bpc - Mask(g, k)), Ix(g, k) + 1, 0, g.bpc);
  }

  /** The bytes that fit into len clusters. */
  function Room(g: Geometry, len: nat): nat { len * g.bpc }

  lemma BelowRoom(g: Geometry, k: nat, len: nat)
    requires g.bpc > 0
    ensures k < Room(g, len) <==> Ix(g, k) < len
  {
    assert k == Ix(g, k) * g.bpc + Mask(g, k);
    if Ix(g, k) < len { Apart(Ix(g, k), len, g.bpc); }
    if len <= Ix(g, k) {
      var d := Ix(g, k) - len;
      assert d * g.bpc >= 0 && Ix(g, k) * g.bpc == len * g.bpc + d * g.bpc;
    }
  }

  /** Different bytes, of one acyclic chain or of two disjoint ones, are at different places. */
  lemma Injective(g: Geometry, a: seq<nat>, k: nat, b: seq<nat>, m: nat)
    requires Covered(g, a, k) && Covered(g, b, m) && Address(g, a, k) == Address(g, b, m)
    ensures a[Ix(g, k)] == b[Ix(g, m)] && Mask(g, k) == Mask(g, m)
  {
    Disjoint(g, a[Ix(g, k)], Mask(g, k), b[Ix(g, m)], Mask(g, m));
  }

  function ByteAt(g: Geometry, disk: seq<byte>, ch: seq<nat>, k: nat): byte
    requires Covered(g, ch, k)
  {
    At0(disk, Address(g, ch, k))
  }

  /** So do the first `size` bytes. */
  ghost predicate Backed(g: Geometry, disk: seq<byte>, ch: seq<nat>, size: nat) {
    forall k: nat :: k < size ==> Here(g, disk, ch, k)
  }

  lemma BackedStill(g: Geometry, disk: seq<byte>, ch: seq<nat>, size: nat, disk': seq<byte>, ch': seq<nat>, size': nat)
    requires Backed(g, disk, ch, size) && |disk| <= |disk'| && size' <= size
    requires ch <= ch' || (ch' <= ch && g.bpc > 0 && size' <= Room(g, |ch'|))
    ensures Backed(g, disk', ch', size')
  {
    forall k: nat | k < size' ensures Here(g, disk', ch', k) {
      assert Here(g, disk, ch, k);
      BelowRoom(g, k, |ch'|);
      assert Ix(g, k) < |ch'| && ch'[Ix(g, k)] == ch[Ix(g, k)];
    }
  }

  // ---- one write ----

  /** Bytes k..k + |w| of the chain lie in one cluster. */
  ghost predicate Fits(g: Geometry, ch: seq<nat>, k: nat, w: seq<byte>) {
    Covered(g, ch, k) && Mask(g, k) + |w| <= g.bpc
  }

  /** The bytes of one cluster are consecutive on disk. */
  lemma Consecutive(g: Geometry, ch: seq<nat>, k: nat, m: nat)
    requires Covered(g, ch, k) && k <= m && Mask(g, k) + (m - k) < g.bpc
    ensures Covered(g, ch, m) && Address(g, ch, m) == Address(g, ch, k) + (m - k)
  {
    SameCluster(g, k, m - k);
    hide ClusterOffset;
  }

  lemma OnlyThose(g: Geometry, ch: seq<nat>, k: nat, n: nat, m: nat)
    requires Covered(g, ch, k) && Mask(g, k) + n <= g.bpc && Distinct(ch) && Covered(g, ch, m)
    requires Address(g, ch, k) <= Address(g, ch, m) < Address(g, ch, k) + n
    ensures k <= m < k + n
  {
    var d := Address(g, ch, m) - Address(g, ch, k);
    Consecutive(g, ch, k, k + d);
    Injective(g, ch, k + d, ch, m);
    hide Address, ClusterOffset, Ix, Mask;
    SameByte(g, k + d, m);
  }

  /** Writing w at byte k of an acyclic chain replaces bytes k..k + |w| of it. */
  lemma WriteSame(g: Geometry, disk: seq<byte>, ch: seq<nat>, k: nat, w: seq<byte>, m: nat)
    requires Fits(g, ch, k, w) && Distinct(ch) && Covered(g, ch, m)
    ensures ByteAt(g, Written(disk, Address(g, ch, k), w), ch, m)
            == if k <= m < k + |w| then w[m - k] else ByteAt(g, disk, ch, m)
    ensures k <= m < k + |w| ==> Here(g, Written(disk, Address(g, ch, k), w), ch, m)
  {
    hide Address, Written, At0, Distinct, Ix, Mask;
    var a, b := Address(g, ch, k), Address(g, ch, m);
    if k <= m < k + |w| {
      Consecutive(g, ch, k, m);
    } else if a <= b < a + |w| {
      OnlyThose(g, ch, k, |w|, m);
    }
  }

  lemma SameByte(g: Geometry, k: nat, m: nat)
    requires g.bpc > 0 && Ix(g, k) == Ix(g, m) && Mask(g, k) == Mask(g, m)
    ensures k == m
  {
    assert k == Ix(g, k) * g.bpc + Mask(g, k) && m == Ix(g, m) * g.bpc + Mask(g, m);
  }

  /** Writing to one chain does not touch the bytes of a disjoint one. */
  lemma WriteOther(g: Geometry, disk: seq<byte>, ch: seq<nat>, k: nat, w: seq<byte>, other: seq<nat>, m: nat)
    requires Fits(g, ch, k, w) && Covered(g, other, m)
    requires other[Ix(g, m)] != ch[Ix(g, k)]
    ensures ByteAt(g, Written(disk, Address(g, ch, k), w), other, m) == ByteAt(g, disk, other, m)
  {
    var a, b := Address(g, ch, k), Address(g, other, m);
    if a <= b < a + |w| {
      Disjoint(g, ch[Ix(g, k)], Mask(g, k) + (b - a), other[Ix(g, m)], Mask(g, m));
    }
  }
}
