/** The file allocation table of Lab4/fat-fuse/fat_table.c: chains of clusters, the bytes
    they stand for, and what allocating, cutting and freeing do to them.

    Bit operations on the power of two bpc are written as division and remainder; nothing
    here needs bpc to be a power of two. */
module FatTable {

  const FREE := 0
  const BAD := 0x0FFF_FFF7
  const EOC_MIN := 0x0FFF_FFF8
  const EOC := 0x0FFF_FFFF      // FAT_CLUSTER_END_OF_CHAIN_MAX

  /** num_data_clusters, bytes per cluster and data_start_offset of a volume. */
  datatype Geometry = Geometry(n: nat, bpc: nat, start: nat)

  const UINT: nat := 0x1_0000_0000

  /** num_data_clusters + 2, in 32 bits. */
  function Top(g: Geometry): nat { (g.n + 2) % UINT }

  /** fat_table_is_valid_cluster_number. The map may have fewer entries than that, or more. */
  predicate ValidCluster(g: Geometry, c: nat) { 2 <= c < Top(g) }

  /** The map has no entries for the special values. */
  predicate GoodFat(g: Geometry, fat: seq<nat>) {
    g.bpc > 0 && 2 <= |fat| <= BAD
  }

  /** fat_table_cluster_is_EOC */
  predicate IsEnd(c: nat) { EOC_MIN <= c <= EOC }

  /** fat_table_get_next_cluster: whatever is out of range ends the chain. */
  function NextOf(g: Geometry, fat: seq<nat>, c: nat): (next: nat)
    requires c < |fat|
    ensures ValidCluster(g, next) || next == EOC
  {
    if ValidCluster(g, fat[c]) then fat[c] else EOC
  }

  /** Cluster c is entry i of the chain, or an end mark where there is none. */
  predicate Leads(c: nat, ch: seq<nat>, i: nat) { if i < |ch| then c == ch[i] else IsEnd(c) }

  /** Entry i of a chain leads to the next, or ends it, and is not free. */
  ghost predicate LinkOk(g: Geometry, fat: seq<nat>, ch: seq<nat>, i: nat)
    requires i < |ch|
  {
    && ValidCluster(g, ch[i]) && ch[i] < |fat| && fat[ch[i]] != FREE
    && Leads(NextOf(g, fat, ch[i]), ch, i + 1)
  }

  ghost predicate Chain(g: Geometry, fat: seq<nat>, ch: seq<nat>) {
    ch != [] && forall i :: 0 <= i < |ch| ==> LinkOk(g, fat, ch, i)
  }

  // ---- chains are acyclic and determined by their start ----

  lemma {:induction false} SameFrom(g: Geometry, fat: seq<nat>, a: seq<nat>, b: seq<nat>, i: nat, j: nat)
    requires GoodFat(g, fat) && Chain(g, fat, a) && Chain(g, fat, b)
    requires i < |a| && j < |b| && a[i] == b[j]
    ensures |a| - i == |b| - j && a[i..] == b[j..]
    decreases |a| - i
  {
    assert LinkOk(g, fat, a, i) && LinkOk(g, fat, b, j);
    if i + 1 < |a| && j + 1 < |b| {
      SameFrom(g, fat, a, b, i + 1, j + 1);
      assert a[i..] == [a[i]] + a[i + 1..] && b[j..] == [b[j]] + b[j + 1..];
    } else {
      assert i + 1 < |a| ==> LinkOk(g, fat, a, i + 1);
      assert j + 1 < |b| ==> LinkOk(g, fat, b, j + 1);
    }
  }

  /** No chain runs into itself. */
  lemma Acyclic(g: Geometry, fat: seq<nat>, ch: seq<nat>, i: nat, j: nat)
    requires GoodFat(g, fat) && Chain(g, fat, ch) && i < |ch| && j < |ch| && ch[i] == ch[j]
    ensures i == j
  {
    SameFrom(g, fat, ch, ch, i, j);
  }

  /** Two chains that share a cluster end together; from the same start they are the same. */
  lemma ChainUnique(g: Geometry, fat: seq<nat>, a: seq<nat>, b: seq<nat>)
    requires GoodFat(g, fat) && Chain(g, fat, a) && Chain(g, fat, b) && a[0] == b[0]
    ensures a == b
  {
    SameFrom(g, fat, a, b, 0, 0);
    assert a[0..] == a && b[0..] == b;
  }

  // ---- the number of entries marked free ----

  function Zeros(fat: seq<nat>, n: nat): nat
    requires n <= |fat|
  {
    if n <= 2 then 0 else Zeros(fat, n - 1) + if fat[n - 1] == FREE then 1 else 0
  }

  lemma {:induction false} ZeroExists(fat: seq<nat>, n: nat)
    requires n <= |fat| && Zeros(fat, n) > 0
    ensures exists z :: 2 <= z < n && fat[z] == FREE
  {
    if fat[n - 1] != FREE { ZeroExists(fat, n - 1); }
  }

  lemma {:induction false} ZerosUpdate(fat: seq<nat>, n: nat, c: nat, v: nat)
    requires n <= |fat| && 2 <= c < |fat| && v != FREE
    ensures Zeros(fat[c := v], n) == Zeros(fat, n) - if c < n && fat[c] == FREE then 1 else 0
  {
    if n > 2 { ZerosUpdate(fat, n - 1, c, v); }
  }

  /** The search for a free cluster stops `need` times in a row: some entry past the last
      cluster is marked free, or there are enough free entries. */
  ghost predicate Searchable(g: Geometry, fat: seq<nat>, need: nat) {
    || (exists z :: 2 <= z < |fat| && Top(g) <= z && fat[z] == FREE)
    || Zeros(fat, |fat|) >= need
  }

  lemma SearchableLess(g: Geometry, fat: seq<nat>, need: nat, last: nat, c: nat)
    requires GoodFat(g, fat) && need > 0
    requires ValidCluster(g, c) && ValidCluster(g, last) && c < |fat| && last < |fat| && fat[last] != FREE && fat[c] == FREE
    ensures Searchable(g, fat, need) <==> Searchable(g, fat[last := c][c := EOC], need - 1)
  {
    var fat' := fat[last := c];
    forall z | Top(g) <= z < |fat| ensures fat'[c := EOC][z] == fat[z] { }
    ZerosUpdate(fat, |fat|, last, c);
    ZerosUpdate(fat', |fat|, c, EOC);
  }

  /** Where the entries for data clusters end. */
  function DataEnd(g: Geometry, fat: seq<nat>): nat { if Top(g) < |fat| then Top(g) else |fat| }

  /** So many data clusters are free. */
  ghost predicate Plenty(g: Geometry, fat: seq<nat>, need: nat) { Zeros(fat, DataEnd(g, fat)) >= need }

  lemma PlentyLess(g: Geometry, fat: seq<nat>, need: nat, last: nat, c: nat)
    requires GoodFat(g, fat) && need > 0
    requires ValidCluster(g, c) && ValidCluster(g, last) && c < |fat| && last < |fat| && fat[last] != FREE && fat[c] == FREE
    ensures Plenty(g, fat, need) <==> Plenty(g, fat[last := c][c := EOC], need - 1)
  {
    var n := DataEnd(g, fat);
    ZerosUpdate(fat, n, last, c);
    ZerosUpdate(fat[last := c], n, c, EOC);
  }

  lemma SomeFree(g: Geometry, fat: seq<nat>, need: nat)
    requires Plenty(g, fat, need) && need > 0
    ensures exists z :: 2 <= z < |fat| && z < Top(g) && fat[z] == FREE
  {
    ZeroExists(fat, DataEnd(g, fat));
  }

  /** The search for a free cluster runs off the end of the map. */
  ghost predicate NoFree(fat: seq<nat>) {
    forall z :: 2 <= z < |fat| ==> fat[z] != FREE
  }

  lemma NoFreeIff(g: Geometry, fat: seq<nat>, need: nat)
    requires GoodFat(g, fat)
    ensures NoFree(fat) <==> !Searchable(g, fat, 1)
    ensures NoFree(fat) && need > 0 ==> !Searchable(g, fat, need)
  {
    if !NoFree(fat) {
      var z :| 2 <= z < |fat| && fat[z] == FREE;
      ZeroCounts(fat, |fat|, z);
    } else if Zeros(fat, |fat|) > 0 {
      ZeroExists(fat, |fat|);
    }
  }

  lemma {:induction false} ZeroCounts(fat: seq<nat>, n: nat, z: nat)
    requires n <= |fat| && 2 <= z < n && fat[z] == FREE
    ensures Zeros(fat, n) > 0
  {
    if z < n - 1 { ZeroCounts(fat, n - 1, z); }
  }

  // ---- a longer chain ----

  /** next_or_new_cluster's two writes: the old last cluster leads to c, and c ends the chain. */
  function Extended(fat: seq<nat>, last: nat, c: nat): seq<nat>
    requires last < |fat| && c < |fat|
  {
    fat[last := c][c := EOC]
  }

  lemma ExtendChain(g: Geometry, fat: seq<nat>, ch: seq<nat>, c: nat)
    requires GoodFat(g, fat) && Chain(g, fat, ch) && ValidCluster(g, c) && c < |fat| && fat[c] == FREE
    ensures ch[|ch| - 1] < |fat|
    ensures Chain(g, Extended(fat, ch[|ch| - 1], c), ch + [c])
  {
    var last := |ch| - 1;
    assert LinkOk(g, fat, ch, last);
    var fat', ch' := Extended(fat, ch[last], c), ch + [c];
    forall i | 0 <= i < |ch'| ensures LinkOk(g, fat', ch', i) {
      if i < last {
        assert LinkOk(g, fat, ch, i);
        if ch[i] == ch[last] { Acyclic(g, fat, ch, i, last); }
      }
    }
  }

  /** A chain that shares no cluster with an update is still a chain. */
  lemma OtherChain(g: Geometry, fat: seq<nat>, fat': seq<nat>, ch: seq<nat>)
    requires Chain(g, fat, ch) && |fat'| == |fat|
    requires forall i :: 0 <= i < |ch| ==> ch[i] < |fat| && fat'[ch[i]] == fat[ch[i]]
    ensures Chain(g, fat', ch)
  {
    forall i | 0 <= i < |ch| ensures LinkOk(g, fat', ch, i) { assert LinkOk(g, fat, ch, i); }
  }

  // ---- a shorter chain ----

  /** The map with entries k.. of the chain marked free, and the one before them as the last. */
  ghost predicate Cut(fat: seq<nat>, fat': seq<nat>, ch: seq<nat>, k: nat, m: nat) {
    && k <= m <= |ch| && |fat'| == |fat|
    && forall c :: 0 <= c < |fat| ==>
         fat'[c] == if c in ch[k..m] then FREE else if k > 0 && c == ch[k - 1] then EOC else fat[c]
  }

  lemma CutChain(g: Geometry, fat: seq<nat>, fat': seq<nat>, ch: seq<nat>, k: nat)
    requires GoodFat(g, fat) && Chain(g, fat, ch) && 0 < k <= |ch| && Cut(fat, fat', ch, k, |ch|)
    ensures Chain(g, fat', ch[..k])
  {
    forall i | 0 <= i < k ensures LinkOk(g, fat', ch[..k], i) {
      assert LinkOk(g, fat, ch, i);
      if ch[i] in ch[k..] {
        var j :| 0 <= j < |ch[k..]| && ch[k..][j] == ch[i];
        Acyclic(g, fat, ch, i, k + j);
      }
      if ch[i] == ch[k - 1] { Acyclic(g, fat, ch, i, k - 1); }
    }
  }

  /** One more cluster of the rest is freed. */
  lemma CutMore(g: Geometry, fat: seq<nat>, fat': seq<nat>, ch: seq<nat>, k: nat, m: nat)
    requires GoodFat(g, fat) && Chain(g, fat, ch) && Cut(fat, fat', ch, k, m) && m < |ch|
    ensures ch[m] < |fat'| && Leads(NextOf(g, fat', ch[m]), ch, m + 1)
    ensures Cut(fat, fat'[ch[m] := FREE], ch, k, m + 1)
  {
    assert LinkOk(g, fat, ch, m);
    assert ch[k..m + 1] == ch[k..m] + [ch[m]];
    if ch[m] in ch[k..m] {
      var j :| 0 <= j < m - k && ch[k..m][j] == ch[m];
      Acyclic(g, fat, ch, k + j, m);
    }
    if k > 0 && ch[k - 1] == ch[m] { Acyclic(g, fat, ch, k - 1, m); }
  }
}
