/** Where the bytes of a file of Lab4/fat-fuse lie, in terms of the entries of the map and the
    bytes of the image: fat_table.c, fat_file.c and fat_volume.c. */
module FatLayout {
  import opened FatTable
  import opened FatBytes
  import opened FatFile

  /** A chain is a list of cluster numbers, each found in the map under the one before; it ends
      where the map has an end mark, or anything that is no cluster number. */
  ghost predicate Linked(g: Geometry, fat: seq<nat>, ch: seq<nat>) {
    && ch != []
    && (forall i :: 0 <= i < |ch| ==> 2 <= ch[i] < (g.n + 2) % 0x1_0000_0000 && ch[i] < |fat| && fat[ch[i]] != 0)
    && (forall i :: 0 <= i < |ch| - 1 ==> ch[i + 1] == fat[ch[i]])
    && var e := fat[ch[|ch| - 1]];
       0x0FFF_FFF8 <= e <= 0x0FFF_FFFF || !(2 <= e < (g.n + 2) % 0x1_0000_0000)
  }

  lemma ChainIsLinked(g: Geometry, fat: seq<nat>, ch: seq<nat>)
    requires GoodFat(g, fat)
    ensures Chain(g, fat, ch) <==> Linked(g, fat, ch)
  {
    if Chain(g, fat, ch) {
      forall i | 0 <= i < |ch|
        ensures 2 <= ch[i] < Top(g) && ch[i] < |fat| && fat[ch[i]] != 0 && (i < |ch| - 1 ==> ch[i + 1] == fat[ch[i]])
      {
        assert LinkOk(g, fat, ch, i);
        if i < |ch| - 1 { assert LinkOk(g, fat, ch, i + 1); }
      }
      assert LinkOk(g, fat, ch, |ch| - 1);
    }
    if Linked(g, fat, ch) {
      forall i | 0 <= i < |ch| ensures LinkOk(g, fat, ch, i) {}
    }
  }

  /** Cluster 2 begins the data of the volume, and the others follow it in order. */
  lemma ClustersInOrder(g: Geometry, c: nat)
    requires c >= 2
    ensures ClusterOffset(g, 2) == g.start
    ensures ClusterOffset(g, c + 1) == ClusterOffset(g, c) + g.bpc
  {
    assert (c + 1 - 2) * g.bpc == (c - 2) * g.bpc + g.bpc;
  }

  /** Byte k of a file lies in entry k / bpc of its chain, k % bpc bytes from the start of that
      cluster. */
  ghost predicate Lies(g: Geometry, v: Vol, id: nat, k: nat, x: byte) {
    && id in v.chain && g.bpc > 0 && k / g.bpc < |v.chain[id]|
    && var c := v.chain[id][k / g.bpc];
       && 2 <= c && g.start + (c - 2) * g.bpc + k % g.bpc < |v.disk|
       && v.disk[g.start + (c - 2) * g.bpc + k % g.bpc] == x
  }

  lemma FileLies(g: Geometry, v: Vol, id: nat, k: nat)
    requires Ok(g, v) && id in v.files && k < v.files[id].size
    ensures v.files[id].start == v.chain[id][0] && Linked(g, v.fat, v.chain[id])
    ensures Lies(g, v, id, k, Content(g, v, id)[k])
  {
    assert FileOk(g, v, id);
    ChainIsLinked(g, v.fat, v.chain[id]);
    assert Here(g, v.disk, v.chain[id], k);
    ChainCovers(g, v.fat, v.chain[id], k);
    hide Chain, Linked, AllSeparate;
  }

  /** w is bytes off.. of the file, as they lie on the image. */
  ghost predicate AllLie(g: Geometry, v: Vol, id: nat, off: nat, w: seq<byte>) {
    forall k :: 0 <= k < |w| ==> Lies(g, v, id, off + k, w[k])
  }

  lemma SliceLies(g: Geometry, v: Vol, id: nat, off: nat, w: seq<byte>)
    requires Ok(g, v) && id in v.files
    requires w == [] || (off + |w| <= v.files[id].size && w == Content(g, v, id)[off..off + |w|])
    ensures AllLie(g, v, id, off, w)
  {
    hide Ok, Lies, Content;
    forall k | 0 <= k < |w| ensures Lies(g, v, id, off + k, w[k]) { FileLies(g, v, id, off + k); }
  }

  /** And nothing else is the content of the file. */
  lemma LiesOnce(g: Geometry, v: Vol, id: nat, c: seq<byte>)
    requires Ok(g, v) && id in v.files && |c| == v.files[id].size
    requires forall k :: 0 <= k < |c| ==> Lies(g, v, id, k, c[k])
    ensures c == Content(g, v, id)
  {
    forall k | 0 <= k < |c| ensures c[k] == Content(g, v, id)[k] {
      FileLies(g, v, id, k);
      assert Lies(g, v, id, k, c[k]);
    }
    hide Ok, Content;
  }
}
