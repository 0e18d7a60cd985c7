/** The linked buffers of Lab3/xv6-riscv/kernel/bio.c: prev and next in place, with the
    order they stand for. A buffer is its index in bcache.buf, and HEAD is bcache.head. */
module BufferRing {
  import opened Sequences
  import opened BufferCache
  import opened BufferContents

  const HEAD := NBUF

  /** The node at place k, HEAD being before the first and after the last. */
  function Node(ring: seq<int>, k: int): int { if 0 <= k < |ring| then ring[k] else HEAD }

  ghost predicate LinkAt(next: seq<int>, prev: seq<int>, ring: seq<int>, k: int)
    requires |next| == |prev| == NBUF + 1
  {
    0 <= k <= |ring| ==>
      var a, b := Node(ring, k - 1), Node(ring, k);
      0 <= a <= NBUF && 0 <= b <= NBUF && next[a] == b && prev[b] == a
  }

  /** next and prev go round HEAD and the buffers of ring, in that order. */
  ghost predicate Linked(next: seq<int>, prev: seq<int>, ring: seq<int>) {
    && |next| == |prev| == NBUF + 1 && Distinct(ring)
    && (forall i :: 0 <= i < |ring| ==> IsBuf(ring[i]))
    && forall k :: LinkAt(next, prev, ring, k)
  }

  /** b->next->prev = b->prev; b->prev->next = b->next. */
  lemma UnlinkOk(next: seq<int>, prev: seq<int>, ring: seq<int>, p: int)
    requires Linked(next, prev, ring) && 0 <= p < |ring|
    ensures var b := ring[p];
            && next[b] == Node(ring, p + 1) && prev[b] == Node(ring, p - 1) && 0 <= next[b] <= NBUF && 0 <= prev[b] <= NBUF
            && Linked(next[prev[b] := next[b]], prev[next[b] := prev[b]], ring[..p] + ring[p + 1..])
  {
    var b, r := ring[p], ring[..p] + ring[p + 1..];
    assert LinkAt(next, prev, ring, p) && LinkAt(next, prev, ring, p + 1);
    var next', prev' := next[prev[b] := next[b]], prev[next[b] := prev[b]];
    forall k ensures LinkAt(next', prev', r, k) {
      assert LinkAt(next, prev, ring, k) && LinkAt(next, prev, ring, k + 1);
      assert Node(r, k) == (if k < p then Node(ring, k) else Node(ring, k + 1));
      assert Node(r, k - 1) == (if k - 1 < p then Node(ring, k - 1) else Node(ring, k));
    }
  }

  /** b->next = head.next; b->prev = &head; head.next->prev = b; head.next = b. */
  lemma LinkOk(next: seq<int>, prev: seq<int>, ring: seq<int>, b: int)
    requires Linked(next, prev, ring) && IsBuf(b) && b !in ring
    ensures 0 <= next[HEAD] <= NBUF && next[HEAD] != b
    ensures Linked(next[b := next[HEAD]][HEAD := b], prev[b := HEAD][next[HEAD] := b], [b] + ring)
  {
    var r := [b] + ring;
    assert LinkAt(next, prev, ring, 0);
    var next', prev' := next[b := next[HEAD]][HEAD := b], prev[b := HEAD][next[HEAD] := b];
    forall k ensures LinkAt(next', prev', r, k) {
      assert LinkAt(next, prev, ring, k - 1);
      assert Node(r, k) == (if k == 0 then b else Node(ring, k - 1));
      assert k > 0 ==> Node(r, k - 1) == (if k == 1 then b else Node(ring, k - 2));
      assert Node(r, -1) == HEAD;
    }
  }

  class Bcache {
    var next: array<int>
    var prev: array<int>
    var dev: array<int>
    var blockno: array<int>
    var refcnt: array<int>
    var valid: array<bool>
    var data: array<Data>
    ghost var c: Cache

    ghost predicate Arrays()
      reads this
    {
      && next != prev && next != dev && next != blockno && next != refcnt && prev != dev && prev != blockno
      && prev != refcnt && dev != blockno && dev != refcnt && blockno != refcnt
      && next.Length == prev.Length == NBUF + 1
      && dev.Length == blockno.Length == refcnt.Length == valid.Length == data.Length == NBUF
    }

    ghost predicate BufIs(b: int)
      requires Arrays() && Sized(c)
      reads this, dev, blockno, refcnt, valid
    {
      IsBuf(b) ==> c.bufs[b] == Buf(dev[b], blockno[b], valid[b], refcnt[b])
    }

    /** The arrays are the cache c, and its ring is linked. */
    ghost predicate Is()
      reads this, next, prev, dev, blockno, refcnt, valid
    {
      Arrays() && Sized(c) && Linked(next[..], prev[..], c.ring) && forall b :: BufIs(b)
    }

    ghost predicate Valid()
      reads this, next, prev, dev, blockno, refcnt, valid
    {
      Is() && Inv(c)
    }

    /** The boot-time kernel memory, then binit. */
    constructor ()
      ensures Valid() && Init(c)
      ensures fresh(next) && fresh(prev) && fresh(dev) && fresh(blockno) && fresh(refcnt) && fresh(valid) && fresh(data)
    {
      next, prev := new int[NBUF + 1](_ => 0), new int[NBUF + 1](_ => 0);
      dev, blockno, refcnt := new int[NBUF](_ => 0), new int[NBUF](_ => 0), new int[NBUF](_ => 0);
      valid, data := new bool[NBUF](_ => false), new Data[NBUF](_ => []);
      c := Boot();
      new;
      Binit();
    }

    method Binit()
      requires Arrays() && c == Boot()
      requires forall b :: 0 <= b < NBUF ==> dev[b] == blockno[b] == refcnt[b] == 0 && !valid[b]
      modifies next, prev
      ensures Valid() && Init(c)
    {
      prev[HEAD] := HEAD;
      next[HEAD] := HEAD;
      ghost var ring := [];
      assert Linked(next[..], prev[..], ring) by {
        forall k ensures LinkAt(next[..], prev[..], ring, k) {}
      }
      for b := 0 to NBUF
        invariant Linked(next[..], prev[..], ring) && |ring| == b
        invariant forall i :: 0 <= i < b ==> ring[i] == b - 1 - i
        invariant forall x :: 0 <= x < NBUF ==> dev[x] == blockno[x] == refcnt[x] == 0 && !valid[x]
      {
        PushFront(b, ring);
        ring := [b] + ring;
      }
      assert ring == c.ring;
      InitInv(c);
      forall b ensures BufIs(b) {}
    }

    /** Links b in after the head. */
    method PushFront(b: int, ghost ring: seq<int>)
      requires Arrays() && Linked(next[..], prev[..], ring) && IsBuf(b) && b !in ring
      modifies next, prev
      ensures Linked(next[..], prev[..], [b] + ring)
    {
      LinkOk(next[..], prev[..], ring, b);
      ghost var n, p := next[..], prev[..];
      next[b] := next[HEAD];
      prev[b] := HEAD;
      prev[next[HEAD]] := b;
      next[HEAD] := b;
      assert next[..] == n[b := n[HEAD]][HEAD := b] && prev[..] == p[b := HEAD][n[HEAD] := b];
    }

    /** Takes b out of its place. */
    method Unlink(b: int, ghost ring: seq<int>, ghost k: int)
      requires Arrays() && Linked(next[..], prev[..], ring) && 0 <= k < |ring| && ring[k] == b
      modifies next, prev
      ensures Linked(next[..], prev[..], ring[..k] + ring[k + 1..])
    {
      UnlinkOk(next[..], prev[..], ring, k);
      ghost var n, p := next[..], prev[..];
      prev[next[b]] := prev[b];
      next[prev[b]] := next[b];
      assert prev[..] == p[n[b] := p[b]];
      assert next[..] == n[p[b] := n[b]];
    }

    /** Following next or prev from place k of the ring. */
    lemma Step(k: int)
      requires Is() && -1 <= k <= NBUF
      ensures var b := Node(c.ring, k);
              && 0 <= b <= NBUF && (b == HEAD <==> k == -1 || k == NBUF)
              && (k < NBUF ==> next[b] == Node(c.ring, k + 1))
              && (k >= 0 ==> prev[b] == Node(c.ring, k - 1))
    {
      assert LinkAt(next[..], prev[..], c.ring, k) && LinkAt(next[..], prev[..], c.ring, k + 1);
    }

    /** The first loop of bget: where the block is, or HEAD. */
    method Lookup(d: int, n: int) returns (b: int)
      requires Is()
      ensures b == Node(c.ring, Find(c, d, n, 0))
    {
      hide Linked;
      ghost var k := 0;
      Step(-1);
      b := next[HEAD];
      while b != HEAD
        invariant 0 <= k <= NBUF && b == Node(c.ring, k)
        invariant Find(c, d, n, k) == Find(c, d, n, 0)
        decreases NBUF - k
      {
        Step(k);
        assert BufIs(b);
        if dev[b] == d && blockno[b] == n { return; }
        b := next[b];
        k := k + 1;
      }
      Step(k);
    }

    /** The second loop of bget: the last unused buffer, or HEAD. */
    method Unused() returns (b: int)
      requires Is()
      ensures b == Node(c.ring, FindUnused(c, NBUF))
    {
      hide Linked;
      ghost var k := NBUF;
      Step(NBUF);
      b := prev[HEAD];
      while b != HEAD
        invariant 0 <= k <= NBUF && b == Node(c.ring, k - 1)
        invariant FindUnused(c, k) == FindUnused(c, NBUF)
        decreases k
      {
        Step(k - 1);
        assert BufIs(b);
        if refcnt[b] == 0 { return; }
        b := prev[b];
        k := k - 1;
      }
      Step(k - 1);
    }

    /** b->refcnt++ for a buffer that bget or bpin hands out once more; c' is the cache it gives. */
    method AddRef(b: int, ghost c': Cache)
      requires Is() && IsBuf(b) && c'.ring == c.ring && Sized(c')
      requires c'.bufs == c.bufs[b := c.bufs[b].(refcnt := c.bufs[b].refcnt + 1)]
      modifies `c, refcnt
      ensures Is() && c == c'
    {
      assert BufIs(b);
      hide Linked;
      refcnt[b] := refcnt[b] + 1;
      c := c';
      forall x ensures BufIs(x) { assert old(BufIs(x)); }
    }

    /** The recycling of an unused buffer. */
    method Recycle(b: int, d: int, n: int, ghost c': Cache)
      requires Is() && IsBuf(b) && c'.ring == c.ring && Sized(c')
      requires c'.bufs == c.bufs[b := Buf(d, n, false, 1)]
      modifies `c, dev, blockno, refcnt, valid
      ensures Is() && c == c'
    {
      hide Linked;
      dev[b] := d;
      blockno[b] := n;
      valid[b] := false;
      refcnt[b] := 1;
      c := c';
      forall x ensures BufIs(x) { assert old(BufIs(x)); }
    }

    /** bget; !ok is its panic. The sleep-lock of b is taken after the step. */
    method Bget(d: int, n: int) returns (ok: bool, b: int)
      requires Valid()
      modifies `c, dev, blockno, refcnt, valid
      ensures ok <==> old(Enabled(c, Get(d, n)))
      ensures ok ==> b == Pick(old(c), d, n) && Valid() && c == Next(old(c), Get(d, n))
      ensures !ok ==> c == old(c)
    {
      b := Lookup(d, n);
      if b != HEAD {
        Hit(c, d, n);
        hide *;
        AddRef(b, Next(c, Get(d, n)));
      } else {
        b := Unused();
        Miss(c, d, n);
        hide *;
        if b == HEAD { return false, -1; }
        Recycle(b, d, n, Next(c, Get(d, n)));
      }
      ok := true;
    }

    /** The rest of bread, for the buffer that bget gave: the disk is read if need be. */
    method Bread(b: int, disk: Disk) returns (fromDisk: bool)
      requires Valid() && Enabled(c, Read(b))
      modifies `c, valid, data
      ensures Valid() && c == Next(old(c), Read(b)) && valid[b] && fromDisk == !old(valid[b])
      ensures data[..] == if fromDisk then old(data[..])[b := disk(dev[b], blockno[b])] else old(data[..])
    {
      assert BufIs(b);
      NextKeepsInv(c, Read(b));
      hide Inv, Linked;
      fromDisk := !valid[b];
      if !valid[b] {
        data[b] := disk(dev[b], blockno[b]);
        valid[b] := true;
      }
      c := Next(c, Read(b));
      forall x ensures BufIs(x) { assert old(BufIs(x)); }
    }

    /** bwrite, for a caller that holds the buffer. */
    method Bwrite(b: int, disk: Disk) returns (disk': Disk)
      requires Valid() && IsBuf(b)
      ensures forall d, n :: disk'(d, n) == if d == dev[b] && n == blockno[b] then data[b] else disk(d, n)
    {
      disk' := Written(disk, dev[b], blockno[b], data[b]);
    }

    method Bpin(b: int)
      requires Valid() && Enabled(c, Pin(b))
      modifies `c, refcnt
      ensures Valid() && c == Next(old(c), Pin(b))
    {
      NextKeepsInv(c, Pin(b));
      AddRef(b, Next(c, Pin(b)));
    }

    /** b->refcnt--. */
    method DropRef(b: int, ghost c': Cache)
      requires Is() && IsBuf(b) && c'.ring == c.ring && Sized(c')
      requires c'.bufs == c.bufs[b := c.bufs[b].(refcnt := c.bufs[b].refcnt - 1)]
      modifies `c, refcnt
      ensures Is() && c == c'
    {
      assert BufIs(b);
      hide Linked;
      refcnt[b] := refcnt[b] - 1;
      c := c';
      forall x ensures BufIs(x) { assert old(BufIs(x)); }
    }

    method Bunpin(b: int)
      requires Valid() && Enabled(c, Unpin(b))
      modifies `c, refcnt
      ensures Valid() && c == Next(old(c), Unpin(b))
    {
      NextKeepsInv(c, Unpin(b));
      DropRef(b, Next(c, Unpin(b)));
    }

    /** brelse, for a caller that holds the buffer. */
    method Brelse(b: int)
      requires Valid() && Enabled(c, Release(b))
      modifies `c, refcnt, next, prev
      ensures Valid() && c == Next(old(c), Release(b))
    {
      ghost var c0, c1 := c, Next(c, Release(b));
      NextKeepsInv(c, Release(b));
      InRing(c, b);
      DropRef(b, c0.(users := c0.users[b := c0.users[b] - 1], bufs := c0.bufs[b := c0.bufs[b].(refcnt := c0.bufs[b].refcnt - 1)]));
      assert BufIs(b);
      hide Inv, IndexOf, Linked;
      if refcnt[b] == 0 {
        MoveToFront(b, c1);
      }
    }

    /** The moves of brelse when nobody is left. */
    method MoveToFront(b: int, ghost c': Cache)
      requires Is() && IsBuf(b) && b in c.ring && Sized(c')
      requires c'.bufs == c.bufs && c'.ring == ToFront(c.ring, IndexOf(c.ring, b))
      modifies `c, next, prev
      ensures Is() && c == c'
    {
      ghost var k := IndexOf(c.ring, b);
      ghost var rest := c.ring[..k] + c.ring[k + 1..];
      GoneFrom(c.ring, k);
      Unlink(b, c.ring, k);
      PushFront(b, rest);
      c := c';
      forall x ensures BufIs(x) { assert old(BufIs(x)); }
    }
  }

  lemma GoneFrom(ring: seq<int>, k: int)
    requires Distinct(ring) && 0 <= k < |ring|
    ensures ring[k] !in ring[..k] + ring[k + 1..]
    ensures ToFront(ring, k) == [ring[k]] + (ring[..k] + ring[k + 1..])
  {
  }

  /** What bget does when its first loop stops at a buffer. */
  lemma Hit(c: Cache, d: int, n: int)
    requires Inv(c) && Node(c.ring, Find(c, d, n, 0)) != HEAD
    ensures var b := Node(c.ring, Find(c, d, n, 0));
            && IsBuf(b) && Enabled(c, Get(d, n)) && b == Pick(c, d, n)
            && var c' := Next(c, Get(d, n));
               && Inv(c') && Sized(c') && c'.ring == c.ring
               && c'.bufs == c.bufs[b := c.bufs[b].(refcnt := c.bufs[b].refcnt + 1)]
  {
    NextKeepsInv(c, Get(d, n));
  }

  /** What it does when it does not. */
  lemma Miss(c: Cache, d: int, n: int)
    requires Inv(c) && Node(c.ring, Find(c, d, n, 0)) == HEAD
    ensures var b := Node(c.ring, FindUnused(c, NBUF));
            && (Enabled(c, Get(d, n)) <==> b != HEAD)
            && (b != HEAD ==>
                  && IsBuf(b) && b == Pick(c, d, n)
                  && var c' := Next(c, Get(d, n));
                     && Inv(c') && Sized(c') && c'.ring == c.ring
                     && c'.bufs == c.bufs[b := Buf(d, n, false, 1)])
  {
    if Enabled(c, Get(d, n)) { NextKeepsInv(c, Get(d, n)); }
  }
}
