/** The buffer cache of Lab3/xv6-riscv/kernel/bio.c as a state machine: any number of
    processes, each critical section of bcache.lock one step. */
module BufferCache {
  import opened Sequences

  const NBUF := 30

  datatype Buf = Buf(dev: int, blockno: int, valid: bool, refcnt: int)

  /** `ring` lists the buffers from head.next to head.prev. `users` and `pins` say what
      refcnt is made of, and `stamp` when a buffer was last moved to the front. */
  datatype Cache = Cache(bufs: seq<Buf>, ring: seq<int>, users: seq<int>, pins: seq<int>,
                         stamp: seq<int>, clock: int)

  predicate IsBuf(b: int) { 0 <= b < NBUF }

  predicate Sized(c: Cache) {
    && |c.bufs| == |c.users| == |c.pins| == |c.stamp| == NBUF == |c.ring|
    && forall i :: 0 <= i < NBUF ==> IsBuf(c.ring[i])
  }

  // ---- the two loops of bget ----

  predicate Holds(x: Buf, dev: int, blockno: int) { x.dev == dev && x.blockno == blockno }

  /** Where the first loop of bget stops, from place i on; NBUF when it finds nothing. */
  function Find(c: Cache, dev: int, blockno: int, i: nat): (r: nat)
    requires Sized(c) && i <= NBUF
    ensures i <= r <= NBUF
    ensures r < NBUF ==> Holds(c.bufs[c.ring[r]], dev, blockno)
    ensures forall k :: i <= k < r ==> !Holds(c.bufs[c.ring[k]], dev, blockno)
    decreases NBUF - i
  {
    if i == NBUF || Holds(c.bufs[c.ring[i]], dev, blockno) then i else Find(c, dev, blockno, i + 1)
  }

  /** Where the second loop stops, from the place before i backwards; -1 when it finds nothing. */
  function FindUnused(c: Cache, i: nat): (r: int)
    requires Sized(c) && i <= NBUF
    ensures -1 <= r < i
    ensures r >= 0 ==> c.bufs[c.ring[r]].refcnt == 0
    ensures forall k :: r < k < i ==> c.bufs[c.ring[k]].refcnt != 0
    decreases i
  {
    if i == 0 then -1 else if c.bufs[c.ring[i - 1]].refcnt == 0 then i - 1 else FindUnused(c, i - 1)
  }

  /** The buffer that bget gives; -1 is its panic. */
  function Pick(c: Cache, dev: int, blockno: int): (b: int)
    requires Sized(c)
    ensures b == -1 || IsBuf(b)
  {
    var r := Find(c, dev, blockno, 0);
    if r < NBUF then c.ring[r]
    else
      var u := FindUnused(c, NBUF);
      if u < 0 then -1 else c.ring[u]
  }

  // ---- the steps ----

  datatype Event =
    | Get(dev: int, blockno: int)
    | Read(b: int)          // the rest of bread: the contents are there
    | Release(b: int)
    | Pin(b: int)
    | Unpin(b: int)

  /** What the callers owe: only a buffer in use is released or read into, only a pinned one
      unpinned. */
  predicate Enabled(c: Cache, e: Event)
    requires Sized(c)
  {
    match e
    case Get(dev, blockno) => Pick(c, dev, blockno) >= 0
    case Read(b) => IsBuf(b) && c.users[b] > 0
    case Release(b) => IsBuf(b) && c.users[b] > 0
    case Pin(b) => IsBuf(b) && c.users[b] > 0
    case Unpin(b) => IsBuf(b) && c.pins[b] > 0
  }

  function GetStep(c: Cache, dev: int, blockno: int): Cache
    requires Sized(c) && Pick(c, dev, blockno) >= 0
  {
    var b := Pick(c, dev, blockno);
    c.(users := c.users[b := c.users[b] + 1],
       bufs := c.bufs[b := if Find(c, dev, blockno, 0) < NBUF then c.bufs[b].(refcnt := c.bufs[b].refcnt + 1)
                           else Buf(dev, blockno, false, 1)])
  }

  /** b at the front, the others in their order. */
  function ToFront(ring: seq<int>, p: int): (r: seq<int>)
    requires 0 <= p < |ring|
    ensures |r| == |ring|
  {
    [ring[p]] + (ring[..p] + ring[p + 1..])
  }

  function IndexOf(ring: seq<int>, b: int): (p: int)
    requires b in ring
    ensures 0 <= p < |ring| && ring[p] == b
    decreases |ring|
  {
    if ring[0] == b then 0 else 1 + IndexOf(ring[1..], b)
  }

  function ReleaseStep(c: Cache, b: int): Cache
    requires Sized(c) && IsBuf(b) && b in c.ring
  {
    var c' := c.(users := c.users[b := c.users[b] - 1],
                 bufs := c.bufs[b := c.bufs[b].(refcnt := c.bufs[b].refcnt - 1)]);
    if c.bufs[b].refcnt - 1 != 0 then c'
    else c'.(ring := ToFront(c.ring, IndexOf(c.ring, b)), stamp := c.stamp[b := c.clock], clock := c.clock + 1)
  }

  function Next(c: Cache, e: Event): Cache
    requires Inv(c) && Enabled(c, e)
  {
    match e
    case Get(dev, blockno) => GetStep(c, dev, blockno)
    case Read(b) => c.(bufs := c.bufs[b := c.bufs[b].(valid := true)])
    case Release(b) => InRing(c, b); ReleaseStep(c, b)
    case Pin(b) => c.(bufs := c.bufs[b := c.bufs[b].(refcnt := c.bufs[b].refcnt + 1)], pins := c.pins[b := c.pins[b] + 1])
    case Unpin(b) => c.(bufs := c.bufs[b := c.bufs[b].(refcnt := c.bufs[b].refcnt - 1)], pins := c.pins[b := c.pins[b] - 1])
  }

  /** After binit: the buffers in reverse order, none of them used, all of them zero. */
  predicate Init(c: Cache) {
    && Sized(c) && (forall i :: 0 <= i < NBUF ==> c.ring[i] == NBUF - 1 - i)
    && (forall b :: 0 <= b < NBUF ==> c.bufs[b] == Buf(0, 0, false, 0) && c.users[b] == 0 && c.pins[b] == 0 && c.stamp[b] == b)
    && c.clock == NBUF
  }

  // ---- the invariant ----

  predicate CountOk(c: Cache, b: int)
    requires Sized(c)
  {
    IsBuf(b) ==> c.users[b] >= 0 && c.pins[b] >= 0 && c.bufs[b].refcnt == c.users[b] + c.pins[b] && c.stamp[b] < c.clock
  }

  /** Two buffers hold the same block only if neither has ever been used. */
  predicate Single(c: Cache, a: int, b: int)
    requires Sized(c)
  {
    IsBuf(a) && IsBuf(b) && a != b && Holds(c.bufs[a], c.bufs[b].dev, c.bufs[b].blockno) ==>
      Holds(c.bufs[a], 0, 0)
  }

  /** Somebody uses or pins the buffer, or it has the contents of its block. */
  predicate Live(c: Cache, b: int)
    requires Sized(c)
  {
    IsBuf(b) && (c.users[b] > 0 || c.pins[b] > 0 || c.bufs[b].valid)
  }

  /** A live buffer's block is in no other live buffer, and others that seem to hold it are further
      down the ring, where bget does not come to them. */
  predicate LiveFirst(c: Cache, a: int, b: int)
    requires Sized(c)
  {
    Live(c, a) && IsBuf(b) && a != b && Holds(c.bufs[b], c.bufs[a].dev, c.bufs[a].blockno) ==>
      !Live(c, b) && c.stamp[a] > c.stamp[b]
  }

  /** The ring is in the order of recency. */
  predicate Recent(c: Cache, i: int, j: int)
    requires Sized(c)
  {
    0 <= i < j < NBUF ==> c.stamp[c.ring[i]] > c.stamp[c.ring[j]]
  }

  predicate Placed(c: Cache, b: int) { IsBuf(b) ==> b in c.ring }

  ghost predicate Inv(c: Cache) {
    && Sized(c) && Distinct(c.ring) && (forall b :: Placed(c, b))
    && (forall b :: CountOk(c, b)) && (forall a, b :: Single(c, a, b)) && (forall i, j :: Recent(c, i, j))
    && (forall a, b :: LiveFirst(c, a, b))
  }

  lemma InRing(c: Cache, b: int)
    requires Inv(c) && IsBuf(b)
    ensures b in c.ring
  {
    assert Placed(c, b);
  }

  lemma InitInv(c: Cache)
    requires Init(c)
    ensures Inv(c)
  {
    forall b ensures Placed(c, b) { if IsBuf(b) { assert c.ring[NBUF - 1 - b] == b; } }
  }

  lemma GetKeepsInv(c: Cache, dev: int, blockno: int)
    requires Inv(c) && Pick(c, dev, blockno) >= 0
    ensures Inv(GetStep(c, dev, blockno))
  {
    var c', v := GetStep(c, dev, blockno), Pick(c, dev, blockno);
    forall b ensures CountOk(c', b) && Placed(c', b) { assert CountOk(c, b) && Placed(c, b); }
    forall i, j ensures Recent(c', i, j) { assert Recent(c, i, j); }
    forall a, b ensures Single(c', a, b) {
      assert Single(c, a, b) && Placed(c, a) && Placed(c, b);
    }
    forall a, b ensures LiveFirst(c', a, b) { GetLiveFirst(c, dev, blockno, a, b); }
  }

  lemma GetLiveFirst(c: Cache, dev: int, blockno: int, a: int, b: int)
    requires Inv(c) && Pick(c, dev, blockno) >= 0
    ensures LiveFirst(GetStep(c, dev, blockno), a, b)
  {
    hide Placed, Single, FindUnused;
    var c', v, r := GetStep(c, dev, blockno), Pick(c, dev, blockno), Find(c, dev, blockno, 0);
    assert LiveFirst(c, a, b) && LiveFirst(c, b, a);
    if Live(c', a) && IsBuf(b) && a != b && Holds(c'.bufs[b], c'.bufs[a].dev, c'.bufs[a].blockno) && (a == v || b == v) {
      if r == NBUF { MissedEverywhere(c, dev, blockno); }
      var o := if a == v then b else a;
      InRing(c, o);
      var k :| 0 <= k < NBUF && c.ring[k] == o;
      assert Recent(c, r, k);
    }
  }

  /** Where the elements are after ToFront. */
  lemma FrontAt(ring: seq<int>, p: int, i: int)
    requires 0 <= p < |ring| && 0 <= i < |ring|
    ensures ToFront(ring, p)[i] == if i == 0 then ring[p] else if i <= p then ring[i - 1] else ring[i]
  {
  }

  lemma FrontSame(ring: seq<int>, p: int)
    requires 0 <= p < |ring| && Distinct(ring)
    ensures Distinct(ToFront(ring, p)) && forall b :: b in ToFront(ring, p) <==> b in ring
  {
    var r := ToFront(ring, p);
    forall i, j | 0 <= i < j < |r| ensures r[i] != r[j] { FrontAt(ring, p, i); FrontAt(ring, p, j); }
    forall b ensures b in r <==> b in ring {
      if b in ring {
        var i :| 0 <= i < |ring| && ring[i] == b;
        assert b == if i == p then r[0] else if i < p then r[i + 1] else r[i];
      }
    }
  }

  lemma ReleaseKeepsInv(c: Cache, b: int)
    requires Inv(c) && IsBuf(b) && c.users[b] > 0
    ensures b in c.ring && Inv(ReleaseStep(c, b))
  {
    InRing(c, b);
    var c', p := ReleaseStep(c, b), IndexOf(c.ring, b);
    FrontSame(c.ring, p);
    assert CountOk(c, b);
    forall a ensures CountOk(c', a) && Placed(c', a) { assert CountOk(c, a) && Placed(c, a); }
    forall a, d ensures Single(c', a, d) { assert Single(c, a, d); }
    assert Sized(c');
    forall i, j ensures Recent(c', i, j) { ReleaseRecent(c, b, i, j); }
    forall a, d ensures LiveFirst(c', a, d) { assert LiveFirst(c, a, d) && LiveFirst(c, d, a) && CountOk(c, a) && CountOk(c, d); }
  }

  lemma ReleaseRecent(c: Cache, b: int, i: int, j: int)
    requires Inv(c) && IsBuf(b) && c.users[b] > 0 && b in c.ring && Sized(ReleaseStep(c, b))
    ensures Recent(ReleaseStep(c, b), i, j)
  {
    var p := IndexOf(c.ring, b);
    assert Recent(c, i, j);
    if 0 <= i < j < NBUF {
      FrontAt(c.ring, p, i);
      FrontAt(c.ring, p, j);
      var i', j' := if i <= p then i - 1 else i, if j <= p then j - 1 else j;
      assert c.ring[j'] != b;
      assert i > 0 ==> c.ring[i'] != b;
      assert CountOk(c, c.ring[j']) && Recent(c, i', j');
      hide Inv, ToFront, IndexOf, Distinct;
    }
  }

  lemma NextKeepsInv(c: Cache, e: Event)
    requires Inv(c) && Enabled(c, e)
    ensures Inv(Next(c, e))
  {
    match e
    case Get(dev, blockno) => GetKeepsInv(c, dev, blockno);
    case Release(b) => ReleaseKeepsInv(c, b);
    case _ => CountsKeepInv(c, e);
  }

  lemma CountsKeepInv(c: Cache, e: Event)
    requires Inv(c) && Enabled(c, e) && (e.Read? || e.Pin? || e.Unpin?)
    ensures Inv(Next(c, e))
  {
    var c' := Next(c, e);
    forall b ensures CountOk(c', b) && Placed(c', b) { assert CountOk(c, b) && Placed(c, b); }
    forall i, j ensures Recent(c', i, j) { assert Recent(c, i, j); }
    forall a, b ensures Single(c', a, b) && LiveFirst(c', a, b) { assert Single(c, a, b) && LiveFirst(c, a, b) && CountOk(c, b); }
  }

  // ---- runs ----

  ghost predicate Runs(c: Cache, es: seq<Event>)
    decreases |es|, 0
  {
    && Init(c)
    && (es != [] ==> var n := |es| - 1; Runs(c, es[..n]) && Enabled(Exec(c, es[..n]), es[n]))
  }

  ghost function Exec(c: Cache, es: seq<Event>): (d: Cache)
    requires Runs(c, es)
    ensures Inv(d)
    decreases |es|, 1
  {
    if es == [] then InitInv(c); c
    else
      var n := |es| - 1;
      NextKeepsInv(Exec(c, es[..n]), es[n]);
      Next(Exec(c, es[..n]), es[n])
  }

  // ---- what bget promises ----

  /** bget finds the block when it is cached; otherwise it takes, of the buffers that nobody
      uses or pins, the one whose last release is the longest ago, and panics only when every
      buffer is in use. */
  lemma Recycles(c: Cache, dev: int, blockno: int)
    requires Inv(c)
    ensures var b := Pick(c, dev, blockno);
            && (b >= 0 <==> exists u :: IsBuf(u) && (Holds(c.bufs[u], dev, blockno) || c.bufs[u].refcnt == 0))
            && (b >= 0 && !Holds(c.bufs[b], dev, blockno) ==>
                  && (forall u :: IsBuf(u) ==> !Holds(c.bufs[u], dev, blockno))
                  && c.users[b] == 0 && c.pins[b] == 0
                  && forall u :: IsBuf(u) && c.bufs[u].refcnt == 0 && u != b ==> c.stamp[b] < c.stamp[u])
  {
    var b := Pick(c, dev, blockno);
    forall u | IsBuf(u) && (Holds(c.bufs[u], dev, blockno) || c.bufs[u].refcnt == 0) ensures b >= 0 { InRing(c, u); }
    if b >= 0 {
      assert CountOk(c, b);
      if !Holds(c.bufs[b], dev, blockno) { MissedEverywhere(c, dev, blockno); OldestUnused(c); }
    }
  }

  lemma MissedEverywhere(c: Cache, dev: int, blockno: int)
    requires Inv(c) && Find(c, dev, blockno, 0) == NBUF
    ensures forall u :: IsBuf(u) ==> !Holds(c.bufs[u], dev, blockno)
  {
    forall u | IsBuf(u) ensures !Holds(c.bufs[u], dev, blockno) { InRing(c, u); }
  }

  lemma OldestUnused(c: Cache)
    requires Inv(c) && FindUnused(c, NBUF) >= 0
    ensures var b := c.ring[FindUnused(c, NBUF)];
            forall u :: IsBuf(u) && c.bufs[u].refcnt == 0 && u != b ==> c.stamp[b] < c.stamp[u]
  {
    var r := FindUnused(c, NBUF);
    forall u | IsBuf(u) && c.bufs[u].refcnt == 0 && u != c.ring[r] ensures c.stamp[c.ring[r]] < c.stamp[u] {
      InRing(c, u);
      var k :| 0 <= k < NBUF && c.ring[k] == u;
      assert Recent(c, k, r);
    }
  }

  /** After any run every buffer is at exactly one place of the ring, and the buffers before it
      were last moved to the front later. */
  lemma EveryBufferOnce(c: Cache, es: seq<Event>, b: int)
    requires Runs(c, es) && IsBuf(b)
    ensures var d := Exec(c, es);
            && Sized(d)
            && exists k :: 0 <= k < NBUF && d.ring[k] == b
                 && (forall j :: 0 <= j < NBUF && d.ring[j] == b ==> j == k)
                 && (forall j :: 0 <= j < k ==> IsBuf(d.ring[j]) && d.stamp[d.ring[j]] > d.stamp[b])
  {
    var d := Exec(c, es);
    InRing(d, b);
    var k :| 0 <= k < NBUF && d.ring[k] == b;
    forall j | 0 <= j < k ensures IsBuf(d.ring[j]) && d.stamp[d.ring[j]] > d.stamp[b] { assert Recent(d, j, k); }
  }

  /** While a buffer is used or pinned, it goes on holding its block. */
  lemma KeepsBlock(c: Cache, e: Event, b: int)
    requires Inv(c) && Enabled(c, e) && IsBuf(b) && c.users[b] + c.pins[b] > 0
    ensures Sized(Next(c, e)) && Holds(Next(c, e).bufs[b], c.bufs[b].dev, c.bufs[b].blockno)
    ensures c.bufs[b].valid ==> Next(c, e).bufs[b].valid
  {
    NextKeepsInv(c, e);
    assert CountOk(c, b);
    if e.Get? { Recycles(c, e.dev, e.blockno); }
  }

  /** From one moment of a run to a later one, with the buffer in use all along. */
  lemma {:induction false} KeepsBlockAlong(c: Cache, es: seq<Event>, m: nat, b: int)
    requires Runs(c, es) && m <= |es| && IsBuf(b)
    requires forall i :: m <= i <= |es| ==> Runs(c, es[..i])
    requires forall i :: m <= i < |es| ==> var d := Exec(c, es[..i]); Sized(d) && d.users[b] + d.pins[b] > 0
    ensures Sized(Exec(c, es[..m])) && Sized(Exec(c, es))
    ensures Holds(Exec(c, es).bufs[b], Exec(c, es[..m]).bufs[b].dev, Exec(c, es[..m]).bufs[b].blockno)
    decreases |es|
  {
    hide Init, Inv, Next, Enabled;
    if m == |es| {
      assert es[..m] == es;
      SizedInv(Exec(c, es));
    } else {
      var n := |es| - 1;
      forall i | m <= i <= n ensures es[..n][..i] == es[..i] {}
      KeepsBlockAlong(c, es[..n], m, b);
      KeepsBlock(Exec(c, es[..n]), es[n], b);
    }
  }

  /** The event hands the buffer out for another block. */
  ghost predicate Takes(c: Cache, e: Event, b: int)
    requires Sized(c)
  {
    e.Get? && Pick(c, e.dev, e.blockno) == b && IsBuf(b) && !Holds(c.bufs[b], e.dev, e.blockno)
  }

  lemma ValidStep(c: Cache, e: Event, b: int)
    requires Inv(c) && Enabled(c, e) && IsBuf(b)
    ensures Sized(Next(c, e))
    ensures Next(c, e).bufs[b].valid <==> !Takes(c, e, b) && (c.bufs[b].valid || e == Read(b))
  {
    NextKeepsInv(c, e);
    if e.Get? && Find(c, e.dev, e.blockno, 0) == NBUF { MissedEverywhere(c, e.dev, e.blockno); }
    hide Placed, Single, LiveFirst, Recent, CountOk;
  }

  /** A buffer that bread has once filled stays valid until bget takes it for another block: no
      bread of its block goes to the disk before that. */
  lemma {:induction false} StaysValid(c: Cache, es: seq<Event>, m: nat, b: int)
    requires Runs(c, es) && m < |es| && es[m] == Read(b)
    requires forall i :: m <= i <= |es| ==> Runs(c, es[..i])
    requires forall i :: m < i < |es| ==> var d := Exec(c, es[..i]); Sized(d) && !Takes(d, es[i], b)
    ensures Sized(Exec(c, es)) && IsBuf(b) && Exec(c, es).bufs[b].valid
    decreases |es|
  {
    hide Init, Inv, Next, Takes, Exec, Runs, Enabled;
    var n := |es| - 1;
    var d := Exec(c, es[..n]);
    LastStep(c, es, b);
    if m < n {
      forall i | m <= i <= n ensures es[..n][..i] == es[..i] {}
      StaysValid(c, es[..n], m, b);
    }
  }

  lemma LastStep(c: Cache, es: seq<Event>, b: int)
    requires Runs(c, es) && es != [] && Runs(c, es[..|es| - 1])
    ensures var e, d, d' := es[|es| - 1], Exec(c, es[..|es| - 1]), Exec(c, es);
            && Sized(d) && Sized(d') && (e == Read(b) ==> IsBuf(b))
            && (IsBuf(b) ==> (d'.bufs[b].valid <==> !Takes(d, e, b) && (d.bufs[b].valid || e == Read(b))))
            && (Takes(d, e, b) ==> e.Get?)
  {
    var e, d := es[|es| - 1], Exec(c, es[..|es| - 1]);
    SizedInv(d);
    SizedInv(Exec(c, es));
    if IsBuf(b) { ValidStep(d, e, b); }
    hide Init, Inv, Next;
  }

  lemma SizedInv(c: Cache)
    requires Inv(c)
    ensures Sized(c)
  {
  }

  /** After any run no two buffers that are used, pinned or valid hold the same block, whichever
      block of whichever device that is. */
  lemma LiveOnce(c: Cache, es: seq<Event>, a: int, b: int)
    requires Runs(c, es)
    ensures var d := Exec(c, es);
            Sized(d) && (Live(d, a) && Live(d, b) && Holds(d.bufs[a], d.bufs[b].dev, d.bufs[b].blockno) ==> a == b)
  {
    assert LiveFirst(Exec(c, es), a, b);
  }

  /** Nor do any two buffers at all hold the same block of a device whose number is not 0. */
  lemma BlockOnce(c: Cache, es: seq<Event>, a: int, b: int)
    requires Runs(c, es) && IsBuf(a) && IsBuf(b) && a != b
    ensures var d := Exec(c, es);
            Sized(d) && (d.bufs[a].dev == d.bufs[b].dev != 0 ==> d.bufs[a].blockno != d.bufs[b].blockno)
  {
    assert Single(Exec(c, es), a, b);
  }

  // ---- least recently released ----

  /** brelse leaves nobody with the buffer. */
  ghost predicate Frees(c: Cache, e: Event, b: int)
    requires Sized(c)
  {
    IsBuf(b) && e == Release(b) && c.users[b] + c.pins[b] == 1
  }

  /** The place in the run of the last such brelse; before the run the buffers count from the last down. */
  ghost function LastFreed(c: Cache, es: seq<Event>, b: int): int
    requires Runs(c, es)
    decreases |es|
  {
    if es == [] then b - NBUF
    else
      var n := |es| - 1;
      SizedInv(Exec(c, es[..n]));
      if Frees(Exec(c, es[..n]), es[n], b) then n else LastFreed(c, es[..n], b)
  }

  lemma StampStep(c: Cache, e: Event, b: int)
    requires Inv(c) && Enabled(c, e) && IsBuf(b)
    ensures Sized(Next(c, e)) && c.stamp[b] < c.clock
    ensures if Frees(c, e, b) then Next(c, e).stamp[b] == c.clock else Next(c, e).stamp[b] == c.stamp[b]
  {
    NextKeepsInv(c, e);
    assert CountOk(c, b);
    if e.Release? { assert CountOk(c, e.b); }
    hide Placed, Single, LiveFirst, Recent, ToFront, IndexOf;
  }

  lemma {:induction false} StampIsRelease(c: Cache, es: seq<Event>, a: int, b: int)
    requires Runs(c, es) && IsBuf(a) && IsBuf(b)
    ensures Sized(Exec(c, es)) && LastFreed(c, es, a) < |es|
    ensures Exec(c, es).stamp[a] < Exec(c, es).stamp[b] <==> LastFreed(c, es, a) < LastFreed(c, es, b)
    decreases |es|
  {
    hide Inv, Next, Enabled, Frees;
    if es != [] {
      var n := |es| - 1;
      var d := Exec(c, es[..n]);
      StampIsRelease(c, es[..n], a, b);
      StampIsRelease(c, es[..n], b, a);
      StampStep(d, es[n], a);
      StampStep(d, es[n], b);
      OneFreed(d, es[n], a, b);
    }
  }

  lemma OneFreed(c: Cache, e: Event, a: int, b: int)
    requires Sized(c)
    ensures Frees(c, e, a) && Frees(c, e, b) ==> a == b
  {
  }

  /** After any run, a block that is in no buffer gets, of the buffers in no use, the one that was
      released by its last user longest ago. */
  lemma LeastRecentlyReleased(c: Cache, es: seq<Event>, dev: int, blockno: int, u: int)
    requires Runs(c, es) && Enabled(Exec(c, es), Get(dev, blockno))
    ensures var d := Exec(c, es); var b := Pick(d, dev, blockno);
            && Sized(d)
            && (!Holds(d.bufs[b], dev, blockno) && IsBuf(u) && d.bufs[u].refcnt == 0 && u != b ==>
                  d.bufs[b].refcnt == 0 && LastFreed(c, es, b) < LastFreed(c, es, u))
  {
    var d := Exec(c, es);
    var b := Pick(d, dev, blockno);
    Recycles(d, dev, blockno);
    if IsBuf(u) {
      StampIsRelease(c, es, b, u);
      assert CountOk(d, b);
    }
    hide Pick, Next, LastFreed;
  }

  ghost function Boot(): Cache {
    Cache(seq(NBUF, _ => Buf(0, 0, false, 0)), seq(NBUF, i => NBUF - 1 - i), seq(NBUF, _ => 0), seq(NBUF, _ => 0),
          seq(NBUF, i => i), NBUF)
  }
}
