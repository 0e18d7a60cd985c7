/** malloc, free and morecore of Lab3/xv6-riscv/user/umalloc.c on a heap of headers. */
module Umalloc {
  import opened Wrappers
  import opened FreeList

  // Units of 16 bytes, sizeof(Header); sbrk never lets a program have more than this many.
  const LIMIT := 0x1_0000_0000

  ghost predicate InLive(live: map<nat, nat>, u: nat) {
    exists a :: a in live && a <= u < a + live[a]
  }

  /** Allocated blocks have their size in their header and do not overlap. */
  ghost predicate LiveOk(hdr: map<nat, Header>, live: map<nat, nat>, base: nat) {
    && (forall a :: a in live ==> live[a] > 0 && a > base && a in hdr && hdr[a].size == live[a])
    && (forall a, b :: a in live && b in live && a < b ==> a + live[a] <= b)
  }

  /** Every unit of the arena is in one free block or in one allocated block. */
  ghost predicate Partition(fl: seq<Block>, live: map<nat, nat>, arena: set<nat>) {
    && (forall u: nat :: u in arena <==> InFree(fl, u) || InLive(live, u))
    && (forall u: nat :: !(InFree(fl, u) && InLive(live, u)))
  }

  ghost predicate Within(arena: set<nat>, base: nat, brk: nat) {
    0 < base < brk && forall u :: u in arena ==> base < u < brk
  }

  ghost predicate Heap(hdr: map<nat, Header>, fl: seq<Block>, live: map<nat, nat>, arena: set<nat>, base: nat, brk: nat) {
    && Coalesced(fl, base) && Cycle(hdr, fl)
    && LiveOk(hdr, live, base) && Partition(fl, live, arena) && Within(arena, base, brk)
  }

  // ---- the search of free ----

  /** The test that ends the search, at p with successor q. */
  predicate Stops(p: nat, q: nat, bp: nat) {
    (bp > p && bp < q) || (p >= q && (bp > p || bp < q))
  }

  function Dist(i: nat, t: nat, n: nat): nat
    requires i < n && t < n
  {
    if i <= t then t - i else n - i + t
  }

  ghost predicate Outside(fl: seq<Block>, addr: nat) {
    forall j :: 0 <= j < |fl| ==> fl[j].addr != addr
  }

  /** The search ends exactly at the block's place in address order. */
  lemma StopsAtPlace(fl: seq<Block>, base: nat, i: nat, bp: nat)
    requires Sorted(fl, base) && i < |fl| && bp > base && Outside(fl, bp)
    ensures Stops(fl[i].addr, fl[After(i, |fl|)].addr, bp) <==> i == PlaceOf(fl, bp, |fl|)
  {
    var t, n := PlaceOf(fl, bp, |fl|), |fl|;
    PlaceOfSplits(fl, base, bp, n);
    if i < t { Upwards(fl, base, i, t); }
    if i + 1 < n {
      if i + 1 < t { Upwards(fl, base, i + 1, t); }
      assert InOrder(fl, i);
    } else if i > 0 {
      Upwards(fl, base, 0, i);
    }
    assert Sized(fl, i) && fl[i].addr != bp && fl[t].addr != bp;
    assert t < i ==> bp < fl[i].addr;
    assert t < i + 1 < n ==> bp < fl[i + 1].addr;
  }

  /** A block that shares no unit with the list has a place in it. */
  lemma HasPlace(fl: seq<Block>, base: nat, b: Block)
    requires Sorted(fl, base) && b.size > 0 && b.addr > base
    requires forall u: nat :: InBlock(b, u) ==> !InFree(fl, u)
    ensures Place(fl, PlaceOf(fl, b.addr, |fl|), b) && Outside(fl, b.addr)
  {
    var t := PlaceOf(fl, b.addr, |fl|);
    PlaceOfSplits(fl, base, b.addr, |fl|);
    assert InBlock(b, b.addr);
    forall j | 0 <= j <= t ensures End(fl[j]) <= b.addr && fl[j].addr != b.addr {
      if j < t { Upwards(fl, base, j, t); }
      assert !InBlock(fl[j], b.addr);
      assert Sized(fl, j);
    }
    forall j | t < j < |fl| ensures End(b) <= fl[j].addr {
      assert Sized(fl, j) && InBlock(fl[j], fl[j].addr) && InFree(fl, fl[j].addr);
      assert !InBlock(b, fl[j].addr);
    }
  }

  // ---- the relinking of free ----

  /** Headers after the first half of free: bp points past what it swallowed. */
  function JoinUp(hdr: map<nat, Header>, p: nat, bp: nat): map<nat, Header>
    requires p in hdr && bp in hdr && hdr[p].ptr in hdr
  {
    var q := hdr[p].ptr;
    if bp + hdr[bp].size == q then hdr[bp := Header(hdr[q].ptr, hdr[bp].size + hdr[q].size)]
    else hdr[bp := Header(q, hdr[bp].size)]
  }

  function JoinDown(hdr: map<nat, Header>, p: nat, bp: nat): map<nat, Header>
    requires p in hdr && bp in hdr
  {
    if p + hdr[p].size == bp then hdr[p := Header(hdr[bp].ptr, hdr[p].size + hdr[bp].size)]
    else hdr[p := Header(bp, hdr[p].size)]
  }

  /** All the stores of free. */
  function Freed(hdr: map<nat, Header>, p: nat, bp: nat): map<nat, Header>
    requires p in hdr && bp in hdr && hdr[p].ptr in hdr
  {
    JoinDown(JoinUp(hdr, p, bp), p, bp)
  }

  predicate Up(fl: seq<Block>, i: nat, b: Block) {
    i + 1 < |fl| && End(b) == fl[i + 1].addr
  }

  /** The first entry above the freed block that stays as it was. */
  function Rest(fl: seq<Block>, i: nat, b: Block): (k: nat)
    requires i < |fl|
    ensures i < k <= |fl|
  {
    if Up(fl, i, b) then i + 2 else i + 1
  }

  function Upper(fl: seq<Block>, i: nat, b: Block): Block {
    if Up(fl, i, b) then Block(b.addr, b.size + fl[i + 1].size) else b
  }

  /** What becomes of entry i and the freed block. */
  function Middle(fl: seq<Block>, i: nat, b: Block): (m: seq<Block>)
    requires i < |fl|
    ensures |m| > 0 && m[0].addr == fl[i].addr
  {
    var b' := Upper(fl, i, b);
    if End(fl[i]) == b.addr then [Block(fl[i].addr, fl[i].size + b'.size)] else [fl[i], b']
  }

  /** The released list, block by block. */
  lemma ReleasedForm(fl: seq<Block>, base: nat, i: nat, b: Block)
    requires Sorted(fl, base) && Place(fl, i, b)
    ensures Released(fl, i, b) == fl[..i] + Middle(fl, i, b) + fl[Rest(fl, i, b)..]
  {
    var g, k := Insert(fl, i, b), Rest(fl, i, b);
    assert g[i] == fl[i] && g[i + 1] == b && (i + 1 < |fl| ==> g[i + 2] == fl[i + 1]);
    var b' := Upper(fl, i, b);
    assert Merge(g, i + 1) == fl[..i + 1] + [b'] + fl[k..];
    MergeLower(fl, i, b', k);
  }

  lemma MergeLower(fl: seq<Block>, i: nat, b': Block, k: nat)
    requires i < k <= |fl|
    ensures Merge(fl[..i + 1] + [b'] + fl[k..], i)
            == fl[..i] + (if End(fl[i]) == b'.addr then [Block(fl[i].addr, fl[i].size + b'.size)] else [fl[i], b']) + fl[k..]
  {
    var h := fl[..i + 1] + [b'] + fl[k..];
    assert h[i] == fl[i] && h[i + 1] == b';
    if Touch(h, i) {
      assert h[..i] == fl[..i] && h[i + 2..] == fl[k..];
    } else {
      assert h == fl[..i] + [fl[i], b'] + fl[k..];
    }
  }

  lemma Distinct(fl: seq<Block>, base: nat, i: nat, j: nat)
    requires Sorted(fl, base) && i < |fl| && j < |fl| && i != j
    ensures fl[i].addr != fl[j].addr
  {
    if i < j { Upwards(fl, base, i, j); assert Sized(fl, i); } else { Upwards(fl, base, j, i); assert Sized(fl, j); }
    if i == 0 && j > 1 { Upwards(fl, base, 1, j); }
    if j == 0 && i > 1 { Upwards(fl, base, 1, i); }
  }

  /** What the two halves of free write, in terms of the list. */
  lemma Rewritten(hdr: map<nat, Header>, fl: seq<Block>, base: nat, i: nat, b: Block)
    requires Sorted(fl, base) && Cycle(hdr, fl) && Place(fl, i, b) && Outside(fl, b.addr) && b.addr > base
    requires b.addr in hdr && hdr[b.addr].size == b.size
    ensures fl[i].addr in hdr && hdr[fl[i].addr].ptr in hdr
    ensures var p, k, m := fl[i].addr, Rest(fl, i, b), Middle(fl, i, b);
            var next := if k < |fl| then fl[k].addr else base;
            var hdr' := Freed(hdr, p, b.addr);
            && p in hdr' && b.addr in hdr'
            && (|m| == 1 ==> hdr'[p] == Header(next, m[0].size))
            && (|m| == 2 ==> hdr'[p] == Header(b.addr, m[0].size) && hdr'[b.addr] == Header(next, m[1].size))
  {
    assert Linked(hdr, fl, i) && fl[0].addr == base;
    if i + 1 < |fl| { assert Linked(hdr, fl, i + 1); } else { assert Linked(hdr, fl, 0); }
  }

  lemma OthersKept(hdr: map<nat, Header>, p: nat, bp: nat, a: nat)
    requires p in hdr && bp in hdr && hdr[p].ptr in hdr && a != p && a != bp
    ensures var hdr' := Freed(hdr, p, bp);
            (a in hdr' <==> a in hdr) && (a in hdr ==> hdr'[a] == hdr[a])
  {
  }

  lemma Pieces(fl: seq<Block>, i: nat, mid: seq<Block>, k: nat)
    requires i <= k <= |fl|
    ensures var g := fl[..i] + mid + fl[k..];
            && |g| == i + |mid| + |fl| - k
            && (forall j {:trigger g[j]} :: 0 <= j < i ==> g[j] == fl[j])
            && (forall j {:trigger g[j]} :: i <= j < i + |mid| ==> g[j] == mid[j - i])
            && (forall j {:trigger g[j]} :: i + |mid| <= j < |g| ==> g[j] == fl[j - |mid| - i + k])
  {
  }

  /** After the relinking the headers form the cycle of the released list. */
  lemma Relinked(hdr: map<nat, Header>, fl: seq<Block>, base: nat, i: nat, b: Block)
    requires Sorted(fl, base) && Cycle(hdr, fl) && Place(fl, i, b) && Outside(fl, b.addr) && b.addr > base
    requires b.addr in hdr && hdr[b.addr].size == b.size
    ensures fl[i].addr in hdr && hdr[fl[i].addr].ptr in hdr
    ensures var g := Released(fl, i, b);
            && Cycle(Freed(hdr, fl[i].addr, b.addr), g)
            && i < |g| && g[i].addr == fl[i].addr
  {
    Rewritten(hdr, fl, base, i, b);
    ReleasedForm(fl, base, i, b);
    var p, k, m := fl[i].addr, Rest(fl, i, b), Middle(fl, i, b);
    assert |m| == 2 ==> m[1].addr == b.addr;
    assert |m| <= 2 && fl[0].addr == base;
    hide Freed, Place, Released, Middle, Rest, Sorted;
    Pieces(fl, i, m, k);
    var g, hdr' := fl[..i] + m + fl[k..], Freed(hdr, p, b.addr);
    forall j | 0 <= j < |g| ensures Linked(hdr', g, j) {
      if j < i || j >= i + |m| {
        var j' := if j < i then j else j - |m| - i + k;
        Distinct(fl, base, j', i);
        OthersKept(hdr, p, b.addr, fl[j'].addr);
        KeptLink(hdr, hdr', fl, i, m, k, j);
      } else {
        MiddleLink(hdr', fl, i, m, k, j);
      }
    }
    hide Linked;
  }

  /** The blocks away from the freed one keep their links. */
  lemma KeptLink(hdr: map<nat, Header>, hdr': map<nat, Header>, fl: seq<Block>, i: nat, m: seq<Block>, k: nat, j: nat)
    requires Cycle(hdr, fl) && i < k <= |fl| && |m| > 0 && m[0].addr == fl[i].addr
    requires j < i || i + |m| <= j < i + |m| + |fl| - k
    requires var a := fl[if j < i then j else j - |m| - i + k].addr;
             a in hdr ==> a in hdr' && hdr'[a] == hdr[a]
    ensures Linked(hdr', fl[..i] + m + fl[k..], j)
  {
    Pieces(fl, i, m, k);
    assert Linked(hdr, fl, if j < i then j else j - |m| - i + k);
    hide Cycle;
  }

  lemma MiddleLink(hdr': map<nat, Header>, fl: seq<Block>, i: nat, m: seq<Block>, k: nat, j: nat)
    requires i < k <= |fl| && 1 <= |m| <= 2 && i <= j < i + |m| && m[0].addr == fl[i].addr
    requires var next := if k < |fl| then fl[k].addr else fl[0].addr;
             && m[0].addr in hdr' && m[|m| - 1].addr in hdr'
             && (|m| == 1 ==> hdr'[m[0].addr] == Header(next, m[0].size))
             && (|m| == 2 ==> hdr'[m[0].addr] == Header(m[1].addr, m[0].size) && hdr'[m[1].addr] == Header(next, m[1].size))
    ensures Linked(hdr', fl[..i] + m + fl[k..], j)
  {
    Pieces(fl, i, m, k);
  }

  // ---- the heap after free ----

  lemma LiveLess(live: map<nat, nat>, a: nat, u: nat)
    requires a in live
    requires forall x, y :: x in live && y in live && x < y ==> x + live[x] <= y
    ensures InLive(live - {a}, u) <==> InLive(live, u) && !InBlock(Block(a, live[a]), u)
  {
    if InLive(live, u) && !InBlock(Block(a, live[a]), u) {
      var x :| x in live && x <= u < x + live[x];
      assert x in live - {a};
    }
    if InLive(live - {a}, u) {
      var x :| x in live - {a} && x <= u < x + live[x];
      assert x in live && x != a;
      if x < a { assert x + live[x] <= a; } else { assert a + live[a] <= x; }
    }
  }

  lemma PartitionFree(fl: seq<Block>, live: map<nat, nat>, arena: set<nat>, i: nat, a: nat)
    requires Partition(fl, live, arena) && a in live && i < |fl|
    requires forall x, y :: x in live && y in live && x < y ==> x + live[x] <= y
    ensures Partition(Released(fl, i, Block(a, live[a])), live - {a}, arena)
  {
    var b := Block(a, live[a]);
    forall u: nat
      ensures InFree(Released(fl, i, b), u) <==> InFree(fl, u) || InBlock(b, u)
      ensures InLive(live - {a}, u) <==> InLive(live, u) && !InBlock(b, u)
      ensures InBlock(b, u) ==> InLive(live, u)
    {
      ReleasedUnits(fl, i, b, u);
      LiveLess(live, a, u);
    }
    hide Released, InFree, InLive, InBlock;
  }

  /** An allocated block starts no free block. */
  lemma NotBoth(fl: seq<Block>, live: map<nat, nat>, arena: set<nat>, base: nat, a: nat, j: nat)
    requires Sorted(fl, base) && Partition(fl, live, arena) && a in live && live[a] > 0 && a > base && j < |fl|
    ensures fl[j].addr != a
  {
    assert Sized(fl, j);
    assert InLive(live, a);
    assert !InFree(fl, a);
    assert !InBlock(fl[j], a);
  }

  lemma FreeFits(hdr: map<nat, Header>, fl: seq<Block>, live: map<nat, nat>, arena: set<nat>, base: nat, brk: nat, a: nat)
    requires Heap(hdr, fl, live, arena, base, brk) && a in live
    ensures var i := PlaceOf(fl, a, |fl|);
            Place(fl, i, Block(a, live[a])) && Outside(fl, a) && a in hdr && hdr[a].size == live[a]
  {
    var b := Block(a, live[a]);
    forall u: nat | InBlock(b, u) ensures !InFree(fl, u) { assert InLive(live, u); }
    HasPlace(fl, base, b);
  }

  /** free keeps the heap: the block is free, everything else is as it was. */
  lemma FreeKeeps(hdr: map<nat, Header>, fl: seq<Block>, live: map<nat, nat>, arena: set<nat>, base: nat, brk: nat, a: nat)
    requires Heap(hdr, fl, live, arena, base, brk) && a in live
    ensures var i := PlaceOf(fl, a, |fl|);
            var p := fl[i].addr;
            && a in hdr && p in hdr && hdr[p].ptr in hdr
            && Heap(Freed(hdr, p, a), Released(fl, i, Block(a, live[a])), live - {a}, arena, base, brk)
            && p >= base && i < |Released(fl, i, Block(a, live[a]))| && Released(fl, i, Block(a, live[a]))[i].addr == p
  {
    var i, b := PlaceOf(fl, a, |fl|), Block(a, live[a]);
    FreeFits(hdr, fl, live, arena, base, brk, a);
    if i > 0 { Upwards(fl, base, 0, i); }
    Relinked(hdr, fl, base, i, b);
    ReleasedCoalesced(fl, base, i, b);
    PartitionFree(fl, live, arena, i, a);
    var p := fl[i].addr;
    var hdr' := Freed(hdr, p, a);
    forall x | x in live && x != a ensures x in hdr' && hdr'[x] == hdr[x] {
      NotBoth(fl, live, arena, base, x, i);
      OthersKept(hdr, p, a, x);
    }
    hide Released, Freed, Partition, Sorted, Cycle, Place, Within, TouchOnly;
  }

  /** The freed block is in the list, alone or as part of a larger one. */
  lemma ReleasedHas(fl: seq<Block>, base: nat, i: nat, b: Block)
    requires Sorted(fl, base) && Place(fl, i, b)
    ensures var g := Released(fl, i, b);
            var k := if End(fl[i]) == b.addr then i else i + 1;
            k < |g| && g[k].size >= b.size
  {
    ReleasedForm(fl, base, i, b);
  }

  // ---- the heap after malloc ----

  /** The stores of malloc that take n units from p, whose predecessor is prevp. Only the
      size of a split-off header is written; its link stays whatever it was. */
  function Taken(hdr: map<nat, Header>, prevp: nat, p: nat, n: nat): map<nat, Header>
    requires prevp in hdr && p in hdr && n <= hdr[p].size
  {
    if hdr[p].size == n then hdr[prevp := hdr[prevp].(ptr := hdr[p].ptr)]
    else
      var q := p + hdr[p].size - n;
      hdr[p := hdr[p].(size := hdr[p].size - n)][q := Header(if q in hdr then hdr[q].ptr else 0, n)]
  }

  lemma LiveMore(live: map<nat, nat>, b: Block, u: nat)
    requires b.addr !in live
    ensures InLive(live[b.addr := b.size], u) <==> InLive(live, u) || InBlock(b, u)
  {
    var live' := live[b.addr := b.size];
    if InLive(live, u) {
      var x :| x in live && x <= u < x + live[x];
      assert x in live' && live'[x] == live[x];
    }
    if InBlock(b, u) { assert b.addr in live'; }
  }

  /** The units handed out were free, so no allocated block overlaps them. */
  lemma TailApart(fl: seq<Block>, live: map<nat, nat>, arena: set<nat>, i: nat, n: nat, x: nat)
    requires Partition(fl, live, arena) && i < |fl| && 0 < n <= fl[i].size && x in live && live[x] > 0
    ensures var t := Tail(fl[i], n);
            x != t.addr && (x < t.addr ==> x + live[x] <= t.addr) && (t.addr < x ==> End(t) <= x)
  {
    var t := Tail(fl[i], n);
    assert InBlock(fl[i], t.addr) && InFree(fl, t.addr);
    assert InLive(live, x) && !InFree(fl, x) && !InBlock(fl[i], x);
    assert !InLive(live, t.addr);
  }

  lemma PartitionTake(fl: seq<Block>, live: map<nat, nat>, arena: set<nat>, base: nat, i: nat, n: nat)
    requires Partition(fl, live, arena) && Coalesced(fl, base) && i < |fl| && 0 < n <= fl[i].size
    requires Tail(fl[i], n).addr !in live
    ensures Partition(Carved(fl, i, n), live[Tail(fl[i], n).addr := n], arena)
  {
    var t := Tail(fl[i], n);
    forall u: nat
      ensures InFree(Carved(fl, i, n), u) <==> InFree(fl, u) && !InBlock(t, u)
      ensures InLive(live[t.addr := n], u) <==> InLive(live, u) || InBlock(t, u)
      ensures InBlock(t, u) ==> InFree(fl, u)
    {
      CarvedUnits(fl, base, i, n, u);
      LiveMore(live, t, u);
      assert InBlock(t, u) ==> InBlock(fl[i], u);
    }
    hide Carved, InFree, InLive, InBlock, Coalesced;
  }

  /** The headers still form one cycle. */
  lemma TakenCycle(hdr: map<nat, Header>, fl: seq<Block>, base: nat, i: nat, n: nat)
    requires Coalesced(fl, base) && Cycle(hdr, fl) && 0 < i < |fl| && 0 < n <= fl[i].size
    ensures fl[i - 1].addr in hdr && fl[i].addr in hdr && hdr[fl[i].addr].size == fl[i].size
    ensures Cycle(Taken(hdr, fl[i - 1].addr, fl[i].addr, n), Carved(fl, i, n))
  {
    assert Linked(hdr, fl, i - 1) && Linked(hdr, fl, i);
    var g, hdr' := Carved(fl, i, n), Taken(hdr, fl[i - 1].addr, fl[i].addr, n);
    forall j | 0 <= j < |g| ensures Linked(hdr', g, j) {
      var j' := if fl[i].size == n && j >= i then j + 1 else j;
      assert Linked(hdr, fl, j');
      if j' != i { Distinct(fl, base, j', i); TailInside(fl, base, i, n, j'); }
      if j' != i - 1 { Distinct(fl, base, j', i - 1); }
    }
  }

  lemma TailInside(fl: seq<Block>, base: nat, i: nat, n: nat, j: nat)
    requires Sorted(fl, base) && i < |fl| && 0 < n <= fl[i].size && j < |fl| && j != i
    ensures fl[j].addr != Tail(fl[i], n).addr
  {
    assert Sized(fl, j) && Sized(fl, i) && fl[0] == Block(base, 0);
    if j < i { Upwards(fl, base, j, i); } else { Upwards(fl, base, i, j); }
    if j == 0 && i > 1 { Upwards(fl, base, 1, i); }
  }

  /** malloc keeps the heap: the block it hands out is allocated, everything else as it was. */
  lemma TakeKeeps(hdr: map<nat, Header>, fl: seq<Block>, live: map<nat, nat>, arena: set<nat>, base: nat, brk: nat, i: nat, n: nat)
    requires Heap(hdr, fl, live, arena, base, brk) && 0 < i < |fl| && 0 < n <= fl[i].size
    ensures var t := Tail(fl[i], n).addr;
            && fl[i - 1].addr in hdr && fl[i].addr in hdr && hdr[fl[i].addr].size == fl[i].size
            && t !in live
            && Heap(Taken(hdr, fl[i - 1].addr, fl[i].addr, n), Carved(fl, i, n), live[t := n], arena, base, brk)
  {
    var t := Tail(fl[i], n).addr;
    TakenCycle(hdr, fl, base, i, n);
    CarvedCoalesced(fl, base, i, n);
    forall x | x in live
      ensures x != t && (x < t ==> x + live[x] <= t) && (t < x ==> t + n <= x)
      ensures x != fl[i].addr && x != fl[i - 1].addr
    {
      TailApart(fl, live, arena, i, n, x);
      NotBoth(fl, live, arena, base, x, i);
      NotBoth(fl, live, arena, base, x, i - 1);
    }
    PartitionTake(fl, live, arena, base, i, n);
    assert Sized(fl, i) && t > base by { if i > 1 { Upwards(fl, base, 1, i); } }
    hide Carved, Partition, Sorted, Cycle, Within, TouchOnly;
  }

  // ---- morecore ----

  /** The n units from a on. */
  function Units(a: nat, n: nat): (us: set<nat>)
    ensures forall u :: u in us <==> a <= u < a + n
  {
    if n == 0 then {} else Units(a, n - 1) + {a + n - 1}
  }

  function AtLeast(n: nat, m: nat): (r: nat)
    ensures r >= n && r >= m && r in {n, m}
  {
    if n < m then m else n
  }

  /** The int that sbrk receives for nu units: 32 bits, signed. */
  function SbrkArgument(nu: nat): int {
    var bytes := nu * 16 % 0x1_0000_0000;
    if bytes >= 0x8000_0000 then bytes - 0x1_0000_0000 else bytes
  }

  /** malloc's own arithmetic cannot overflow, but its call of sbrk can: exactly the requests
      of fewer than 2^27 units ask for the memory they need. The others ask for less than nothing,
      for nothing or for one unit. */
  lemma AsksForEnough(nu: nat)
    requires nu <= 0x1000_0001
    ensures SbrkArgument(nu) == nu * 16 <==> nu < 0x800_0000
    ensures nu >= 0x800_0000 ==> SbrkArgument(nu) / 16 <= 1
  {
  }

  /** Where the break is after sbrk of 16 * units bytes: a program that asks to shrink by more than
      it has does not shrink. */
  function Break(brk: nat, units: int): (b: nat)
    ensures b <= brk + if units > 0 then units else 0
  {
    if brk + units < 0 then brk else brk + units
  }

  /** What sbrk has given so far, and not taken back. */
  function Given(given: set<nat>, brk: nat, units: int): (g: set<nat>)
    ensures forall u :: u in g ==> (u in given || brk <= u) && u < Break(brk, units)
  {
    if units > 0 then (set u | u in given && u < brk) + Units(brk, units)
    else set u | u in given && u < Break(brk, units)
  }

  /** The list may claim nu units at the old break exactly when sbrk was asked for them. */
  lemma ClaimsWhatIsGiven(arena: set<nat>, given: set<nat>, brk: nat, nu: nat)
    requires arena == given && (forall u :: u in given ==> u < brk) && 0 < nu <= 0x1000_0001
    ensures var units := SbrkArgument(nu) / 16;
            arena + Units(brk, nu) == Given(given, brk, units) && brk + nu <= Break(brk, units) <==> nu < 0x800_0000
  {
    AsksForEnough(nu);
    var units := SbrkArgument(nu) / 16;
    if nu < 0x800_0000 {
      assert units == nu && (set u | u in given && u < brk) == given;
    }
  }

  /** Memory fresh from sbrk, dressed up as an allocated block. */
  lemma GrantKeeps(hdr: map<nat, Header>, fl: seq<Block>, live: map<nat, nat>, arena: set<nat>, base: nat, brk: nat, n: nat, link: nat)
    requires Heap(hdr, fl, live, arena, base, brk) && n > 0
    ensures Heap(hdr[brk := Header(link, n)], fl, live[brk := n], arena + Units(brk, n), base, brk + n) && brk !in live
  {
    forall x | x in live ensures x + live[x] <= brk {
      assert InLive(live, x + live[x] - 1);
    }
    GrantPartition(fl, live, arena, base, brk, n);
    GrantCycle(hdr, fl, live, arena, base, brk, Header(link, n));
    hide Partition, Sorted, TouchOnly, Cycle;
  }

  lemma GrantCycle(hdr: map<nat, Header>, fl: seq<Block>, live: map<nat, nat>, arena: set<nat>, base: nat, brk: nat, h: Header)
    requires Sorted(fl, base) && Cycle(hdr, fl) && Partition(fl, live, arena) && Within(arena, base, brk)
    ensures Cycle(hdr[brk := h], fl)
  {
    forall j | 0 <= j < |fl| ensures fl[j].addr != brk && Linked(hdr[brk := h], fl, j) {
      assert Linked(hdr, fl, j) && Sized(fl, j);
      if fl[j].size > 0 { assert InBlock(fl[j], fl[j].addr) && InFree(fl, fl[j].addr); }
      if j == 0 { assert fl[0].addr == base; }
    }
  }

  lemma GrantPartition(fl: seq<Block>, live: map<nat, nat>, arena: set<nat>, base: nat, brk: nat, n: nat)
    requires Partition(fl, live, arena) && Within(arena, base, brk) && brk !in live
    ensures Partition(fl, live[brk := n], arena + Units(brk, n))
  {
    forall u: nat
      ensures InLive(live[brk := n], u) <==> InLive(live, u) || InBlock(Block(brk, n), u)
      ensures InBlock(Block(brk, n), u) <==> u in Units(brk, n)
    {
      LiveMore(live, Block(brk, n), u);
    }
    hide InFree, InLive, InBlock;
  }

  // ---- the scan of malloc ----

  /** The number of units malloc needs for a request. */
  function NUnits(nbytes: nat): (n: nat)
    ensures n > 0 && (n - 1) * 16 >= nbytes && (if nbytes > 0 then (n - 2) * 16 < nbytes else n == 1)
  {
    (nbytes + 16 - 1) / 16 + 1
  }

  /** Every block that would do lies between entry i and the end of the round at cur. */
  ghost predicate Unseen(fl: seq<Block>, i: nat, cur: nat, n: nat) {
    && i < |fl| && cur < |fl|
    && forall j :: 0 <= j < |fl| && fl[j].size >= n ==> Dist(i, j, |fl|) <= Dist(i, cur, |fl|)
  }

  lemma UnseenStart(fl: seq<Block>, cur: nat, n: nat)
    requires cur < |fl|
    ensures Unseen(fl, After(cur, |fl|), cur, n)
  {
  }

  lemma UnseenNext(fl: seq<Block>, i: nat, cur: nat, n: nat)
    requires Unseen(fl, i, cur, n) && fl[i].size < n
    ensures i != cur ==> Unseen(fl, After(i, |fl|), cur, n) && Dist(After(i, |fl|), cur, |fl|) < Dist(i, cur, |fl|)
    ensures i == cur ==> forall j :: 0 <= j < |fl| ==> fl[j].size < n
  {
  }

  /** First fit: of the blocks that would do, entry i comes first after cur; its last n units are the
      block handed out, at a, and the next search begins behind k, the entry before it. */
  ghost predicate FirstFit(fl: seq<Block>, cur: nat, n: nat, k: nat, a: int) {
    && k < |fl| && fl[After(k, |fl|)].size >= n && a == fl[After(k, |fl|)].addr + fl[After(k, |fl|)].size - n
    && TooSmall(fl, cur, n, k)
  }

  /** The entries after cur, up to k, are too small. */
  ghost predicate TooSmall(fl: seq<Block>, cur: nat, n: nat, k: nat) {
    cur < |fl| && k < |fl| ==>
      var i, next := After(cur, |fl|), After(k, |fl|);
      forall j :: 0 <= j < |fl| && Dist(i, j, |fl|) < Dist(i, next, |fl|) ==> fl[j].size < n
  }

  lemma NoneTooSmall(fl: seq<Block>, cur: nat, n: nat)
    ensures TooSmall(fl, cur, n, cur)
  {
  }

  lemma OneMoreTooSmall(fl: seq<Block>, cur: nat, n: nat, k: nat)
    requires k < |fl| && cur < |fl| && After(k, |fl|) != cur && TooSmall(fl, cur, n, k) && fl[After(k, |fl|)].size < n
    ensures TooSmall(fl, cur, n, After(k, |fl|))
  {
  }

  /** free undoes malloc: giving back what was just taken restores the very same list. */
  lemma FreeUndoesMalloc(fl: seq<Block>, base: nat, i: nat, n: nat)
    requires Coalesced(fl, base) && i < |fl| && 0 < n <= fl[i].size
    ensures var g, t := Carved(fl, i, n), Tail(fl[i], n);
            g != [] && Released(g, PlaceOf(g, t.addr, |g|), t) == fl
  {
    var g, t := Carved(fl, i, n), Tail(fl[i], n);
    assert Sized(fl, i) && i > 0;
    if i > 1 { Upwards(fl, base, 1, i); }
    CarvedCoalesced(fl, base, i, n);
    forall u: nat ensures InFree(g, u) <==> InFree(fl, u) && !InBlock(t, u) { CarvedUnits(fl, base, i, n, u); }
    HasPlace(g, base, t);
    var k := PlaceOf(g, t.addr, |g|);
    ReleasedCoalesced(g, base, k, t);
    forall u: nat ensures InFree(Released(g, k, t), u) <==> InFree(fl, u) {
      ReleasedUnits(g, k, t, u);
      assert InBlock(t, u) ==> InBlock(fl[i], u);
    }
    hide Carved, Released, Place, Outside, InFree, InBlock, TouchOnly;
    Canonical(Released(g, k, t), fl, base);
  }

  class Allocator {
    const base: nat
    var hdr: map<nat, Header>
    var freep: nat                 // 0 is NULL
    var brk: nat
    ghost var fl: seq<Block>
    ghost var cur: nat             // the entry freep points to
    ghost var live: map<nat, nat>  // allocated blocks: header address to size
    ghost var arena: set<nat>      // units that the list and the allocated blocks consist of
    ghost var top: nat             // they lie below
    ghost var given: set<nat>      // units that sbrk gave for them

    /** The list is one address-ordered cycle, and it and the allocated blocks make up the arena. */
    ghost predicate Valid()
      reads this
    {
      && 0 < base < top
      && (freep == 0 ==> live == map[] && arena == {} && fl == [])
      && (freep != 0 ==> Ready())
    }

    ghost predicate Ready()
      reads this
    {
      Heap(hdr, fl, live, arena, base, top) && cur < |fl| && freep == fl[cur].addr
    }

    /** The arena is memory of the program: exactly what sbrk gave. */
    ghost predicate Sound()
      reads this
    {
      top <= brk <= LIMIT && arena == given && forall u :: u in given ==> u < brk
    }

    constructor (bssBase: nat, heapStart: nat)
      requires 0 < bssBase < heapStart <= LIMIT
      ensures Valid() && Sound() && live == map[] && arena == {} && fl == [] && brk == heapStart
    {
      base, brk, freep := bssBase, heapStart, 0;
      hdr, fl, cur, live, arena, top, given := map[], [], 0, map[], {}, heapStart, {};
    }

    /** The for loop of free. */
    method Search(bp: nat) returns (p: nat)
      requires Ready() && bp > base && Outside(fl, bp)
      ensures PlaceOf(fl, bp, |fl|) < |fl| && p == fl[PlaceOf(fl, bp, |fl|)].addr
    {
      ghost var i: nat, t: nat, n := cur, PlaceOf(fl, bp, |fl|), |fl|;
      p := freep;
      assert Linked(hdr, fl, i);
      StopsAtPlace(fl, base, i, bp);
      while !(bp > p && bp < hdr[p].ptr)
        invariant i < n && p == fl[i].addr && Linked(hdr, fl, i)
        invariant Stops(p, hdr[p].ptr, bp) <==> i == t
        decreases Dist(i, t, n)
      {
        if p >= hdr[p].ptr && (bp > p || bp < hdr[p].ptr) {
          break;
        }
        p := hdr[p].ptr;
        i := After(i, n);
        assert Linked(hdr, fl, i);
        StopsAtPlace(fl, base, i, bp);
      }
    }

    /** The stores of free. */
    method Relink(p: nat, bp: nat)
      requires p in hdr && bp in hdr && hdr[p].ptr in hdr
      modifies `hdr
      ensures hdr == Freed(old(hdr), p, bp)
    {
      if bp + hdr[bp].size == hdr[p].ptr {
        var q := hdr[p].ptr;
        hdr := hdr[bp := Header(hdr[q].ptr, hdr[bp].size + hdr[q].size)];
      } else {
        hdr := hdr[bp := hdr[bp].(ptr := hdr[p].ptr)];
      }
      if p + hdr[p].size == bp {
        hdr := hdr[p := Header(hdr[bp].ptr, hdr[p].size + hdr[bp].size)];
      } else {
        hdr := hdr[p := hdr[p].(ptr := bp)];
      }
    }

    method Free(ap: nat)
      requires Valid() && freep != 0 && ap > 0 && ap - 1 in live
      modifies this
      ensures Valid() && freep != 0 && arena == old(arena) && brk == old(brk) && top == old(top) && given == old(given)
      ensures live == old(live) - {ap - 1}
      ensures fl == Released(old(fl), PlaceOf(old(fl), ap - 1, |old(fl)|), Block(ap - 1, old(live[ap - 1])))
      ensures cur == PlaceOf(old(fl), ap - 1, |old(fl)|)
    {
      hide Partition, Cycle, Sorted, Coalesced, LiveOk;
      var bp := ap - 1;
      FreeFits(hdr, fl, live, arena, base, top, bp);
      FreeKeeps(hdr, fl, live, arena, base, top, bp);
      assert bp > base by { BaseBelow(hdr, live, base, bp); }
      var p := Search(bp);
      ghost var i := PlaceOf(fl, bp, |fl|);
      ghost var b := Block(bp, live[bp]);
      Relink(p, bp);
      freep := p;
      fl, cur, live := Released(fl, i, b), i, live - {bp};
    }

    /** sbrk, by anybody else in the program, up or down. The heap may have gaps, and stays memory of
        the program unless the break falls below its top. */
    method OtherSbrk(n: int)
      requires Valid() && Sound() && brk + n <= LIMIT
      modifies `brk, `given
      ensures Valid() && brk == Break(old(brk), n)
      ensures given == set u | u in old(given) && u < brk
      ensures Sound() <==> top <= brk
    {
      brk := Break(brk, n);
      given := set u | u in given && u < brk;
      assert top <= brk ==> given == arena;
    }

    /** sbrk(nu * sizeof(Header)), where the product has been cut to an int; `grant` says whether the
        kernel lets the process grow. It always lets it shrink. */
    method Sbrk(nu: nat, grant: bool) returns (ok: bool, p: nat)
      requires brk <= LIMIT
      modifies `brk, `given
      ensures p == old(brk)
      ensures ok <==> SbrkArgument(nu) <= 0 || (grant && old(brk) + SbrkArgument(nu) / 16 <= LIMIT)
      ensures ok ==> brk == Break(old(brk), SbrkArgument(nu) / 16) && given == Given(old(given), old(brk), SbrkArgument(nu) / 16)
      ensures !ok ==> brk == old(brk) && given == old(given)
    {
      var units := SbrkArgument(nu) / 16;
      p := brk;
      if SbrkArgument(nu) > 0 && (!grant || brk + units > LIMIT) {
        return false, p;
      }
      given := Given(given, brk, units);
      brk := Break(brk, units);
      return true, p;
    }

    /** morecore. The list gains nu units in any case, and they are memory of the program exactly
        when the request is below 2^27 units. */
    method MoreCore(nunits: nat, grant: bool) returns (ok: bool, ghost big: nat)
      requires Valid() && Sound() && freep != 0 && 0 < nunits <= 0x1000_0001
      modifies this
      ensures Valid() && freep != 0 && live == old(live)
      ensures var arg := SbrkArgument(AtLeast(nunits, 4096));
              && (ok <==> !Refused(old(brk), nunits, grant))
              && (ok ==> brk == Break(old(brk), arg / 16) && given == Given(old(given), old(brk), arg / 16))
      ensures ok ==> arena == old(arena) + Units(old(brk), AtLeast(nunits, 4096)) && (Sound() <==> nunits < 0x800_0000)
      ensures ok ==> big < |fl| && fl[big].size >= nunits
      ensures !ok ==> hdr == old(hdr) && fl == old(fl) && arena == old(arena) && brk == old(brk) && freep == old(freep) && cur == old(cur)
                      && top == old(top) && given == old(given)
    {
      hide Partition, Cycle, Coalesced, LiveOk, Released, Sorted, Place, Outside, Units, SbrkArgument, Given, Break;
      big := 0;
      var nu := nunits;
      if nu < 4096 {
        nu := 4096;
      }
      ghost var a0, g0 := arena, given;
      AsksForEnough(nu);
      ClaimsWhatIsGiven(arena, given, brk, nu);
      var granted, hp := Sbrk(nu, grant);
      if !granted {
        return false, big;
      }
      WithinHigher(hdr, fl, live, arena, base, top, hp);
      Claim(hp, nu);
      ghost var fl0 := fl;
      FreeFits(hdr, fl, live, arena, base, top, hp);
      Free(hp + 1);
      ReleasedBig(fl0, base, hp, nu);
      big := if End(fl0[PlaceOf(fl0, hp, |fl0|)]) == hp then PlaceOf(fl0, hp, |fl0|) else PlaceOf(fl0, hp, |fl0|) + 1;
      return true, big;
    }

    /** hp->s.size = nu: the units from hp on look like an allocated block. */
    method Claim(hp: nat, nu: nat)
      requires Valid() && freep != 0 && Heap(hdr, fl, live, arena, base, hp) && nu > 0
      modifies `hdr, `live, `arena, `top
      ensures Valid() && hp !in old(live) && live == old(live)[hp := nu] && hp > 0
      ensures arena == old(arena) + Units(hp, nu) && top == hp + nu && live - {hp} == old(live)
    {
      hide Partition, Cycle, Coalesced, LiveOk, Sorted, Units;
      GrantKeeps(hdr, fl, live, arena, base, hp, nu, if hp in hdr then hdr[hp].ptr else 0);
      assert live[hp := nu] - {hp} == live;
      hdr := hdr[hp := Header(if hp in hdr then hdr[hp].ptr else 0, nu)];
      live := live[hp := nu];
      arena, top := arena + Units(hp, nu), hp + nu;
    }

    /** Unlinking a block or splitting off its tail. */
    method Take(prevp: nat, p0: nat, nunits: nat) returns (ap: nat)
      requires prevp in hdr && p0 in hdr && nunits <= hdr[p0].size && prevp != p0
      modifies `hdr
      ensures hdr == Taken(old(hdr), prevp, p0, nunits) && ap == p0 + old(hdr[p0].size) - nunits + 1
    {
      var p := p0;
      if hdr[p].size == nunits {
        hdr := hdr[prevp := hdr[prevp].(ptr := hdr[p].ptr)];
      } else {
        hdr := hdr[p := hdr[p].(size := hdr[p].size - nunits)];
        p := p + hdr[p].size;
        hdr := hdr[p := Header(if p in hdr then hdr[p].ptr else 0, nunits)];
      }
      return p + 1;
    }

    /** The first call: base, of size 0, is a list of its own. */
    method FirstCall()
      requires Valid() && freep == 0
      modifies this
      ensures Valid() && freep == base && live == old(live) && arena == old(arena) && brk == old(brk)
      ensures top == old(top) && given == old(given) && fl == [Block(base, 0)]
    {
      FirstHeap(base, top);
      hide Heap;
      hdr := map[base := Header(base, 0)];
      freep := base;
      fl, cur := [Block(base, 0)], 0;
    }

    /** The block after entry k is large enough: malloc takes it, or its tail. */
    method HandOut(prevp: nat, p: nat, nunits: nat, ghost k: nat) returns (ap: nat)
      requires Valid() && freep != 0 && k < |fl| && 0 < nunits <= fl[After(k, |fl|)].size
      requires prevp == fl[k].addr && p == fl[After(k, |fl|)].addr
      modifies this
      ensures Valid() && freep != 0 && arena == old(arena) && brk == old(brk) && top == old(top) && given == old(given)
      ensures ap > 0 && ap - 1 !in old(live) && live == old(live)[ap - 1 := nunits]
      ensures fl == Carved(old(fl), After(k, |old(fl)|), nunits) && cur == k
      ensures ap - 1 == old(fl)[After(k, |old(fl)|)].addr + old(fl)[After(k, |old(fl)|)].size - nunits
    {
      hide Heap, Taken, Carved;
      TakeAt(hdr, fl, live, arena, base, top, k, nunits);
      ap := Take(prevp, p, nunits);
      freep := prevp;
      fl, cur, live := Carved(fl, After(k, |fl|), nunits), k, live[ap - 1 := nunits];
    }

    /** malloc; None is its null pointer. Afterwards the heap is still memory of the program, unless
        there was no room for a request of 2^27 units or more. */
    method Malloc(nbytes: nat, grant: bool) returns (ap: Option<nat>)
      requires Valid() && Sound() && nbytes < 0x1_0000_0000
      modifies this
      ensures Valid() && freep != 0
      ensures ap == None <==> !Roomy(old(fl), NUnits(nbytes)) && Refused(old(brk), NUnits(nbytes), grant)
      ensures Sound() <==> NUnits(nbytes) < 0x800_0000 || Roomy(old(fl), NUnits(nbytes)) || Refused(old(brk), NUnits(nbytes), grant)
      ensures ap == None ==> live == old(live) && arena == old(arena) && brk == old(brk)
      ensures Roomy(old(fl), NUnits(nbytes)) && old(freep) != 0 ==>
                && ap.Some? && FirstFit(old(fl), old(cur), NUnits(nbytes), cur, ap.value - 1)
                && fl == Carved(old(fl), After(cur, |old(fl)|), NUnits(nbytes))
      ensures ap.Some? ==>
                && ap.value > 0 && ap.value - 1 !in old(live) && live == old(live)[ap.value - 1 := NUnits(nbytes)]
                && if Roomy(old(fl), NUnits(nbytes)) then brk == old(brk) && arena == old(arena)
                   else arena == old(arena) + Units(old(brk), AtLeast(NUnits(nbytes), 4096))
    {
      hide Partition, Cycle, Coalesced, LiveOk, Sorted, AtLeast, Within, SbrkArgument, Units, Unseen, Dist, Break, Given, Refused, TooSmall;
      var nunits := NUnits(nbytes);
      ghost var roomy := Roomy(fl, nunits);
      var prevp := freep;
      if prevp == 0 {
        FirstCall();
        prevp := base;
      }
      ghost var k: nat, asked, big: nat := cur, false, 0;
      LinkAt(hdr, fl, k);
      var p := hdr[prevp].ptr;
      UnseenStart(fl, cur, nunits);
      NoneTooSmall(fl, cur, nunits);
      while true
        invariant Valid() && freep != 0 && live == old(live)
        invariant k < |fl| && prevp == fl[k].addr && p == fl[After(k, |fl|)].addr
        invariant Unseen(fl, After(k, |fl|), cur, nunits)
        invariant !asked ==> brk == old(brk) && arena == old(arena) && Sound() && roomy == Roomy(fl, nunits)
        invariant !asked && old(freep) != 0 ==> fl == old(fl) && cur == old(cur) && TooSmall(fl, cur, nunits, k)
        invariant asked ==> !roomy && (Sound() <==> nunits < 0x800_0000) && big < |fl| && fl[big].size >= nunits
        invariant asked ==> arena == old(arena) + Units(old(brk), AtLeast(nunits, 4096)) && !Refused(old(brk), nunits, grant)
        decreases !asked, Dist(After(k, |fl|), cur, |fl|)
      {
        ghost var i := After(k, |fl|);
        LinkAt(hdr, fl, i);
        if hdr[p].size >= nunits {
          var q := HandOut(prevp, p, nunits, k);
          return Some(q);
        }
        UnseenNext(fl, i, cur, nunits);
        SameEntry(fl, base, i, cur);
        if p == freep {
          var granted, b := MoreCore(nunits, grant);
          if !granted {
            return None;
          }
          asked, big, k := true, b, cur;
          p := freep;
          UnseenStart(fl, cur, nunits);
        } else {
          if !asked && old(freep) != 0 { OneMoreTooSmall(fl, cur, nunits, k); }
          k := i;
        }
        LinkAt(hdr, fl, k);
        prevp, p := p, hdr[p].ptr;
      }
    }
  }

  /** The kernel grants no memory for nunits. It lets a program shrink, and has granted nothing then. */
  predicate Refused(brk: nat, nunits: nat, grant: bool)
    requires nunits <= 0x1000_0001
  {
    var arg := SbrkArgument(AtLeast(nunits, 4096));
    arg > 0 && !(grant && brk + arg / 16 <= LIMIT)
  }

  /** A request of 2^31 bytes on a fresh heap. sbrk is asked to shrink it, and malloc hands out
      memory that the program does not have. */
  method HugeRequest() returns (a: Allocator, ap: Option<nat>)
    ensures fresh(a) && a.Valid() && ap.Some? && !a.Sound()
  {
    a := new Allocator(1, 2);
    ap := a.Malloc(0x8000_0000, true);
  }

  /** Some free block is large enough. */
  ghost predicate Roomy(fl: seq<Block>, n: nat) { exists j :: 0 <= j < |fl| && fl[j].size >= n }

  lemma WithinHigher(hdr: map<nat, Header>, fl: seq<Block>, live: map<nat, nat>, arena: set<nat>, base: nat, top: nat, brk: nat)
    requires Heap(hdr, fl, live, arena, base, top) && top <= brk
    ensures Heap(hdr, fl, live, arena, base, brk)
  {
  }

  lemma LinkAt(hdr: map<nat, Header>, fl: seq<Block>, i: nat)
    requires Cycle(hdr, fl) && i < |fl|
    ensures Linked(hdr, fl, i)
  {
  }

  lemma SameEntry(fl: seq<Block>, base: nat, i: nat, j: nat)
    requires Coalesced(fl, base) && i < |fl| && j < |fl|
    ensures fl[i].addr == fl[j].addr <==> i == j
  {
    if i != j { Distinct(fl, base, i, j); }
  }

  lemma FirstHeap(base: nat, brk: nat)
    requires 0 < base < brk
    ensures Heap(map[base := Header(base, 0)], [Block(base, 0)], map[], {}, base, brk)
  {
  }

  lemma ReleasedBig(fl: seq<Block>, base: nat, a: nat, n: nat)
    requires Coalesced(fl, base) && Place(fl, PlaceOf(fl, a, |fl|), Block(a, n))
    ensures var i := PlaceOf(fl, a, |fl|);
            var g := Released(fl, i, Block(a, n));
            var k := if End(fl[i]) == a then i else i + 1;
            k < |g| && g[k].size >= n
  {
    ReleasedHas(fl, base, PlaceOf(fl, a, |fl|), Block(a, n));
  }

  /** TakeKeeps at the successor of entry k. */
  lemma TakeAt(hdr: map<nat, Header>, fl: seq<Block>, live: map<nat, nat>, arena: set<nat>, base: nat, brk: nat, k: nat, n: nat)
    requires Heap(hdr, fl, live, arena, base, brk) && k < |fl| && 0 < n <= fl[After(k, |fl|)].size
    ensures var i := After(k, |fl|);
            var t := Tail(fl[i], n).addr;
            && fl[k].addr in hdr && fl[i].addr in hdr && hdr[fl[i].addr].size == fl[i].size && fl[k].addr != fl[i].addr
            && t !in live && fl[k].addr >= base
            && Heap(Taken(hdr, fl[k].addr, fl[i].addr, n), Carved(fl, i, n), live[t := n], arena, base, brk)
            && k < |Carved(fl, i, n)| && Carved(fl, i, n)[k].addr == fl[k].addr && t == fl[i].addr + fl[i].size - n
  {
    var i := After(k, |fl|);
    assert i > 0;
    TakeKeeps(hdr, fl, live, arena, base, brk, i, n);
    Distinct(fl, base, i - 1, i);
    if k > 0 { Upwards(fl, base, 0, k); }
    hide Heap, Taken;
  }

  lemma BaseBelow(hdr: map<nat, Header>, live: map<nat, nat>, base: nat, a: nat)
    requires LiveOk(hdr, live, base) && a in live
    ensures a > base
  {
  }
}
