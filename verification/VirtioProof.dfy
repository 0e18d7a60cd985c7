/** Every step of VirtioRing keeps its invariant, and what follows for whole runs. */
module VirtioProof {
  import opened VirtioMem
  import opened Sequences
  import opened VirtioRing

  // ---- rings ----

  /** A 16-bit index and its ring place agree across the wrap: NUM divides 2^16. */
  lemma Wraps(x: int)
    ensures x % IDX % NUM == x % NUM
  {
    assert x == IDX * (x / IDX) + x % IDX;
  }

  lemma PlacesApart(from: int, k: int, n: int)
    requires 0 <= k < n < NUM
    ensures (from + k) % IDX % NUM != (from + n) % IDX % NUM
  {
    Wraps(from + k);
    Wraps(from + n);
    ModApart(from + k, from + n);
  }

  lemma ModApart(a: int, b: int)
    requires 0 < b - a < NUM
    ensures a % NUM != b % NUM
  {
  }

  /** A new entry overwrites none that is waiting. */
  lemma RingPush(ring: seq<int>, from: int, to: int, q: seq<int>, x: int)
    requires InRing(ring, from, to, q) && |q| + 1 < NUM
    ensures InRing(ring[to % NUM := x], from, (to + 1) % IDX, q + [x])
  {
    Wraps(from + |q|);
    forall k | 0 <= k < |q| + 1 ensures ring[to % NUM := x][(from + k) % IDX % NUM] == (q + [x])[k] {
      if k < |q| { PlacesApart(from, k, |q|); }
    }
  }

  lemma RingHead(ring: seq<int>, from: int, to: int, q: seq<int>)
    requires InRing(ring, from, to, q)
    ensures q != [] <==> from != to
    ensures q != [] ==> ring[from % NUM] == q[0]
  {
    if q != [] { assert ring[(from + 0) % IDX % NUM] == q[0]; }
  }

  lemma RingPop(ring: seq<int>, from: int, to: int, q: seq<int>)
    requires InRing(ring, from, to, q) && q != []
    ensures InRing(ring, (from + 1) % IDX, to, q[1..])
  {
    forall k | 0 <= k < |q| - 1 ensures ring[((from + 1) % IDX + k) % IDX % NUM] == q[1..][k] {
      Wraps((from + 1) % IDX + k);
      Wraps(from + 1);
      Wraps(from + 1 + k);
      assert ring[(from + (k + 1)) % IDX % NUM] == q[k + 1];
    }
  }

  /** There are never more than two requests, and a queue without repeats is no longer. */
  lemma {:induction false} QueueBound(q: seq<int>, keys: set<int>)
    requires Distinct(q) && forall i :: 0 <= i < |q| ==> q[i] in keys
    ensures |q| <= |keys|
    decreases |q|
  {
    if q != [] {
      var n := |q| - 1;
      assert keys == (keys - {q[n]}) + {q[n]};
      QueueBound(q[..n], keys - {q[n]});
    }
  }

  lemma FewRequests(s: Sys)
    requires Shape(s) && Rings(s)
    ensures |s.reqs| <= 2 && |s.queued| <= 2 && |s.usedQ| <= 2
  {
    forall i | 0 <= i < |s.queued| ensures s.queued[i] in s.reqs.Keys { assert QueuedOk(s, s.queued[i]); }
    forall i | 0 <= i < |s.usedQ| ensures s.usedQ[i] in s.reqs.Keys { assert UsedOk(s, s.usedQ[i]); }
    QueueBound(s.queued, s.reqs.Keys);
    QueueBound(s.usedQ, s.reqs.Keys);
  }

  lemma DistinctTail(q: seq<int>)
    requires Distinct(q) && q != []
    ensures Distinct(q[1..]) && forall x :: x in q[1..] <==> x in q && x != q[0]
  {
    forall x ensures x in q[1..] <==> x in q && x != q[0] {
      if x in q && x != q[0] {
        var i :| 0 <= i < |q| && q[i] == x;
        assert q[1..][i - 1] == x;
      }
    }
  }

  lemma DistinctMore(q: seq<int>, x: int)
    requires Distinct(q) && x !in q
    ensures Distinct(q + [x]) && forall y :: y in q + [x] <==> y in q || y == x
  {
  }

  // ---- asking ----

  /** The descriptors that alloc3_desc gives are no request's. */
  lemma Fresh(s: Sys, b: int, block: int)
    requires Chains(s) && CanAsk(s, b, block)
    ensures var t := Alloc3(s.m.free);
            && 0 <= t.i < NUM && 0 <= t.j < NUM && 0 <= t.k < NUM && t.i != t.j && t.i != t.k && t.j != t.k
            && s.user[t.i] == s.user[t.j] == s.user[t.k] == -1 && t.i !in s.reqs
            && CountFree(Without(s.m.free, t)) == CountFree(s.m.free) - 3
  {
    var t := Alloc3(s.m.free);
    Alloc3Iff(s.m.free);
    assert UserOk(s, t.i) && UserOk(s, t.j) && UserOk(s, t.k) && ChainOk(s, t.i);
  }

  lemma AskShape(s: Sys, b: int, write: bool, block: int)
    requires Chains(s) && CanAsk(s, b, block)
    ensures Shape(AskStep(s, b, write, block))
  {
    Fresh(s, b, block);
    Alloc3Iff(s.m.free);
  }

  lemma AskChains(s: Sys, b: int, write: bool, block: int)
    requires Chains(s) && CanAsk(s, b, block)
    ensures Chains(AskStep(s, b, write, block))
  {
    var s' := AskStep(s, b, write, block);
    Fresh(s, b, block);
    AskShape(s, b, write, block);
    AskUsers(s, b, write, block);
    forall h ensures ChainOk(s', h) { AskChain(s, b, write, block, h); }
    forall g, h ensures Apart(s', g, h) { AskApart(s, b, write, block, g, h); }
    hide AskStep, ChainOk, Apart, CanAsk, Alloc3;
  }

  lemma AskChain(s: Sys, b: int, write: bool, block: int, h: int)
    requires Chains(s) && CanAsk(s, b, block)
    ensures Shape(AskStep(s, b, write, block)) && ChainOk(AskStep(s, b, write, block), h)
  {
    Fresh(s, b, block);
    AskShape(s, b, write, block);
    if h in s.reqs { AskOldChain(s, b, write, block, h); }
    hide Alloc3, UserOk, Apart, CountFree;
  }

  lemma AskOldChain(s: Sys, b: int, write: bool, block: int, h: int)
    requires Chains(s) && CanAsk(s, b, block) && h in s.reqs
    ensures Shape(AskStep(s, b, write, block)) && ChainOk(AskStep(s, b, write, block), h)
  {
    Fresh(s, b, block);
    AskShape(s, b, write, block);
    assert ChainOk(s, h);
    var t, r, s' := Alloc3(s.m.free), s.reqs[h], AskStep(s, b, write, block);
    hide Alloc3, UserOk, Apart, CountFree, Chains;
    assert {h, r.j, r.k} !! {t.i, t.j, t.k} && r.b != b;
    assert s'.reqs[h] == r && s'.m.desc[h] == s.m.desc[h] && s'.m.desc[r.j] == s.m.desc[r.j] && s'.m.desc[r.k] == s.m.desc[r.k];
  }

  lemma AskApart(s: Sys, b: int, write: bool, block: int, g: int, h: int)
    requires Chains(s) && CanAsk(s, b, block)
    ensures Apart(AskStep(s, b, write, block), g, h)
  {
    Fresh(s, b, block);
    assert Apart(s, g, h) && ChainOk(s, g) && ChainOk(s, h);
  }

  lemma AskUsers(s: Sys, b: int, write: bool, block: int)
    requires Chains(s) && CanAsk(s, b, block)
    ensures Shape(AskStep(s, b, write, block))
    ensures forall i :: UserOk(AskStep(s, b, write, block), i)
  {
    Fresh(s, b, block);
    AskShape(s, b, write, block);
    forall i ensures UserOk(AskStep(s, b, write, block), i) { assert UserOk(s, i); }
  }

  lemma AskRings(s: Sys, b: int, write: bool, block: int)
    requires Chains(s) && Rings(s) && CanAsk(s, b, block)
    ensures Rings(AskStep(s, b, write, block))
  {
    var s', i := AskStep(s, b, write, block), Alloc3(s.m.free).i;
    Fresh(s, b, block);
    FewRequests(s);
    RingPush(s.m.avail, s.devIdx, s.m.availIdx, s.queued, i);
    assert QueuedOk(s, i);
    DistinctMore(s.queued, i);
    forall h ensures QueuedOk(s', h) { assert QueuedOk(s, h); }
    forall h ensures UsedOk(s', h) { assert UsedOk(s, h); }
  }

  lemma AskHistory(s: Sys, b: int, write: bool, block: int)
    requires Chains(s) && History(s) && CanAsk(s, b, block)
    ensures History(AskStep(s, b, write, block))
  {
    var s' := AskStep(s, b, write, block);
    Fresh(s, b, block);
    forall h ensures HistoryOk(s', h) { assert HistoryOk(s, h); }
    forall g, h ensures IdsApart(s', g, h) { assert IdsApart(s, g, h) && HistoryOk(s, g) && HistoryOk(s, h); }
    forall x ensures ServedOk(s', x) { assert ServedOk(s, x); }
  }

  lemma EditKeepsInv(s: Sys, b: int, value: int)
    requires Inv(s) && Idle(s, b)
    ensures Inv(EditStep(s, b, value))
  {
    var s' := EditStep(s, b, value);
    forall h ensures ChainOk(s', h) { assert ChainOk(s, h); }
    forall i ensures UserOk(s', i) { assert UserOk(s, i); }
    forall g, h ensures Apart(s', g, h) && IdsApart(s', g, h) { assert Apart(s, g, h) && IdsApart(s, g, h); }
    forall h ensures QueuedOk(s', h) { assert QueuedOk(s, h); }
    forall h ensures UsedOk(s', h) { assert UsedOk(s, h); }
    forall h ensures HistoryOk(s', h) { assert HistoryOk(s, h); }
    forall y ensures ServedOk(s', y) { assert ServedOk(s, y); }
  }

  // ---- the device takes a request ----

  lemma TakeReady(s: Sys)
    requires Inv(s) && s.devIdx != s.m.availIdx
    ensures s.queued != [] && s.m.avail[s.devIdx % NUM] == s.queued[0]
    ensures s.queued[0] in s.reqs && s.reqs[s.queued[0]].phase == Queued
  {
    RingHead(s.m.avail, s.devIdx, s.m.availIdx, s.queued);
    assert QueuedOk(s, s.queued[0]);
  }

  lemma TakeKeepsInv(s: Sys)
    requires Inv(s) && s.devIdx != s.m.availIdx
    ensures s.queued != [] && s.m.avail[s.devIdx % NUM] in s.reqs
    ensures Inv(TakeStep(s))
  {
    TakeReady(s);
    var s', x := TakeStep(s), s.queued[0];
    RingPop(s.m.avail, s.devIdx, s.m.availIdx, s.queued);
    DistinctTail(s.queued);
    assert s'.reqs.Keys == s.reqs.Keys;
    forall h ensures ChainOk(s', h) { assert ChainOk(s, h); }
    forall i ensures UserOk(s', i) { assert UserOk(s, i); }
    forall g, h ensures Apart(s', g, h) && IdsApart(s', g, h) { assert Apart(s, g, h) && IdsApart(s, g, h); }
    forall h ensures QueuedOk(s', h) { assert QueuedOk(s, h); }
    forall h ensures UsedOk(s', h) { assert UsedOk(s, h); }
    forall h ensures HistoryOk(s', h) { assert HistoryOk(s, h); }
    forall y ensures ServedOk(s', y) { assert ServedOk(s, y); }
  }

  // ---- the device completes a request ----

  lemma CompleteChains(s: Sys, h: int)
    requires Chains(s) && h in s.reqs && s.reqs[h].phase == Busy
    ensures 0 <= h < NUM && Follow(s.m, h) == Order(s.reqs[h].write, s.reqs[h].block, s.reqs[h].b, h)
    ensures 0 <= s.reqs[h].b < |s.data| && 0 <= s.reqs[h].block < |s.disk|
    ensures Chains(CompleteStep(s, h))
  {
    FollowsRequest(s, h);
    var s' := CompleteStep(s, h);
    assert s'.reqs.Keys == s.reqs.Keys;
    forall g ensures ChainOk(s', g) { assert ChainOk(s, g); }
    forall i ensures UserOk(s', i) { assert UserOk(s, i); }
    forall f, g ensures Apart(s', f, g) { assert Apart(s, f, g); }
  }

  lemma CompleteRings(s: Sys, h: int)
    requires Chains(s) && Rings(s) && h in s.reqs && s.reqs[h].phase == Busy
    requires 0 <= h < NUM && Follow(s.m, h) == Order(s.reqs[h].write, s.reqs[h].block, s.reqs[h].b, h)
    requires 0 <= s.reqs[h].b < |s.data| && 0 <= s.reqs[h].block < |s.disk|
    ensures Rings(CompleteStep(s, h))
  {
    var s' := CompleteStep(s, h);
    FewRequests(s);
    RingPush(s.used, s.m.seen, s.usedIdx, s.usedQ, h);
    assert UsedOk(s, h);
    DistinctMore(s.usedQ, h);
    forall g ensures QueuedOk(s', g) { assert QueuedOk(s, g); }
    forall g ensures UsedOk(s', g) { assert UsedOk(s, g); }
  }

  lemma CompleteHistory(s: Sys, h: int)
    requires Chains(s) && History(s) && h in s.reqs && s.reqs[h].phase == Busy
    requires 0 <= h < NUM && Follow(s.m, h) == Order(s.reqs[h].write, s.reqs[h].block, s.reqs[h].b, h)
    requires 0 <= s.reqs[h].b < |s.data| && 0 <= s.reqs[h].block < |s.disk|
    ensures History(CompleteStep(s, h))
  {
    var s' := CompleteStep(s, h);
    assert HistoryOk(s, h);
    forall g ensures HistoryOk(s', g) { assert HistoryOk(s, g) && Apart(s, g, h) && IdsApart(s, g, h); }
    forall f, g ensures IdsApart(s', f, g) { assert IdsApart(s, f, g); }
    forall x ensures ServedOk(s', x) { assert ServedOk(s, x); }
  }

  // ---- the interrupt ----

  lemma InterruptReady(s: Sys)
    requires Inv(s) && s.m.seen != s.usedIdx
    ensures s.usedQ != [] && s.used[s.m.seen % NUM] == s.usedQ[0]
    ensures s.usedQ[0] in s.reqs && s.reqs[s.usedQ[0]].phase == Used && 0 <= s.usedQ[0] < NUM
    ensures s.m.info[s.usedQ[0]] == Info(s.reqs[s.usedQ[0]].b, 0) && 0 <= s.reqs[s.usedQ[0]].b < |s.m.owned|
  {
    RingHead(s.used, s.m.seen, s.usedIdx, s.usedQ);
    assert UsedOk(s, s.usedQ[0]) && ChainOk(s, s.usedQ[0]);
  }

  lemma InterruptChains(s: Sys)
    requires Inv(s) && s.m.seen != s.usedIdx
    ensures s.usedQ != [] && s.used[s.m.seen % NUM] in s.reqs
    ensures var id := s.used[s.m.seen % NUM]; 0 <= id < NUM && 0 <= s.m.info[id].b < |s.m.owned|
    ensures Chains(InterruptStep(s))
  {
    InterruptReady(s);
    var s', x := InterruptStep(s), s.usedQ[0];
    assert s'.reqs.Keys == s.reqs.Keys;
    hide Rings, History;
    forall h ensures ChainOk(s', h) { assert ChainOk(s, h) && Apart(s, h, x); }
    forall i ensures UserOk(s', i) { assert UserOk(s, i); }
    forall g, h ensures Apart(s', g, h) { assert Apart(s, g, h); }
  }

  lemma InterruptKeepsInv(s: Sys)
    requires Inv(s) && s.m.seen != s.usedIdx
    ensures s.usedQ != [] && s.used[s.m.seen % NUM] in s.reqs
    ensures var id := s.used[s.m.seen % NUM]; 0 <= id < NUM && 0 <= s.m.info[id].b < |s.m.owned|
    ensures Inv(InterruptStep(s))
  {
    InterruptReady(s);
    InterruptChains(s);
    var s', x := InterruptStep(s), s.usedQ[0];
    RingPop(s.used, s.m.seen, s.usedIdx, s.usedQ);
    DistinctTail(s.usedQ);
    hide Chains, InRing;
    assert HistoryOk(s, x);
    forall g, h ensures IdsApart(s', g, h) { assert IdsApart(s, g, h); }
    forall h ensures QueuedOk(s', h) { assert QueuedOk(s, h); }
    forall h ensures UsedOk(s', h) { assert UsedOk(s, h); }
    forall h ensures HistoryOk(s', h) { assert HistoryOk(s, h) && IdsApart(s, h, x); }
    forall y ensures ServedOk(s', y) { assert ServedOk(s, y); }
  }

  // ---- the call returns ----

  /** free_chain gives back the three descriptors of the request and does not panic. */
  lemma ReleaseThree(s: Sys, h: int)
    requires Chains(s) && h in s.reqs
    ensures 0 <= h < NUM && 0 <= s.reqs[h].j < NUM && 0 <= s.reqs[h].k < NUM && 0 <= s.reqs[h].b < |s.data|
    ensures (NextInRange(s); Release(s.m, h).ok)
    ensures (NextInRange(s); Release(s.m, h).m ==
              FreeDesc(FreeDesc(FreeDesc(s.m.(info := s.m.info[h := s.m.info[h].(b := -1)]), h), s.reqs[h].j), s.reqs[h].k))
    ensures (NextInRange(s); CountFree(Release(s.m, h).m.free) == CountFree(s.m.free) + 3)
  {
    NextInRange(s);
    var r := s.reqs[h];
    assert ChainOk(s, h) && UserOk(s, h) && UserOk(s, r.j) && UserOk(s, r.k);
    FreeThree(s.m.(info := s.m.info[h := s.m.info[h].(b := -1)]), h, r.j, r.k);
    CountThree(s.m.free, h, r.j, r.k);
  }

  lemma FinishChains(s: Sys, h: int)
    requires Chains(s) && h in s.reqs
    ensures 0 <= h < NUM && 0 <= s.reqs[h].b < |s.data| && 0 <= s.reqs[h].j < NUM && 0 <= s.reqs[h].k < NUM
    ensures Chains(FinishStep(s, h))
  {
    ReleaseThree(s, h);
    var s', r := FinishStep(s, h), s.reqs[h];
    assert ChainOk(s, h);
    FinishShape(s, h);
    forall g ensures ChainOk(s', g) { FinishChain(s, h, g); }
    forall i ensures UserOk(s', i) { FinishUser(s, h, i); }
    forall f, g ensures Apart(s', f, g) { assert Apart(s, f, g); }
    hide ChainOk, UserOk, Release;
  }

  lemma FinishShape(s: Sys, h: int)
    requires Chains(s) && h in s.reqs
    ensures 0 <= h < NUM && 0 <= s.reqs[h].b < |s.data| && 0 <= s.reqs[h].j < NUM && 0 <= s.reqs[h].k < NUM
    ensures Shape(FinishStep(s, h))
  {
    ReleaseThree(s, h);
    assert ChainOk(s, h);
    assert (s.reqs - {h}).Keys == s.reqs.Keys - {h};
  }

  lemma FinishChain(s: Sys, h: int, g: int)
    requires Chains(s) && h in s.reqs
    ensures 0 <= h < NUM && 0 <= s.reqs[h].b < |s.data| && 0 <= s.reqs[h].j < NUM && 0 <= s.reqs[h].k < NUM
    ensures Shape(FinishStep(s, h)) && ChainOk(FinishStep(s, h), g)
  {
    ReleaseThree(s, h);
    FinishShape(s, h);
    assert ChainOk(s, h) && ChainOk(s, g) && Apart(s, g, h);
  }

  lemma FinishUser(s: Sys, h: int, i: int)
    requires Chains(s) && h in s.reqs
    ensures 0 <= h < NUM && 0 <= s.reqs[h].b < |s.data| && 0 <= s.reqs[h].j < NUM && 0 <= s.reqs[h].k < NUM
    ensures Shape(FinishStep(s, h)) && UserOk(FinishStep(s, h), i)
  {
    ReleaseThree(s, h);
    FinishShape(s, h);
    assert ChainOk(s, h) && UserOk(s, i);
  }

  lemma FinishKeepsInv(s: Sys, h: int)
    requires Inv(s) && h in s.reqs && s.reqs[h].phase == Done
    ensures 0 <= h < NUM && 0 <= s.reqs[h].b < |s.data| && 0 <= s.reqs[h].j < NUM && 0 <= s.reqs[h].k < NUM
    ensures Inv(FinishStep(s, h))
  {
    ReleaseThree(s, h);
    FinishChains(s, h);
    var s' := FinishStep(s, h);
    assert HistoryOk(s, h);
    forall g ensures QueuedOk(s', g) { assert QueuedOk(s, g); }
    forall g ensures UsedOk(s', g) { assert UsedOk(s, g); }
    forall g ensures HistoryOk(s', g) { assert HistoryOk(s, g); }
    forall f, g ensures IdsApart(s', f, g) { assert IdsApart(s, f, g); }
    forall x ensures ServedOk(s', x) { assert ServedOk(s, x); }
  }

  // ---- runs ----

  /** A call finds its buffer given back exactly when its request is done. */
  lemma AwakeIffDone(s: Sys, h: int)
    requires Inv(s) && Enabled(s, Finish(h))
    ensures s.reqs[h].phase == Done
  {
    assert ChainOk(s, h);
  }

  ghost function Next(s: Sys, e: Event): Sys
    requires Inv(s) && Enabled(s, e)
  {
    match e
    case Edit(b, value) => EditStep(s, b, value)
    case Ask(b, write, block) => AskStep(s, b, write, block)
    case Take => TakeKeepsInv(s); TakeStep(s)
    case Complete(h) => CompleteChains(s, h); CompleteStep(s, h)
    case Interrupt => InterruptKeepsInv(s); InterruptStep(s)
    case Finish(h) => AwakeIffDone(s, h); FinishKeepsInv(s, h); FinishStep(s, h)
  }

  lemma NextKeepsInv(s: Sys, e: Event)
    requires Inv(s) && Enabled(s, e)
    ensures Inv(Next(s, e))
  {
    match e
    case Edit(b, value) => EditKeepsInv(s, b, value);
    case Ask(b, write, block) => AskChains(s, b, write, block); AskRings(s, b, write, block); AskHistory(s, b, write, block);
    case Take => TakeKeepsInv(s);
    case Complete(h) => CompleteChains(s, h); CompleteRings(s, h); CompleteHistory(s, h);
    case Interrupt => InterruptKeepsInv(s);
    case Finish(h) => AwakeIffDone(s, h); FinishKeepsInv(s, h);
  }

  lemma {:induction false} AllFree(n: nat)
    ensures CountFree(seq(n, _ => true)) == n
    decreases n
  {
    if n > 0 {
      AllFree(n - 1);
      assert seq(n, _ => true)[..n - 1] == seq(n - 1, _ => true);
    }
  }

  lemma InitInv(s: Sys)
    requires Init(s)
    ensures Inv(s)
  {
    AllFree(NUM);
    forall h ensures ChainOk(s, h) && QueuedOk(s, h) && UsedOk(s, h) && HistoryOk(s, h) && UserOk(s, h) && ServedOk(s, h) {}
  }

  /** virtio_disk_rw starts exactly when three descriptors are free, for every buffer that is in no
      request and every block whose sector fits 32 bits; and buffers change only as their holders say. */
  lemma StartsExactly(s: Sys, b: int, write: bool, block: int, value: int)
    requires Inv(s)
    ensures Enabled(s, Ask(b, write, block)) <==>
              && 0 <= b < |s.data| && (forall h :: h in s.reqs ==> s.reqs[h].b != b)
              && 0 <= block < |s.disk| && block < 0x8000_0000 && CountFree(s.m.free) >= 3
    ensures 0 <= b < |s.data| && (forall h :: h in s.reqs ==> s.reqs[h].b != b) ==>
              Enabled(s, Edit(b, value)) && Next(s, Edit(b, value)).data == s.data[b := value]
  {
    Alloc3Iff(s.m.free);
    hide Rings, History, CountFree, Alloc3;
  }

  ghost predicate Runs(s: Sys, es: seq<Event>)
    decreases |es|, 0
  {
    && Init(s)
    && (es != [] ==> var n := |es| - 1; Runs(s, es[..n]) && Enabled(Exec(s, es[..n]), es[n]))
  }

  ghost function Exec(s: Sys, es: seq<Event>): (t: Sys)
    requires Runs(s, es)
    ensures Inv(t)
    decreases |es|, 1
  {
    if es == [] then InitInv(s); s
    else
      var n := |es| - 1;
      NextKeepsInv(Exec(s, es[..n]), es[n]);
      Next(Exec(s, es[..n]), es[n])
  }

  // ---- what holds in every run ----

  lemma RingDistance(ring: seq<int>, from: int, to: int, q: seq<int>)
    requires InRing(ring, from, to, q)
    ensures (to - from) % IDX == |q|
  {
    var n := (from + |q|) / IDX;
    assert from + |q| == IDX * n + to;
    assert to - from == |q| - IDX * n;
  }

  lemma ChainsApart(s: Sys, g: int, h: int)
    requires Chains(s) && g in s.reqs && h in s.reqs && g != h
    ensures {g, s.reqs[g].j, s.reqs[g].k} !! {h, s.reqs[h].j, s.reqs[h].k}
  {
    assert ChainOk(s, g) && ChainOk(s, h);
  }

  /** Free descriptors and three for each request make NUM; the descriptors of different
      requests are different; less than a whole ring is ever waiting; and info names a buffer for each request
      and for nothing else. */
  lemma Conservation(s: Sys, es: seq<Event>, g: int, h: int)
    requires Runs(s, es)
    ensures var t := Exec(s, es);
            && CountFree(t.m.free) + 3 * |t.reqs| == NUM
            && (t.m.availIdx - t.devIdx) % IDX == |t.queued| <= 2
            && (t.usedIdx - t.m.seen) % IDX == |t.usedQ| <= 2
            && (g in t.reqs && h in t.reqs && g != h ==>
                  {g, t.reqs[g].j, t.reqs[g].k} !! {h, t.reqs[h].j, t.reqs[h].k})
            && (0 <= g < NUM ==> (g in t.reqs <==> t.m.info[g].b != -1))
  {
    hide Runs, Exec, InRing, Init;
    var t := Exec(s, es);
    assert ChainOk(t, g) && UserOk(t, g);
    FewRequests(t);
    RingDistance(t.m.avail, t.devIdx, t.m.availIdx, t.queued);
    RingDistance(t.used, t.m.seen, t.usedIdx, t.usedQ);
    if g in t.reqs && h in t.reqs && g != h { ChainsApart(t, g, h); }
  }

  ghost function Asks(es: seq<Event>): nat {
    if es == [] then 0 else Asks(es[..|es| - 1]) + if es[|es| - 1].Ask? then 1 else 0
  }

  /** Each call that has been made is outstanding or has returned, and each return adds what its buffer
      holds then. */
  lemma {:induction false} AllAccounted(s: Sys, es: seq<Event>)
    requires Runs(s, es)
    ensures var t := Exec(s, es); |t.returned| + |t.reqs| == t.nextId == Asks(es)
    decreases |es|
  {
    hide Init, Inv, Next, Enabled;
    if es != [] {
      var n := |es| - 1;
      AllAccounted(s, es[..n]);
      OneCall(Exec(s, es[..n]), es[n]);
    } else {
      NoCalls(s);
    }
  }

  lemma NoCalls(s: Sys)
    requires Init(s)
    ensures |s.returned| == |s.reqs| == s.nextId == 0
  {
  }

  lemma OneCall(s: Sys, e: Event)
    requires Inv(s) && Enabled(s, e)
    ensures var t := Next(s, e);
            && t.nextId == s.nextId + (if e.Ask? then 1 else 0)
            && |t.reqs| == |s.reqs| + (if e.Ask? then 1 else if e.Finish? then -1 else 0)
            && (if e.Finish? then
                  && |t.returned| == |s.returned| + 1 && t.returned[..|s.returned|] == s.returned
                  && var r := t.returned[|s.returned|]; r.id == s.reqs[e.h].id && 0 <= r.b < |s.data| && r.value == s.data[r.b]
                else t.returned == s.returned)
  {
    hide Rings, History, CountFree, Alloc3;
    match e
    case Ask(b, _, block) => Fresh(s, b, block);
    case Finish(h) => ReleaseThree(s, h);
    case Take => TakeReady(s);
    case Complete(h) => FollowsRequest(s, h);
    case Interrupt => InterruptReady(s);
    case _ =>
  }

  /** Each call of virtio_disk_rw that has returned was served by exactly one transfer, of its
      own buffer and block in its own direction, and by exactly one wakeup, of its own buffer;
      what a read returned with is what the transfer brought. */
  lemma ServedOnce(s: Sys, es: seq<Event>, x: int)
    requires Runs(s, es) && 0 <= x < |Exec(s, es).returned|
    ensures var t := Exec(s, es); var r := t.returned[x];
            && 0 <= r.eff < |t.effects| && t.effects[r.eff] == Effect(r.id, r.b, r.write, r.block, r.value)
            && (forall i :: 0 <= i < |t.effects| && t.effects[i].id == r.id ==> i == r.eff)
            && 0 <= r.wake < |t.woken| && t.woken[r.wake] == Wake(r.id, r.b)
            && (forall i :: 0 <= i < |t.woken| && t.woken[i].id == r.id ==> i == r.wake)
  {
    assert ServedOk(Exec(s, es), x);
  }

  /** The disk is what the transfers in their order have made of it. */
  ghost function Written(disk: seq<int>, fx: seq<Effect>): (d: seq<int>)
    ensures |d| == |disk|
    decreases |fx|
  {
    if fx == [] then disk
    else
      var n := |fx| - 1;
      var d := Written(disk, fx[..n]);
      if fx[n].write && 0 <= fx[n].block < |disk| then d[fx[n].block := fx[n].value] else d
  }

  /** What the transfers read is what was on the disk then. */
  ghost predicate ReadsTrue(disk: seq<int>, fx: seq<Effect>)
    decreases |fx|
  {
    fx != [] ==>
      var n := |fx| - 1;
      && ReadsTrue(disk, fx[..n])
      && (!fx[n].write ==> 0 <= fx[n].block < |disk| && fx[n].value == Written(disk, fx[..n])[fx[n].block])
  }

  /** A step makes one transfer on the disk, or none. */
  lemma StepTransfers(p: Sys, e: Event)
    requires Inv(p) && Enabled(p, e)
    ensures var q := Next(p, e);
            if e.Complete? then
              exists x: Effect :: q.effects == p.effects + [x] && 0 <= x.block < |p.disk|
                && q.disk == p.disk[x.block := x.value] && (!x.write ==> x.value == p.disk[x.block])
            else q.disk == p.disk && q.effects == p.effects
  {
    hide History, Rings, InRing;
    match e
    case Complete(h) => CompleteTransfers(p, h);
    case _ =>
  }

  lemma CompleteTransfers(p: Sys, h: int)
    requires Inv(p) && Enabled(p, Complete(h))
    ensures var q := Next(p, Complete(h));
            exists x: Effect :: q.effects == p.effects + [x] && 0 <= x.block < |p.disk|
              && q.disk == p.disk[x.block := x.value] && (!x.write ==> x.value == p.disk[x.block])
  {
    hide History, Rings, InRing, Follow;
    CompleteChains(p, h);
    var o := Follow(p.m, h);
    var x := Effect(p.reqs[h].id, o.b, o.write, o.block, if o.write then p.data[o.b] else p.disk[o.block]);
    assert Next(p, Complete(h)).effects == p.effects + [x];
  }

  lemma {:induction false} DiskOfTransfers(s: Sys, es: seq<Event>)
    requires Runs(s, es)
    ensures Exec(s, es).disk == Written(s.disk, Exec(s, es).effects)
    ensures ReadsTrue(s.disk, Exec(s, es).effects)
    decreases |es|
  {
    hide Inv, Next, Enabled;
    if es != [] {
      var n := |es| - 1;
      var p := Exec(s, es[..n]);
      DiskOfTransfers(s, es[..n]);
      StepTransfers(p, es[n]);
      if es[n].Complete? {
        var fx := Exec(s, es).effects;
        assert fx[..|fx| - 1] == p.effects;
      }
    }
  }

  lemma {:induction false} ReadAt(disk: seq<int>, fx: seq<Effect>, i: nat)
    requires ReadsTrue(disk, fx) && i < |fx| && !fx[i].write
    ensures 0 <= fx[i].block < |disk| && fx[i].value == Written(disk, fx[..i])[fx[i].block]
    decreases |fx|
  {
    var n := |fx| - 1;
    if i < n {
      ReadAt(disk, fx[..n], i);
      assert fx[..n][..i] == fx[..i];
    }
  }

  /** The calls are linearizable, although the device completes them in any order. Each call takes
      effect at one moment between its start and its return: a write puts what its buffer held when
      it was called on its block, a read returns what the writes before it left there. */
  lemma Linearizable(s: Sys, es: seq<Event>, x: int)
    requires Runs(s, es) && 0 <= x < |Exec(s, es).returned|
    ensures var t := Exec(s, es);
            var r := t.returned[x];
            && 0 <= r.since <= r.eff < r.until <= |t.effects|
            && t.effects[r.eff] == Effect(r.id, r.b, r.write, r.block, r.value)
            && (r.write ==> r.value == r.put)
            && (!r.write ==> 0 <= r.block < |s.disk| && r.value == Written(s.disk, t.effects[..r.eff])[r.block])
            && t.disk == Written(s.disk, t.effects)
  {
    var t := Exec(s, es);
    assert ServedOk(t, x);
    DiskOfTransfers(s, es);
    hide Inv, Runs, Exec, Written, ReadsTrue;
    if !t.returned[x].write { ReadAt(s.disk, t.effects, t.returned[x].eff); }
  }

  /** q comes after p: the histories have grown, and what has been asked since p was asked then. */
  ghost predicate Later(p: Sys, q: Sys) {
    && p.returned <= q.returned && |p.effects| <= |q.effects| && p.nextId <= q.nextId
    && (forall h :: h in q.reqs && q.reqs[h].id >= p.nextId ==> q.reqs[h].since >= |p.effects|)
    && (forall y :: 0 <= y < |q.returned| && q.returned[y].id >= p.nextId ==> q.returned[y].since >= |p.effects|)
  }

  /** What a step may do to requests and histories. */
  ghost predicate Grows(q: Sys, q': Sys) {
    && q.returned <= q'.returned && |q.effects| <= |q'.effects| && q.nextId <= q'.nextId
    && (forall h :: h in q'.reqs ==>
          || (h in q.reqs && q'.reqs[h].id == q.reqs[h].id && q'.reqs[h].since == q.reqs[h].since)
          || q'.reqs[h].since == |q.effects|)
    && (forall y :: |q.returned| <= y < |q'.returned| ==>
          exists h :: h in q.reqs && q'.returned[y].id == q.reqs[h].id && q'.returned[y].since == q.reqs[h].since)
  }

  lemma AskGrows(q: Sys, b: int, write: bool, block: int)
    requires Chains(q) && CanAsk(q, b, block)
    ensures Grows(q, AskStep(q, b, write, block))
  {
    Alloc3Iff(q.m.free);
    hide Chains, CanAsk, Submit, Alloc3;
  }

  lemma CompleteGrows(q: Sys, h: int)
    requires Shape(q) && h in q.reqs && 0 <= h < NUM && Follow(q.m, h).Order?
    requires var o := Follow(q.m, h); 0 <= o.b < |q.data| && 0 <= o.block < |q.disk| && 0 <= o.status < NUM
    ensures Grows(q, CompleteStep(q, h))
  {
    hide Follow;
  }

  lemma FinishGrows(q: Sys, h: int)
    requires Chains(q) && h in q.reqs
    requires 0 <= h < NUM && 0 <= q.reqs[h].b < |q.data| && 0 <= q.reqs[h].j < NUM && 0 <= q.reqs[h].k < NUM
    ensures Grows(q, FinishStep(q, h))
  {
    NextInRange(q);
    hide Chains, Release;
  }

  lemma StepGrows(q: Sys, e: Event)
    requires Inv(q) && Enabled(q, e)
    ensures Grows(q, Next(q, e))
  {
    match e
    case Edit(_, _) =>
    case Ask(b, write, block) => AskGrows(q, b, write, block);
    case Take => TakeReady(q);
    case Complete(h) => CompleteChains(q, h); CompleteGrows(q, h);
    case Interrupt => InterruptReady(q);
    case Finish(h) => AwakeIffDone(q, h); FinishKeepsInv(q, h); FinishGrows(q, h);
  }

  lemma LaterStill(p: Sys, q: Sys, e: Event)
    requires Inv(q) && Enabled(q, e) && Later(p, q)
    ensures Later(p, Next(q, e))
  {
    StepGrows(q, e);
    var q' := Next(q, e);
    hide Inv, Enabled, Next;
    forall y | 0 <= y < |q'.returned| && q'.returned[y].id >= p.nextId ensures q'.returned[y].since >= |p.effects| {
      if y < |q.returned| { assert q'.returned[y] == q.returned[y]; }
    }
  }

  lemma NowIsLater(p: Sys)
    requires Inv(p)
    ensures Later(p, p)
  {
    forall h | h in p.reqs ensures p.reqs[h].id < p.nextId { assert HistoryOk(p, h); }
    forall y | 0 <= y < |p.returned| ensures p.returned[y].id < p.nextId { assert ServedOk(p, y); }
  }

  lemma {:induction false} RunsOn(s: Sys, es: seq<Event>, m: nat)
    requires Runs(s, es) && m <= |es|
    ensures Runs(s, es[..m]) && Later(Exec(s, es[..m]), Exec(s, es))
    decreases |es|
  {
    hide Init, Inv, Next, Enabled, Later;
    if m == |es| {
      assert es[..m] == es;
      NowIsLater(Exec(s, es));
    } else {
      var n := |es| - 1;
      RunsOn(s, es[..n], m);
      assert es[..n][..m] == es[..m];
      LaterStill(Exec(s, es[..m]), Exec(s, es[..n]), es[n]);
    }
  }

  /** Calls take effect in their order: one that had returned when another was made comes first. */
  lemma RespectsOrder(s: Sys, es: seq<Event>, m: nat, x: int, y: int)
    requires Runs(s, es) && m <= |es| && Runs(s, es[..m])
    requires 0 <= x < |Exec(s, es[..m]).returned| && 0 <= y < |Exec(s, es).returned|
    requires Exec(s, es).returned[y].id >= Exec(s, es[..m]).nextId
    ensures x < |Exec(s, es).returned| && Exec(s, es).returned[x].eff < Exec(s, es).returned[y].eff
  {
    RunsOn(s, es, m);
    var p, q := Exec(s, es[..m]), Exec(s, es);
    assert ServedOk(p, x) && ServedOk(q, y);
    hide Inv, Runs, Exec;
  }

  /** While a request is outstanding, the device or the driver can move. */
  lemma NeverStuck(s: Sys, h: int)
    requires Inv(s) && h in s.reqs
    ensures Enabled(s, Take) || Enabled(s, Complete(h)) || Enabled(s, Interrupt) || Enabled(s, Finish(h))
  {
    assert ChainOk(s, h) && QueuedOk(s, h) && UsedOk(s, h);
    RingHead(s.m.avail, s.devIdx, s.m.availIdx, s.queued);
    RingHead(s.used, s.m.seen, s.usedIdx, s.usedQ);
  }

  /** A caller that finds no three descriptors waits for a request that is outstanding. */
  lemma WaitsForSomeone(s: Sys)
    requires Inv(s) && Alloc3(s.m.free).NoThree?
    ensures s.reqs != map[]
  {
    Alloc3Iff(s.m.free);
  }

  /** virtio_disk_intr as a whole: it does not panic, and it comes to one Interrupt step for
      each entry of the used ring, until none is left. */
  lemma {:induction false} InterruptServesAll(s: Sys) returns (t: Sys)
    requires Inv(s)
    ensures Inv(t) && t.usedQ == [] && Freed(t.m, true) == RetireAll(s.m, s.used, s.usedIdx)
    ensures |t.woken| == |s.woken| + |s.usedQ| && s.woken <= t.woken
    ensures forall i :: 0 <= i < |s.usedQ| ==>
              s.usedQ[i] in s.reqs && t.woken[|s.woken| + i] == Wake(s.reqs[s.usedQ[i]].id, s.reqs[s.usedQ[i]].b)
    decreases |s.usedQ|
  {
    RingHead(s.used, s.m.seen, s.usedIdx, s.usedQ);
    if s.m.seen == s.usedIdx {
      t := s;
    } else {
      InterruptReady(s);
      InterruptKeepsInv(s);
      var s', x := InterruptStep(s), s.usedQ[0];
      t := InterruptServesAll(s');
      hide Inv, RetireAll;
      assert s'.woken == s.woken + [Wake(s.reqs[x].id, s.reqs[x].b)];
      forall i | 0 <= i < |s.usedQ|
        ensures s.usedQ[i] in s.reqs && t.woken[|s.woken| + i] == Wake(s.reqs[s.usedQ[i]].id, s.reqs[s.usedQ[i]].b)
      {
        if i > 0 { assert s'.usedQ[i - 1] == s.usedQ[i]; }
      }
    }
  }
}
