/** Whole runs of Lab3/xv6-riscv/kernel/virtio_disk.c with a device that takes requests in
    order and finishes them in any order. The device knows nothing but what is in memory:
    it reads the avail ring and follows the descriptor chains. */
module VirtioRing {
  import opened VirtioMem
  import opened Sequences

  datatype Phase = Queued | Busy | Used | Done

  /** A call of virtio_disk_rw between its two halves, under the head of its chain. `put` is what
      its buffer held when it was called, and `since` how many transfers there had been. `eff` and
      `wake` are the places of its transfer and of its wakeup in the histories, once there. */
  datatype Req = Req(id: int, b: int, write: bool, block: int, j: int, k: int, phase: Phase,
                     put: int, since: int, eff: int, wake: int)

  /** What a transfer did: `value` went from the buffer to the block, or the other way. */
  datatype Effect = Effect(id: int, b: int, write: bool, block: int, value: int)

  datatype Wake = Wake(id: int, b: int)

  /** A call that has returned, with what its buffer held then and how many transfers there had
      been by then. */
  datatype Ret = Ret(id: int, b: int, write: bool, block: int, put: int, since: int,
                     value: int, until: int, eff: int, wake: int)

  /** used, usedIdx and devIdx belong to the device, and `data` and `disk` are the contents of
      buffers and blocks. The rest is what has been asked for and what has happened. */
  datatype Sys = Sys(m: Mem, used: seq<int>, usedIdx: int, devIdx: int, data: seq<int>, disk: seq<int>,
                     reqs: map<int, Req>, user: seq<int>, queued: seq<int>, usedQ: seq<int>,
                     effects: seq<Effect>, woken: seq<Wake>, returned: seq<Ret>, nextId: int)

  datatype Event =
    | Edit(b: int, value: int)      // the holder of a buffer changes its contents
    | Ask(b: int, write: bool, block: int)
    | Take
    | Complete(h: int)
    | Interrupt
    | Finish(h: int)

  ghost predicate Init(s: Sys) {
    && Sized(s.m) && s.m.free == seq(NUM, _ => true) && s.m.desc == seq(NUM, _ => CLEARED) && s.m.info == seq(NUM, _ => Info(-1, 0))
    && s.m.availIdx == s.m.seen == s.usedIdx == s.devIdx == 0 && s.used == seq(NUM, _ => 0)
    && |s.m.owned| == |s.data| && (forall b :: 0 <= b < |s.m.owned| ==> !s.m.owned[b])
    && s.reqs == map[] && s.user == seq(NUM, _ => -1) && s.queued == [] && s.usedQ == []
    && s.effects == [] && s.woken == [] && s.returned == [] && s.nextId == 0
  }

  // ---- the invariant ----

  /** The chain of request h is in place: the device will find in it what was asked. */
  ghost predicate ChainOk(s: Sys, h: int)
    requires Shape(s)
  {
    h in s.reqs ==>
      var r := s.reqs[h];
      && 0 <= h < NUM && 0 <= r.j < NUM && 0 <= r.k < NUM && h != r.j && h != r.k && r.j != r.k
      && s.user[h] == s.user[r.j] == s.user[r.k] == h
      && s.m.desc[h] == Desc(OpsOf(h), 16, true, false, r.j)
      && s.m.desc[r.j] == Desc(DataOf(r.b), 1024, true, !r.write, r.k)
      && s.m.desc[r.k] == Desc(StatusOf(h), 1, false, true, 0)
      && s.m.ops[h] == Op(r.write, 2 * r.block) && 0 <= r.block < |s.disk| && r.block < MAXBLOCK
      && 0 <= r.b < |s.m.owned| && s.m.info[h].b == r.b && (s.m.owned[r.b] <==> r.phase != Done)
      && s.m.info[h].status == if r.phase.Queued? || r.phase.Busy? then 0xff else 0
  }

  /** A descriptor is free or belongs to one request, and info names a buffer for heads only. */
  ghost predicate UserOk(s: Sys, i: int)
    requires Shape(s)
  {
    0 <= i < NUM ==>
      && (s.m.free[i] <==> s.user[i] == -1) && (s.m.free[i] ==> s.m.desc[i] == CLEARED) && 0 <= s.m.desc[i].nxt < NUM
      && (s.user[i] != -1 ==>
            s.user[i] in s.reqs && (i == s.user[i] || i == s.reqs[s.user[i]].j || i == s.reqs[s.user[i]].k))
      && (s.user[i] != i ==> s.m.info[i].b == -1)
  }

  /** No buffer is in two requests. */
  ghost predicate Apart(s: Sys, g: int, h: int) {
    g in s.reqs && h in s.reqs && g != h ==> s.reqs[g].b != s.reqs[h].b
  }

  ghost predicate Shape(s: Sys) {
    && Sized(s.m) && |s.used| == NUM && 0 <= s.usedIdx < IDX && 0 <= s.devIdx < IDX && |s.user| == NUM
    && |s.m.owned| == |s.data| && (forall k :: 0 <= k < NUM ==> 0 <= s.used[k] < NUM)
    && CountFree(s.m.free) + 3 * |s.reqs| == NUM
  }

  ghost predicate Chains(s: Sys) {
    && Shape(s) && (forall h :: ChainOk(s, h)) && (forall i :: UserOk(s, i)) && (forall g, h :: Apart(s, g, h))
  }

  /** q is what lies in a ring between two 16-bit indices. */
  ghost predicate InRing(ring: seq<int>, from: int, to: int, q: seq<int>) {
    && |ring| == NUM && 0 <= from < IDX && |q| < NUM && to == (from + |q|) % IDX
    && forall k :: 0 <= k < |q| ==> ring[(from + k) % IDX % NUM] == q[k]
  }

  /** The entries that the device has not taken and the driver has not seen are those of
      the requests in that state, each once. */
  ghost predicate Rings(s: Sys) {
    && InRing(s.m.avail, s.devIdx, s.m.availIdx, s.queued) && Distinct(s.queued)
    && InRing(s.used, s.m.seen, s.usedIdx, s.usedQ) && Distinct(s.usedQ)
    && (forall h :: QueuedOk(s, h)) && (forall h :: UsedOk(s, h))
  }

  ghost predicate QueuedOk(s: Sys, h: int) { h in s.queued <==> h in s.reqs && s.reqs[h].phase == Queued }

  ghost predicate UsedOk(s: Sys, h: int) { h in s.usedQ <==> h in s.reqs && s.reqs[h].phase == Used }

  /** The histories name each call at most once. */
  ghost predicate Once(s: Sys) {
    && (forall i, j :: 0 <= i < j < |s.effects| ==> s.effects[i].id != s.effects[j].id)
    && (forall i, j :: 0 <= i < j < |s.woken| ==> s.woken[i].id != s.woken[j].id)
    && (forall i :: 0 <= i < |s.effects| ==> s.effects[i].id < s.nextId)
    && (forall i :: 0 <= i < |s.woken| ==> s.woken[i].id < s.nextId)
  }

  /** The histories say of request h what its phase says. */
  ghost predicate HistoryOk(s: Sys, h: int) {
    h in s.reqs ==>
      var r := s.reqs[h];
      && r.id < s.nextId && 0 <= r.b < |s.data| && 0 <= r.since <= |s.effects| && (r.write ==> s.data[r.b] == r.put)
      && (r.phase.Queued? || r.phase.Busy? ==> forall i :: 0 <= i < |s.effects| ==> s.effects[i].id != r.id)
      && (r.phase.Used? || r.phase.Done? ==>
            r.since <= r.eff < |s.effects| && s.effects[r.eff] == Effect(r.id, r.b, r.write, r.block, s.data[r.b]))
      && (r.phase.Done? ==> 0 <= r.wake < |s.woken| && s.woken[r.wake] == Wake(r.id, r.b))
      && (!r.phase.Done? ==> forall i :: 0 <= i < |s.woken| ==> s.woken[i].id != r.id)
  }

  /** A call that returned was served by one transfer and one wakeup of its own, while it lasted. */
  ghost predicate ServedOk(s: Sys, x: int) {
    0 <= x < |s.returned| ==>
      var r := s.returned[x];
      && 0 <= r.since <= r.eff < r.until <= |s.effects| && (r.write ==> r.value == r.put)
      && s.effects[r.eff] == Effect(r.id, r.b, r.write, r.block, r.value) && r.id < s.nextId
      && 0 <= r.wake < |s.woken| && s.woken[r.wake] == Wake(r.id, r.b)
  }

  ghost predicate IdsApart(s: Sys, g: int, h: int) {
    g in s.reqs && h in s.reqs && g != h ==> s.reqs[g].id != s.reqs[h].id
  }

  ghost predicate History(s: Sys) {
    Once(s) && (forall g, h :: IdsApart(s, g, h)) && (forall h :: HistoryOk(s, h)) && (forall x :: ServedOk(s, x))
  }

  ghost predicate Inv(s: Sys) { Chains(s) && Rings(s) && History(s) }

  // ---- the steps ----

  /** The three descriptors that alloc3_desc would give. */
  ghost predicate CanAsk(s: Sys, b: int, block: int) {
    Idle(s, b) && 0 <= block < |s.disk| && block < MAXBLOCK && Alloc3(s.m.free).Three?
  }

  /** Buffer b is in no request. */
  ghost predicate Idle(s: Sys, b: int) {
    0 <= b < |s.m.owned| && forall h :: h in s.reqs ==> s.reqs[h].b != b
  }

  /** A caller holds its buffer's lock, so that no buffer is asked for twice at a time, or edited
      while it is asked for. */
  ghost predicate Enabled(s: Sys, e: Event)
    requires Inv(s)
  {
    match e
    case Edit(b, _) => Idle(s, b)
    case Ask(b, _, block) => CanAsk(s, b, block)
    case Take => s.devIdx != s.m.availIdx
    case Complete(h) => h in s.reqs && s.reqs[h].phase == Busy
    case Interrupt => s.m.seen != s.usedIdx
    case Finish(h) => h in s.reqs && 0 <= s.reqs[h].b < |s.m.owned| && !s.m.owned[s.reqs[h].b]
  }

  ghost function EditStep(s: Sys, b: int, value: int): Sys
    requires Shape(s) && Idle(s, b)
  {
    s.(data := s.data[b := value])
  }

  ghost function AskStep(s: Sys, b: int, write: bool, block: int): Sys
    requires Chains(s) && CanAsk(s, b, block)
  {
    Alloc3Iff(s.m.free);
    var t := Alloc3(s.m.free);
    s.(m := Submit(s.m, t, b, write, block),
       reqs := s.reqs[t.i := Req(s.nextId, b, write, block, t.j, t.k, Queued, s.data[b], |s.effects|, -1, -1)],
       user := s.user[t.i := t.i][t.j := t.i][t.k := t.i],
       queued := s.queued + [t.i], nextId := s.nextId + 1)
  }

  /** The device reads an entry of the avail ring. */
  ghost function TakeStep(s: Sys): Sys
    requires Shape(s) && s.queued != [] && s.m.avail[s.devIdx % NUM] in s.reqs
  {
    var h := s.m.avail[s.devIdx % NUM];
    s.(devIdx := (s.devIdx + 1) % IDX, queued := s.queued[1..], reqs := s.reqs[h := s.reqs[h].(phase := Busy)])
  }

  /** What the device makes of the chain at h: it looks at nothing but the memory. The header is 16
      bytes that it may only read; the data, here a block of two sectors, it may write exactly if it is
      to read the disk; and the status is a byte that it may write. */
  datatype Order = Order(write: bool, block: int, b: int, status: int) | Garbage

  function Follow(m: Mem, h: int): Order
    requires Sized(m) && 0 <= h < NUM
  {
    var d0 := m.desc[h];
    if !d0.addr.OpsOf? || d0.len != 16 || d0.write || !d0.next || !(0 <= d0.nxt < NUM) || !(0 <= d0.addr.i < NUM) then Garbage
    else
      var d1 := m.desc[d0.nxt];
      if !d1.addr.DataOf? || d1.len != 1024 || !d1.next || !(0 <= d1.nxt < NUM) then Garbage
      else
        var d2 := m.desc[d1.nxt];
        if !d2.addr.StatusOf? || d2.len != 1 || !d2.write || d2.next then Garbage
        else if m.ops[d0.addr.i].write == d1.write || m.ops[d0.addr.i].sector % 2 != 0 then Garbage
        else Order(m.ops[d0.addr.i].write, m.ops[d0.addr.i].sector / 2, d1.addr.b, d2.addr.i)
  }

  /** The device finds in the chain of a request what was asked of virtio_disk_rw. */
  lemma FollowsRequest(s: Sys, h: int)
    requires Chains(s) && h in s.reqs
    ensures 0 <= h < NUM && Follow(s.m, h) == Order(s.reqs[h].write, s.reqs[h].block, s.reqs[h].b, h)
    ensures 0 <= s.reqs[h].b < |s.data| && 0 <= s.reqs[h].block < |s.disk|
  {
    assert ChainOk(s, h);
  }

  /** The device carries the order out, reports success and appends to the used ring. */
  ghost function CompleteStep(s: Sys, h: int): Sys
    requires Shape(s) && h in s.reqs && 0 <= h < NUM && Follow(s.m, h).Order?
    requires var o := Follow(s.m, h); 0 <= o.b < |s.data| && 0 <= o.block < |s.disk| && 0 <= o.status < NUM
  {
    var o := Follow(s.m, h);
    var value := if o.write then s.data[o.b] else s.disk[o.block];
    s.(data := s.data[o.b := value], disk := s.disk[o.block := value],
       m := s.m.(info := s.m.info[o.status := s.m.info[o.status].(status := 0)]),
       used := s.used[s.usedIdx % NUM := h], usedIdx := (s.usedIdx + 1) % IDX, usedQ := s.usedQ + [h],
       effects := s.effects + [Effect(s.reqs[h].id, o.b, o.write, o.block, value)],
       reqs := s.reqs[h := s.reqs[h].(phase := Used, eff := |s.effects|)])
  }

  /** One round of virtio_disk_intr. */
  ghost function InterruptStep(s: Sys): Sys
    requires Shape(s) && s.usedQ != [] && s.used[s.m.seen % NUM] in s.reqs
    requires var id := s.used[s.m.seen % NUM]; 0 <= id < NUM && 0 <= s.m.info[id].b < |s.m.owned|
  {
    var id := s.used[s.m.seen % NUM];
    s.(m := Retire(s.m, id), usedQ := s.usedQ[1..],
       woken := s.woken + [Wake(s.reqs[id].id, s.m.info[id].b)],
       reqs := s.reqs[id := s.reqs[id].(phase := Done, wake := |s.woken|)])
  }

  lemma NextInRange(s: Sys)
    requires Chains(s)
    ensures forall k :: 0 <= k < NUM ==> 0 <= s.m.desc[k].nxt < NUM
  {
    forall k | 0 <= k < NUM ensures 0 <= s.m.desc[k].nxt < NUM { assert UserOk(s, k); }
  }

  /** The call wakes up and returns. */
  ghost function FinishStep(s: Sys, h: int): Sys
    requires Chains(s) && h in s.reqs
    requires 0 <= h < NUM && 0 <= s.reqs[h].b < |s.data| && 0 <= s.reqs[h].j < NUM && 0 <= s.reqs[h].k < NUM
  {
    var r := s.reqs[h];
    NextInRange(s);
    s.(m := Release(s.m, h).m, reqs := s.reqs - {h},
       user := s.user[h := -1][r.j := -1][r.k := -1],
       returned := s.returned + [Ret(r.id, r.b, r.write, r.block, r.put, r.since, s.data[r.b], |s.effects|, r.eff, r.wake)])
  }
}
