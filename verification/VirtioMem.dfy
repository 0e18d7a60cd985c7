/** The memory that the driver of Lab3/xv6-riscv/kernel/virtio_disk.c shares with the
    device, and what each piece of driver code does to it. */
module VirtioMem {

  const NUM := 8
  const IDX := 0x1_0000        // ring indices are uint16

  /** What a descriptor points at: disk.ops[i], b->data, or disk.info[i].status. */
  datatype Addr = Null | OpsOf(i: int) | DataOf(b: int) | StatusOf(i: int)

  datatype Desc = Desc(addr: Addr, len: int, next: bool, write: bool, nxt: int)

  datatype Op = Op(write: bool, sector: int)

  /** info[i]; b is -1 for no buffer. */
  datatype Info = Info(b: int, status: int)

  /** `owned[b]` is b->disk. */
  datatype Mem = Mem(free: seq<bool>, desc: seq<Desc>, ops: seq<Op>, info: seq<Info>,
                     avail: seq<int>, availIdx: int, seen: int, owned: seq<bool>)

  const CLEARED := Desc(Null, 0, false, false, 0)

  predicate Sized(m: Mem) {
    && |m.free| == |m.desc| == |m.ops| == |m.info| == |m.avail| == NUM
    && 0 <= m.availIdx < IDX && 0 <= m.seen < IDX
  }

  // ---- free descriptors ----

  function CountFree(free: seq<bool>): nat
    decreases |free|
  {
    if free == [] then 0 else CountFree(free[..|free| - 1]) + if free[|free| - 1] then 1 else 0
  }

  lemma {:induction false} CountUpdate(free: seq<bool>, i: nat, x: bool)
    requires i < |free|
    ensures CountFree(free[i := x]) == CountFree(free) + (if x then 1 else 0) - (if free[i] then 1 else 0)
    decreases |free|
  {
    var n := |free| - 1;
    if i < n {
      CountUpdate(free[..n], i, x);
      assert free[i := x][..n] == free[..n][i := x];
    } else {
      assert free[i := x][..n] == free[..n];
    }
  }

  lemma {:induction false} CountNone(free: seq<bool>)
    requires forall i :: 0 <= i < |free| ==> !free[i]
    ensures CountFree(free) == 0
    decreases |free|
  {
    if free != [] { CountNone(free[..|free| - 1]); }
  }

  /** alloc_desc: the first free descriptor, or -1. */
  function FirstFree(free: seq<bool>, i: nat): (r: int)
    requires i <= |free|
    ensures r == -1 || (i <= r < |free| && free[r] && forall k :: i <= k < r ==> !free[k])
    ensures r == -1 ==> forall k :: i <= k < |free| ==> !free[k]
    decreases |free| - i
  {
    if i == |free| then -1 else if free[i] then i else FirstFree(free, i + 1)
  }

  /** alloc_desc finds a descriptor whenever there is one. */
  lemma FirstFreeIff(free: seq<bool>)
    ensures FirstFree(free, 0) >= 0 <==> CountFree(free) >= 1
  {
    var r := FirstFree(free, 0);
    if r >= 0 {
      CountUpdate(free, r, false);
    } else {
      CountNone(free);
    }
  }

  datatype Three = Three(i: int, j: int, k: int) | NoThree

  /** alloc3_desc. */
  function Alloc3(free: seq<bool>): Three {
    var i := FirstFree(free, 0);
    if i < 0 then NoThree
    else
      var j := FirstFree(free[i := false], 0);
      if j < 0 then NoThree
      else
        var k := FirstFree(free[i := false][j := false], 0);
        if k < 0 then NoThree else Three(i, j, k)
  }

  function Without(free: seq<bool>, t: Three): seq<bool>
    requires t.Three? ==> 0 <= t.i < |free| && 0 <= t.j < |free| && 0 <= t.k < |free|
  {
    if t.NoThree? then free else free[t.i := false][t.j := false][t.k := false]
  }

  /** It succeeds exactly when three descriptors are free, and gives three different ones. */
  lemma Alloc3Iff(free: seq<bool>)
    ensures Alloc3(free).Three? <==> CountFree(free) >= 3
    ensures var t := Alloc3(free);
            t.Three? ==>
              && 0 <= t.i < |free| && 0 <= t.j < |free| && 0 <= t.k < |free|
              && free[t.i] && free[t.j] && free[t.k] && t.i != t.j && t.i != t.k && t.j != t.k
              && CountFree(Without(free, t)) == CountFree(free) - 3
  {
    var i := FirstFree(free, 0);
    FirstFreeIff(free);
    if i >= 0 {
      CountUpdate(free, i, false);
      var free1 := free[i := false];
      var j := FirstFree(free1, 0);
      FirstFreeIff(free1);
      if j >= 0 {
        CountUpdate(free1, j, false);
        var free2 := free1[j := false];
        var k := FirstFree(free2, 0);
        FirstFreeIff(free2);
        if k >= 0 { CountUpdate(free2, k, false); }
      }
    }
  }

  // ---- the pieces of driver code ----

  /** b->blockno * (BSIZE / 512), in 32 bits. */
  function Sector(block: int): int { block * 2 % 0x1_0000_0000 }

  const MAXBLOCK := 0x8000_0000

  /** The sector stands for the block exactly when the product does not overflow. */
  lemma SectorIff(block: int)
    requires 0 <= block < 0x1_0000_0000
    ensures Sector(block) / 2 == block <==> block < MAXBLOCK
  {
  }

  /** virtio_disk_rw up to its wait, given its three descriptors. */
  function Submit(m: Mem, t: Three, b: int, write: bool, block: int): Mem
    requires Sized(m) && t.Three? && 0 <= t.i < NUM && 0 <= t.j < NUM && 0 <= t.k < NUM && 0 <= b < |m.owned|
  {
    m.(free := Without(m.free, t),
       ops := m.ops[t.i := Op(write, Sector(block))],
       desc := m.desc[t.i := Desc(OpsOf(t.i), 16, true, false, t.j)]
                     [t.j := Desc(DataOf(b), 1024, true, !write, t.k)]
                     [t.k := Desc(StatusOf(t.i), 1, false, true, 0)],
       info := m.info[t.i := Info(b, 0xff)],
       owned := m.owned[b := true],
       avail := m.avail[m.availIdx % NUM := t.i],
       availIdx := (m.availIdx + 1) % IDX)
  }

  function FreeDesc(m: Mem, i: int): Mem
    requires Sized(m) && 0 <= i < NUM
  {
    m.(desc := m.desc[i := CLEARED], free := m.free[i := true])
  }

  datatype Freed = Freed(m: Mem, ok: bool)

  /** free_chain; !ok is a panic of free_desc. */
  function FreeChain(m: Mem, i: int): (r: Freed)
    requires Sized(m) && (forall k :: 0 <= k < NUM ==> 0 <= m.desc[k].nxt < NUM) && 0 <= i < NUM
    ensures Sized(r.m) && (r.ok ==> !m.free[i])
    decreases NUM - CountFree(m.free)
  {
    if m.free[i] then Freed(m, false)
    else
      CountUpdate(m.free, i, true);
      CountAtMost(m.free[i := true]);
      var m' := FreeDesc(m, i);
      if m.desc[i].next then FreeChain(m', m.desc[i].nxt) else Freed(m', true)
  }

  lemma {:induction false} CountAtMost(free: seq<bool>)
    ensures CountFree(free) <= |free|
    decreases |free|
  {
    if free != [] { CountAtMost(free[..|free| - 1]); }
  }

  /** virtio_disk_rw after its wait. */
  function Release(m: Mem, h: int): Freed
    requires Sized(m) && (forall k :: 0 <= k < NUM ==> 0 <= m.desc[k].nxt < NUM) && 0 <= h < NUM
  {
    FreeChain(m.(info := m.info[h := m.info[h].(b := -1)]), h)
  }

  /** One round of virtio_disk_intr for the used entry `id`, whose status is 0. */
  function Retire(m: Mem, id: int): Mem
    requires Sized(m) && 0 <= id < NUM && 0 <= m.info[id].b < |m.owned|
  {
    m.(owned := m.owned[m.info[id].b := false], seen := (m.seen + 1) % IDX)
  }

  /** A chain of three is given back whole. */
  lemma FreeThree(m: Mem, i: int, j: int, k: int)
    requires Sized(m) && (forall x :: 0 <= x < NUM ==> 0 <= m.desc[x].nxt < NUM)
    requires 0 <= i < NUM && 0 <= j < NUM && 0 <= k < NUM && i != j && i != k && j != k
    requires !m.free[i] && !m.free[j] && !m.free[k]
    requires m.desc[i].next && m.desc[i].nxt == j && m.desc[j].next && m.desc[j].nxt == k && !m.desc[k].next
    ensures FreeChain(m, i) == Freed(FreeDesc(FreeDesc(FreeDesc(m, i), j), k), true)
  {
    var m1 := FreeDesc(m, i);
    var m2 := FreeDesc(m1, j);
    hide CountFree;
    assert FreeChain(m2, k) == Freed(FreeDesc(m2, k), true);
    assert FreeChain(m1, j) == FreeChain(m2, k);
  }

  lemma CountThree(free: seq<bool>, i: int, j: int, k: int)
    requires 0 <= i < |free| && 0 <= j < |free| && 0 <= k < |free| && i != j && i != k && j != k
    requires !free[i] && !free[j] && !free[k]
    ensures CountFree(free[i := true][j := true][k := true]) == CountFree(free) + 3
  {
    hide CountFree;
    CountUpdate(free, i, true);
    CountUpdate(free[i := true], j, true);
    CountUpdate(free[i := true][j := true], k, true);
  }

  /** A descriptor taken by mistake and given back leaves no trace. */
  lemma GiveBack(m: Mem, i: int)
    requires Sized(m) && 0 <= i < NUM && m.free[i] && m.desc[i] == CLEARED
    ensures FreeDesc(m.(free := m.free[i := false]), i) == m
  {
    assert m.desc[i := CLEARED] == m.desc && m.free[i := false][i := true] == m.free;
  }

  lemma GiveBackTwo(m: Mem, i: int, j: int)
    requires Sized(m) && 0 <= i < NUM && m.free[i] && m.desc[i] == CLEARED
    requires 0 <= j < NUM && m.free[j] && m.desc[j] == CLEARED && i != j
    ensures FreeDesc(FreeDesc(m.(free := m.free[i := false][j := false]), i), j) == m
  {
    assert m.desc[i := CLEARED][j := CLEARED] == m.desc;
    assert m.free[i := false][j := false][i := true][j := true] == m.free;
  }

  /** virtio_disk_intr, for a used ring that has grown to usedIdx; !ok is its panic. */
  function RetireAll(m: Mem, used: seq<int>, usedIdx: int): (r: Freed)
    requires Sized(m) && |used| == NUM && 0 <= usedIdx < IDX
    requires forall k :: 0 <= k < NUM ==> 0 <= used[k] < NUM
    ensures Sized(r.m)
    ensures r.ok && m.seen != usedIdx ==> m.info[used[m.seen % NUM]].status == 0
    decreases (usedIdx - m.seen) % IDX
  {
    if m.seen == usedIdx then Freed(m, true)
    else
      var id := used[m.seen % NUM];
      if m.info[id].status != 0 || !(0 <= m.info[id].b < |m.owned|) then Freed(m, false)
      else Closer(m.seen, usedIdx); RetireAll(Retire(m, id), used, usedIdx)
  }

  lemma Closer(seen: int, usedIdx: int)
    requires 0 <= seen < IDX && 0 <= usedIdx < IDX && seen != usedIdx
    ensures (usedIdx - (seen + 1) % IDX) % IDX < (usedIdx - seen) % IDX
  {
  }
}
