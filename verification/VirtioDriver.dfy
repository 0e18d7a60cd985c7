/** The driver code of Lab3/xv6-riscv/kernel/virtio_disk.c:155-327 on its own arrays. */
module VirtioDriver {
  import opened VirtioMem

  class Driver {
    var free: array<bool>
    var desc: array<Desc>
    var ops: array<Op>
    var info: array<Info>
    var avail: array<int>
    var availIdx: int
    var seen: int             // used_idx
    var owned: array<bool>    // b->disk
    var wakeups: nat          // calls of wakeup(&disk.free[0]) so far

    ghost predicate Valid()
      reads this, free, desc, ops, info, avail, owned
    {
      free != owned && Sized(M())
    }

    ghost function M(): Mem
      reads this, free, desc, ops, info, avail, owned
    {
      Mem(free[..], desc[..], ops[..], info[..], avail[..], availIdx, seen, owned[..])
    }

    /** Unused descriptors are zero. */
    ghost predicate Clean()
      requires Valid()
      reads this, free, desc, ops, info, avail, owned
    {
      forall k :: 0 <= k < NUM && free[k] ==> desc[k] == CLEARED
    }

    method AllocDesc() returns (i: int)
      requires Valid()
      modifies free
      ensures i == FirstFree(old(free[..]), 0)
      ensures free[..] == if i < 0 then old(free[..]) else old(free[..])[i := false]
    {
      i := 0;
      while i < NUM
        invariant 0 <= i <= NUM && FirstFree(free[..], i) == FirstFree(free[..], 0)
        invariant free[..] == old(free[..])
      {
        if free[i] {
          free[i] := false;
          return i;
        }
        i := i + 1;
      }
      return -1;
    }

    /** false is "free_desc 1" or "free_desc 2". */
    method FreeDescriptor(i: nat) returns (ok: bool)
      requires Valid()
      modifies this`wakeups, free, desc
      ensures ok <==> i < NUM && !old(free[..])[i]
      ensures M() == if ok then FreeDesc(old(M()), i) else old(M())
      ensures wakeups == old(wakeups) + if ok then 1 else 0
    {
      if i >= NUM { return false; }
      if free[i] { return false; }
      desc[i] := CLEARED;
      free[i] := true;
      wakeups := wakeups + 1;
      return true;
    }

    /** free_chain: every descriptor that becomes free wakes those that wait for one. */
    method FreeChainOf(h: int) returns (ok: bool)
      requires Valid() && 0 <= h < NUM && forall k :: 0 <= k < NUM ==> 0 <= desc[k].nxt < NUM
      modifies this`wakeups, free, desc
      ensures Valid() && Freed(M(), ok) == FreeChain(old(M()), h)
      ensures wakeups - old(wakeups) == CountFree(free[..]) - CountFree(old(free[..]))
    {
      var i := h;
      ghost var goal := FreeChain(M(), h);
      while true
        invariant Valid() && 0 <= i < NUM && forall k :: 0 <= k < NUM ==> 0 <= desc[k].nxt < NUM
        invariant goal == FreeChain(M(), i)
        invariant wakeups - old(wakeups) == CountFree(free[..]) - CountFree(old(free[..]))
        decreases NUM - CountFree(free[..])
      {
        var next, nxt := desc[i].next, desc[i].nxt;
        CountAtMost(free[..]);
        CountUpdate(free[..], i, true);
        CountAtMost(free[..][i := true]);
        ok := FreeDescriptor(i);
        if !ok { return; }
        if next {
          i := nxt;
        } else {
          return;
        }
      }
    }

    /** alloc3_desc: three descriptors, or none and everything as it was, but for a wakeup for each
        descriptor that was free. */
    method Alloc3Desc() returns (ok: bool, idx: Three)
      requires Valid() && Clean()
      modifies this`wakeups, free, desc
      ensures Valid() && idx == Alloc3(old(free[..])) && ok == idx.Three?
      ensures M() == old(M()).(free := Without(old(free[..]), idx))
      ensures wakeups == old(wakeups) + if ok then 0 else CountFree(old(free[..]))
    {
      ghost var m := M();
      Alloc3Wakes(m.free);
      hide CountFree, FirstFree;
      var i := AllocDesc();
      if i < 0 { return false, NoThree; }
      GiveBack(m, i);
      var j := AllocDesc();
      if j < 0 {
        var _ := FreeDescriptor(i);
        return false, NoThree;
      }
      GiveBackTwo(m, i, j);
      var k := AllocDesc();
      if k < 0 {
        var _ := FreeDescriptor(i);
        var _ := FreeDescriptor(j);
        return false, NoThree;
      }
      return true, Three(i, j, k);
    }

    /** virtio_disk_rw up to its wait: one pass of the allocation loop, and the request. The
        caller sleeps on disk.free when !ok, and on b otherwise. */
    method Start(b: int, write: bool, blockno: int) returns (ok: bool, h: int)
      requires Valid() && Clean() && 0 <= b < owned.Length
      modifies this`availIdx, this`wakeups, free, desc, ops, info, avail, owned
      ensures Valid()
      ensures wakeups == old(wakeups) + if ok then 0 else CountFree(old(free[..]))
      ensures ok <==> CountFree(old(free[..])) >= 3
      ensures var t := Alloc3(old(free[..]));
              && t.Three? == ok
              && (ok ==> (Alloc3Iff(old(free[..])); h == t.i && M() == Submit(old(M()), t, b, write, blockno)))
              && (!ok ==> M() == old(M()))
    {
      hide CountFree, FirstFree, Alloc3;
      Alloc3Iff(free[..]);
      ghost var m := M();
      var idx;
      ok, idx := Alloc3Desc();
      if !ok { return false, -1; }
      h := idx.i;
      Fill(idx, b, write, blockno);
      Post(idx.i, b);
      assert M() == Submit(m, idx, b, write, blockno);
    }

    /** b->disk = 1, and the head goes to the avail ring. */
    method Post(h: int, b: int)
      requires Valid() && 0 <= b < owned.Length
      modifies this`availIdx, avail, owned
      ensures Valid()
      ensures M() == old(M()).(owned := old(M()).owned[b := true], avail := old(M()).avail[old(availIdx) % NUM := h],
                               availIdx := (old(availIdx) + 1) % IDX)
    {
      owned[b] := true;
      avail[availIdx % NUM] := h;
      availIdx := (availIdx + 1) % IDX;
    }

    /** Formats the three descriptors. */
    method Fill(idx: Three, b: int, write: bool, blockno: int)
      requires Valid() && idx.Three? && 0 <= idx.i < NUM && 0 <= idx.j < NUM && 0 <= idx.k < NUM
      requires idx.i != idx.j && idx.i != idx.k && idx.j != idx.k
      modifies desc, ops, info
      ensures Valid()
      ensures M() == old(M()).(
          ops := old(M()).ops[idx.i := Op(write, Sector(blockno))],
          desc := old(M()).desc[idx.i := Desc(OpsOf(idx.i), 16, true, false, idx.j)]
                               [idx.j := Desc(DataOf(b), 1024, true, !write, idx.k)]
                               [idx.k := Desc(StatusOf(idx.i), 1, false, true, 0)],
          info := old(M()).info[idx.i := Info(b, 0xff)])
    {
      ops[idx.i] := Op(write, blockno * 2 % 0x1_0000_0000);
      desc[idx.i] := Desc(OpsOf(idx.i), 16, true, false, idx.j);
      desc[idx.j] := Desc(DataOf(b), 1024, true, !write, idx.k);
      desc[idx.k] := Desc(StatusOf(idx.i), 1, false, true, 0);
      info[idx.i] := Info(b, 0xff);
    }

    /** virtio_disk_rw after its wait. */
    method End(h: int) returns (ok: bool)
      requires Valid() && 0 <= h < NUM && forall k :: 0 <= k < NUM ==> 0 <= desc[k].nxt < NUM
      modifies this`wakeups, free, desc, info
      ensures Valid() && Freed(M(), ok) == Release(old(M()), h)
      ensures wakeups - old(wakeups) == CountFree(free[..]) - CountFree(old(free[..]))
    {
      ghost var m := M();
      info[h] := info[h].(b := -1);
      assert M() == m.(info := m.info[h := m.info[h].(b := -1)]);
      ok := FreeChainOf(h);
    }

    /** virtio_disk_intr; used and usedIdx are what the device has written. */
    method Interrupt(used: seq<int>, usedIdx: int) returns (ok: bool)
      requires Valid() && |used| == NUM && 0 <= usedIdx < IDX && forall k :: 0 <= k < NUM ==> 0 <= used[k] < NUM
      modifies this`seen, owned
      ensures Valid() && Freed(M(), ok) == RetireAll(old(M()), used, usedIdx)
    {
      ghost var goal := RetireAll(M(), used, usedIdx);
      while seen != usedIdx
        invariant Valid() && goal == RetireAll(M(), used, usedIdx)
        decreases (usedIdx - seen) % IDX
      {
        ghost var m := M();
        var id := used[seen % NUM];
        if info[id].status != 0 || !(0 <= info[id].b < owned.Length) { return false; }
        owned[info[id].b] := false;
        Closer(seen, usedIdx);
        seen := (seen + 1) % IDX;
        assert M() == Retire(m, id);
      }
      return true;
    }
  }

  /** Where alloc3_desc gives up tells how many descriptors were free. */
  lemma Alloc3Wakes(free: seq<bool>)
    ensures var i := FirstFree(free, 0);
            && (i < 0 ==> CountFree(free) == 0)
            && (i >= 0 ==> i < |free| && var j := FirstFree(free[i := false], 0);
                && (j < 0 ==> CountFree(free) == 1)
                && (j >= 0 ==> j < |free| && (FirstFree(free[i := false][j := false], 0) < 0 ==> CountFree(free) == 2)))
  {
    var i := FirstFree(free, 0);
    FirstFreeIff(free);
    if i >= 0 {
      CountUpdate(free, i, false);
      var free1 := free[i := false];
      FirstFreeIff(free1);
      var j := FirstFree(free1, 0);
      if j >= 0 {
        CountUpdate(free1, j, false);
        FirstFreeIff(free1[j := false]);
      }
    }
  }
}
