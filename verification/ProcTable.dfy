/** The process table of Lab3/xv6-riscv/kernel/proc.c and the whole life of its memory:
    allocproc, freeproc, growproc and fork, in any order, with kalloc failing anywhere. */
module ProcTable {
  import opened Wrappers
  import opened Sequences
  import opened PageTable
  import opened Vm
  import opened Uvm
  import opened CopySpace
  import opened FreeWalk
  import opened Process

  /** What a process may ask for. Exit stands for the freeproc that wait makes. */
  datatype Op = Spawn | Grow(i: nat, n: int) | Fork(parent: nat) | Exit(gone: nat)

  /** sz + n in 64-bit unsigned arithmetic. */
  function Wrapped(sz: nat, n: int): nat {
    (sz + n) % 0x1_0000_0000_0000_0000
  }

  const PHYSPAGES: nat := 32768     // (PHYSTOP - KERNBASE) / PGSIZE

  class Table {
    const k: Kernel
    var proc: seq<Slot>
    ghost const base: set<nat>       // pages the kernel keeps for itself
    const text: nat                  // the physical page of the trampoline

    ghost predicate Valid()
      reads this, k
    {
      k.Valid() && Owned(k.S(), k.held, base, proc, text)
    }

    /** procinit: NPROC unused entries, over a kernel that has built no page table. */
    constructor (kernel: Kernel, trampoline: nat)
      requires kernel.Valid() && kernel.where == map[]
      ensures Valid() && k == kernel && proc == seq(64, i => Unused) && base == kernel.held
    {
      k := kernel;
      text := trampoline;
      base := kernel.held;
      proc := seq(64, i => Unused);
    }

    /** Which pages are free. */
    ghost function Free(): set<nat>
      reads k
    {
      Elems(k.freelist)
    }

    /** allocproc: the first unused entry, with a trapframe and an empty space. */
    method AllocProc() returns (i: Option<nat>)
      requires Valid()
      modifies this, k
      ensures Valid() && |proc| == |old(proc)|
      ensures i == None ==> proc == old(proc) && k.held == old(k.held) && SameSpaces(old(k.S()), k.S())
      ensures i == None ==> (forall q :: 0 <= q < |proc| ==> proc[q].Used?) || |old(k.freelist)| < 6
      ensures i.Some? ==> |k.freelist| >= |old(k.freelist)| - 6
      ensures i.Some? ==>
                && i.value < |proc| && old(proc)[i.value] == Unused && proc[i.value].Used? && proc[i.value].sz == 0
                && proc == old(proc)[i.value := proc[i.value]]
                && Frame(old(k.S()), k.S(), proc[i.value].pagetable) && NoRoles(old(k.S()), proc[i.value].pagetable)
                && forall q :: 0 <= q < i.value ==> proc[q].Used?
    {
      hide Shape, Pool, Owned, UserSpace, Frame, NoRoles, SameSpaces, Closed, Bijection, Backed;
      ghost var s0, h0 := k.S(), k.held;
      SameRefl(s0);
      var j := 0;
      while j < |proc| && proc[j] != Unused
        invariant j <= |proc| && forall q :: 0 <= q < j ==> proc[q].Used?
      {
        j := j + 1;
      }
      if j == |proc| { return None; }
      var tf := k.Kalloc();
      if tf == None { return None; }
      ghost var s1 := k.S();
      TrapframeTaken(s0, s1, k.held, h0, base, proc, text, tf.value);
      var root := ProcPagetable(k, tf.value, text);
      ghost var s2 := k.S();
      if root == None {
        TrapframeBack(k.pages, s0, s1, s2, k.freelist, h0, tf.value);
        k.Kfree(tf.value);
        assert k.held == h0;
        OwnedSame(s0, k.S(), h0, base, proc, text);
        return None;
      }
      ghost var p := Used(tf.value, root.value, 0);
      NewSpace(s0, s1, s2, root.value);
      OwnedAdd(s0, s2, h0, base, proc, text, j, p);
      proc := proc[j := Used(tf.value, root.value, 0)];
      return Some(j);
    }

    /** freeproc of entry i: its trapframe page, its user pages and its page-table pages. */
    method FreeProc(i: nat)
      requires Valid() && i < |proc| && proc[i].Used?
      modifies this, k
      ensures Valid() && proc == old(proc)[i := Unused]
      ensures k.held == old(k.held) - {old(proc)[i].trapframe}
      ensures NoRoles(k.S(), old(proc)[i].pagetable) && Frame(old(k.S()), k.S(), old(proc)[i].pagetable)
    {
      ghost var s0, h0 := k.S(), k.held;
      var p := proc[i];
      hide Shape, Pool, UserSpace, Frame, NoRoles, Closed, Bijection, Backed, Owned, Sized;
      OwnSpace(s0, h0, base, proc, text, i);
      TrapframeFreed(k.pages, s0, k.freelist, h0, p.trapframe, p, text);
      k.Kfree(p.trapframe);
      ghost var s1 := k.S();
      ProcFreePagetable(k, p.pagetable, p.sz, p, text);
      NewSpaceGone(s0, s1, k.S(), p.pagetable);
      OwnedRemove(s0, k.S(), h0, base, proc, text, i);
      proc := proc[i := Unused];
    }

    /** growproc of entry i, by n bytes; NoMemory is its -1. Only a memory large enough to fill a
        whole user space up to the trapframe would let mappages panic. */
    method GrowProc(i: nat, n: int) returns (r: MapResult)
      requires Valid() && i < |proc| && proc[i].Used? && -0x8000_0000 <= n < 0x8000_0000
      modifies this, k
      ensures r == Panic ==> |k.pages| >= TRAPFRAME
      ensures r != Panic ==> Valid() && k.held == old(k.held)
      ensures r != Panic ==> proc == old(proc)[i := old(proc)[i].(sz := NewSize(old(proc)[i].sz, n, r == Mapped))]
      ensures n <= 0 ==> r == Mapped
      ensures r == NoMemory ==> |old(k.freelist)| < 3 * (Up(old(proc)[i].sz + n) - Up(old(proc)[i].sz))
      ensures r != Panic ==>
                var p := old(proc)[i];
                RangeUpdate(old(k.S()), k.S(), k.held, p.pagetable,
                            Up(Least(p.sz, proc[i].sz)), Up(Most(p.sz, proc[i].sz)))
                && FreshRange(k.S(), p.pagetable, Up(p.sz), Up(proc[i].sz), RW.(v := true, u := true))
    {
      hide Shape, Pool, UserSpace, RangeUpdate, Translate, Closed, Bijection, Backed, FreshRange, Up, MappedRange, NoneRange;
      hide AllApart, AllRooted, AllHeld, Wrapped;
      ghost var s0, h0 := k.S(), k.held;
      var p := proc[i];
      var root, sz := p.pagetable, p.sz;
      RangeSame(s0, h0, root, Up(sz), Up(sz));
      NoFresh(s0, root, Up(sz), RW.(v := true, u := true));
      GrowBounds(s0, p, n, text);
      r := Mapped;
      if n > 0 {
        ghost var a;
        sz, r, a := UvmAlloc(k, root, p.sz, sz + n, WRITE);
        if r == Panic {
          FullSpace(k.pages, s0, k.S(), k.freelist, k.held, h0, p, a, text);
          return;
        }
        if r == NoMemory {
          ResizeFailed(s0, k.S(), h0, p, n, text);
          OwnedResize(s0, k.S(), h0, base, proc, text, i, p.sz);
          assert proc[i := p.(sz := p.sz)] == proc;
          NoFresh(k.S(), root, Up(p.sz), RW.(v := true, u := true));
          return;
        }
        GrewRange(s0, k.S(), h0, p, sz, a, text);
        Grew(s0, k.S(), h0, p, sz, text);
      } else if n < 0 {
        var panic;
        sz, panic := UvmDealloc(k, root, sz, Wrapped(sz, n));
        assert !panic;
        Shrank(s0, k.S(), h0, p, n, sz, text);
        NoFresh2(k.S(), root, Up(p.sz), Up(sz), RW.(v := true, u := true));
      }
      OwnedResize(s0, k.S(), h0, base, proc, text, i, sz);
      proc := proc[i := p.(sz := sz)];
    }

    /** fork's memory: a new entry with a copy of the parent's pages, or everything as it was. */
    method Fork(i: nat) returns (j: Option<nat>)
      requires Valid() && i < |proc| && proc[i].Used?
      modifies this, k
      ensures Valid() && |proc| == |old(proc)|
      ensures j == None ==> proc == old(proc) && SameSpaces(old(k.S()), k.S())
      ensures j == None ==> (forall q :: 0 <= q < |proc| ==> proc[q].Used?) || |old(k.freelist)| < 6 + 3 * Up(proc[i].sz)
      ensures j.Some? ==>
                && j.value < |proc| && old(proc)[j.value] == Unused && proc[j.value].Used?
                && proc == old(proc)[j.value := proc[j.value]] && proc[j.value].sz == proc[i].sz
                && CopiedRange(k.S(), proc[i].pagetable, proc[j.value].pagetable, Up(proc[i].sz))
                && Frame(old(k.S()), k.S(), proc[j.value].pagetable)
    {
      hide Shape, Pool, UserSpace, Translate, Frame, RangeUpdate, Closed, Bijection, Backed;
      hide CopiedRange, Up, NoRoles, SameSpaces, MappedRange, NoneRange, AllApart, AllRooted, AllHeld;
      ghost var s0, proc0 := k.S(), proc;
      j := AllocProc();
      if j == None { return; }
      assert proc[i] == proc0[i];
      var c := j.value;
      ghost var s1 := k.S();
      ReadyToCopy(s1, proc, text, i, c);
      var r, a := UvmCopy(k, proc[i].pagetable, proc[c].pagetable, proc[i].sz);
      var ok := r == Mapped;
      ghost var s2 := k.S();
      CopyEnds(s1, k.held, s2, proc[i].pagetable, proc[c].pagetable, Up(proc[i].sz), r, a);
      var sz := if ok then proc[i].sz else 0;
      Copied(s0, s1, s2, k.held, proc[c], proc[i].pagetable, sz, text, ok);
      OwnedResize(s1, s2, k.held, base, proc, text, c, sz);
      if !ok {
        assert proc[c := proc[c].(sz := 0)] == proc;
        ghost var root := proc[c].pagetable;
        FreeProc(c);
        assert proc == proc0;
        FailedSpace(s0, s2, k.S(), root);
        return None;
      }
      proc := proc[c := proc[c].(sz := sz)];
    }

    method Perform(op: Op)
      requires Valid() && |k.pages| <= PHYSPAGES
      modifies this, k
      ensures Valid() && |proc| == |old(proc)|
      ensures Effect(op, old(proc), proc, |old(k.freelist)|)
    {
      hide Kernel.Valid, Owned, Wrapped, Up;
      match op
      case Spawn => var _ := AllocProc();
      case Grow(i, n) =>
        if i < |proc| && proc[i].Used? && -0x8000_0000 <= n < 0x8000_0000 {
          var _ := GrowProc(i, n);
        }
      case Fork(i) => if i < |proc| && proc[i].Used? { var _ := Fork(i); }
      case Exit(i) => if i < |proc| && proc[i].Used? { FreeProc(i); }
    }

    method ExitAll()
      requires Valid()
      modifies this, k
      ensures Valid() && |proc| == |old(proc)| && forall i :: 0 <= i < |proc| ==> proc[i] == Unused
    {
      hide Kernel.Valid, Owned;
      var i := 0;
      while i < |proc|
        invariant Valid() && |proc| == |old(proc)| && i <= |proc|
        invariant forall j :: 0 <= j < i ==> proc[j] == Unused
      {
        if proc[i].Used? { FreeProc(i); }
        i := i + 1;
      }
    }

    /** Page conservation: after any sequence of requests, kalloc failing wherever it may,
        taking the remaining processes down leaves free exactly the pages that were free. */
    method WholeLife(ops: seq<Op>)
      requires Valid() && |k.pages| <= PHYSPAGES && forall i :: 0 <= i < |proc| ==> proc[i] == Unused
      modifies this, k
      ensures Valid() && Free() == old(Free()) && Distinct(k.freelist) && |k.freelist| == old(|k.freelist|)
      ensures k.where == map[] && k.held == base
    {
      hide Shape, Owned, Elems, Distinct;
      NothingLeft(k.pages, k.S(), k.freelist, k.held, base, proc, text);
      FreeCount(k.freelist);
      for n := 0 to |ops|
        invariant Valid()
      {
        Perform(ops[n]);
      }
      ExitAll();
      NothingLeft(k.pages, k.S(), k.freelist, k.held, base, proc, text);
      FreeCount(k.freelist);
    }
  }

  predicate Live(proc: seq<Slot>, i: nat) { i < |proc| && proc[i].Used? }

  predicate Spare(proc: seq<Slot>) { exists i :: 0 <= i < |proc| && proc[i] == Unused }

  /** An unused entry has been taken. */
  predicate OneMore(was: seq<Slot>, now: seq<Slot>) {
    exists j: nat :: j < |was| == |now| && was[j] == Unused && now[j].Used? && now == was[j := now[j]]
  }

  /** What a request does to the table, with that many pages free. */
  ghost predicate Effect(op: Op, was: seq<Slot>, now: seq<Slot>, free: nat) {
    match op
    case Spawn => (now == was || OneMore(was, now)) && (Spare(was) && free >= 6 ==> OneMore(was, now))
    case Grow(i, n) => now == was || (Live(was, i) && was[i].sz + n >= 0 && now == was[i := was[i].(sz := was[i].sz + n)])
    case Fork(i) =>
      && (now == was || OneMore(was, now))
      && (Live(was, i) && Spare(was) && free >= 6 + 3 * Up(was[i].sz) ==> OneMore(was, now))
    case Exit(i) => now == if Live(was, i) then was[i := Unused] else was
  }

  lemma {:induction false} FreeCount(s: seq<nat>)
    requires Distinct(s)
    ensures |s| == |Elems(s)|
  {
    if s != [] {
      FreeCount(s[1..]);
      assert Elems(s) == Elems(s[1..]) + {s[0]};
      assert forall k :: 0 <= k < |s[1..]| ==> s[1..][k] == s[k + 1];
      assert s[0] !in s[1..];
    }
  }

  lemma ReadyToCopy(s: Memory, proc: seq<Slot>, text: nat, i: nat, c: nat)
    requires i < |proc| && c < |proc| && i != c && proc[i].Used? && proc[c].Used? && proc[c].sz == 0
    requires Shape(s, {}) && Spaces(s, proc, text) && AllApart(proc)
    ensures Backed(s) && proc[i].pagetable != proc[c].pagetable
    ensures Node(proc[i].pagetable, 2, 0) in s.where && Node(proc[c].pagetable, 2, 0) in s.where
    ensures Up(proc[i].sz) <= TRAPFRAME && MappedRange(s, proc[i].pagetable, 0, Up(proc[i].sz))
    ensures NoneRange(s, proc[c].pagetable, 0, Up(proc[i].sz)) && UserSpace(s, proc[c], text) && Up(0) == 0
    ensures HasTop(s, proc[c].pagetable)
  {
    OthersApart(proc, c);
    assert UserSpace(s, proc[i], text) && UserSpace(s, proc[c], text);
    hide Shape, Backed, Translate;
  }

  /** With all of the parent's pages there and none of the child's, uvmcopy does not panic. */
  lemma CopyEnds(s: Memory, h: set<nat>, s': Memory, parent: nat, child: nat, n: nat, r: MapResult, a: nat)
    requires exists h0 :: CopyOutcome(s, h0, s', parent, child, n, r, a) && (r != Panic ==> h0 == h)
    requires MappedRange(s, parent, 0, n) && NoneRange(s, child, 0, n) && Shape(s', {})
    ensures r == Mapped ==> RangeUpdate(s, s', h, child, 0, n) && CopiedRange(s', parent, child, n)
    ensures r == NoMemory ==> RangeUpdate(s, s', h, child, 0, 0)
    ensures r != Panic
  {
    hide RangeUpdate, CopiedRange, Backed, Translate, Shape;
  }

  lemma Copied(s0: Memory, s1: Memory, s2: Memory, h: set<nat>, p: Slot, parent: nat, sz: nat, text: nat, ok: bool)
    requires Shape(s1, {}) && Shape(s2, {}) && UserSpace(s1, p, text) && p.sz == 0 && Up(sz) <= TRAPFRAME
    requires Frame(s0, s1, p.pagetable) && Node(p.pagetable, 2, 0) in s2.where
    requires ok ==> RangeUpdate(s1, s2, h, p.pagetable, 0, Up(sz)) && CopiedRange(s2, parent, p.pagetable, Up(sz))
    requires !ok ==> sz == 0 && RangeUpdate(s1, s2, h, p.pagetable, 0, 0)
    ensures UserSpace(s2, p.(sz := sz), text) && Frame(s1, s2, p.pagetable) && Frame(s0, s2, p.pagetable)
  {
    var r, hi := p.pagetable, Up(sz);
    hide Shape, Closed, Bijection, Sized, SameUser, Frame;
    forall v: nat | v >= hi ensures Translate(s2, r, v) == Translate(s1, r, v) {
      OutsideSame(s1, s2, h, r, 0, hi, v);
    }
    forall v: nat | v < hi ensures Translate(s2, r, v).Some? {
      assert CopiedPage(s2, parent, r, v);
    }
    FrameTrans(s0, s1, s2, r);
    hide Translate, CopiedRange;
  }

  function Least(a: nat, b: nat): nat { if a < b then a else b }

  function Most(a: nat, b: nat): nat { if a < b then b else a }

  /** The size growproc leaves: shrinking by more than there is changes nothing. */
  function NewSize(sz: nat, n: int, ok: bool): nat {
    if ok && sz + n >= 0 then sz + n else sz
  }

  lemma WrappedSize(sz: nat, n: int)
    requires sz < 0x1_0000_0000_0000 && -0x8000_0000 <= n < 0
    ensures if sz + n >= 0 then Wrapped(sz, n) == sz + n else Wrapped(sz, n) > sz
  {
  }

  lemma NoFresh(s: Memory, root: nat, n: nat, f: Flags)
    ensures FreshRange(s, root, n, n, f)
  {
  }

  lemma NoFresh2(s: Memory, root: nat, lo: nat, hi: nat, f: Flags)
    requires hi <= lo
    ensures FreshRange(s, root, lo, hi, f)
  {
  }

  lemma GrowBounds(s: Memory, p: Slot, n: int, text: nat)
    requires Shape(s, {}) && UserSpace(s, p, text) && -0x8000_0000 <= n < 0x8000_0000
    ensures Node(p.pagetable, 2, 0) in s.where && Up(p.sz) <= TRAPFRAME && Backed(s) && HasTop(s, p.pagetable)
    ensures n < 0 ==> MappedRange(s, p.pagetable, Up(Wrapped(p.sz, n)), Up(p.sz))
    ensures n < 0 ==> (if p.sz + n >= 0 then Wrapped(p.sz, n) == p.sz + n else Wrapped(p.sz, n) > p.sz)
  {
    if n < 0 { WrappedSize(p.sz, n); }
    hide Shape, Backed, Translate;
  }

  /** A growth that succeeds stays below TRAPFRAME. */
  lemma GrewRange(s: Memory, s': Memory, h: set<nat>, p: Slot, sz: nat, a: nat, text: nat)
    requires UserSpace(s, p, text) && p.sz <= sz
    requires GrowOutcome(s, h, s', p.pagetable, Up(p.sz), Up(sz), Mapped, a, RW.(v := true, u := true))
    ensures RangeUpdate(s, s', h, p.pagetable, Up(p.sz), Up(sz)) && Up(sz) <= TRAPFRAME
    ensures FreshRange(s', p.pagetable, Up(p.sz), Up(sz), RW.(v := true, u := true))
  {
    hide RangeUpdate, FreshRange, Backed, Translate;
  }

  ghost function UserPages(s: Memory, root: nat, n: nat): set<nat>
    requires forall u: nat :: u < n ==> User(root, u) in s.where
  {
    if n == 0 then {} else UserPages(s, root, n - 1) + {s.where[User(root, n - 1)]}
  }

  lemma {:induction false} PageEach(s: Memory, root: nat, n: nat)
    requires Shape(s, {}) && forall u: nat :: u < n ==> User(root, u) in s.where
    ensures |UserPages(s, root, n)| == n && UserPages(s, root, n) <= s.mem.Keys
    ensures forall p :: p in UserPages(s, root, n) ==> p in s.owner && exists u: nat :: u < n && s.owner[p] == User(root, u)
  {
    if n > 0 {
      PageEach(s, root, n - 1);
      hide Closed, Backed;
    }
  }

  /** Where mappages panics in growproc, the pages of this space alone reach up to TRAPFRAME. */
  lemma FullSpace(pages: set<nat>, s: Memory, s': Memory, free: seq<nat>, held: set<nat>, h: set<nat>, p: Slot, a: nat, text: nat)
    requires Shape(s', {}) && Pool(pages, s', free, held) && UserSpace(s, p, text)
    requires exists hi :: GrowOutcome(s, h, s', p.pagetable, Up(p.sz), hi, Panic, a, RW.(v := true, u := true))
    ensures |pages| >= TRAPFRAME
  {
    var f, lo, r := RW.(v := true, u := true), Up(p.sz), p.pagetable;
    var hi :| GrowOutcome(s, h, s', r, lo, hi, Panic, a, f);
    assert a >= TRAPFRAME;
    forall u: nat | u < TRAPFRAME ensures User(r, u) in s'.where {
      UserRole(s', r, u);
      if u < lo { OutsideSame(s, s', h, r, lo, a, u); } else { assert MapsData(s', r, u, f, ZeroPage()); }
    }
    PageEach(s', r, TRAPFRAME);
    SubsetSize(UserPages(s', r, TRAPFRAME), pages);
  }

  lemma SubsetSize(a: set<nat>, b: set<nat>)
    requires a <= b
    ensures |a| <= |b|
  {
    assert b == a + (b - a);
  }

  lemma Grew(s: Memory, s': Memory, h: set<nat>, p: Slot, sz: nat, text: nat)
    requires Shape(s, {}) && Shape(s', {}) && UserSpace(s, p, text) && p.sz <= sz && Up(sz) <= TRAPFRAME
    requires Node(p.pagetable, 2, 0) in s'.where
    requires RangeUpdate(s, s', h, p.pagetable, Up(p.sz), Up(sz))
    requires FreshRange(s', p.pagetable, Up(p.sz), Up(sz), RW.(v := true, u := true))
    ensures UserSpace(s', p.(sz := sz), text) && Frame(s, s', p.pagetable)
  {
    var r, lo, hi := p.pagetable, Up(p.sz), Up(sz);
    UpMonotone(p.sz, sz);
    hide Shape, Up, Closed, Bijection, Sized, SameUser, Frame;
    forall v: nat | !(lo <= v < hi) ensures Translate(s', r, v) == Translate(s, r, v) {
      OutsideSame(s, s', h, r, lo, hi, v);
    }
    forall v: nat | lo <= v < hi ensures Translate(s', r, v).Some? {
      assert MapsData(s', r, v, RW.(v := true, u := true), ZeroPage());
    }
    hide Translate, FreshRange;
  }

  lemma Shrank(s: Memory, s': Memory, h: set<nat>, p: Slot, n: int, sz: nat, text: nat)
    requires Shape(s, {}) && Shape(s', {}) && UserSpace(s, p, text) && -0x8000_0000 <= n < 0
    requires Node(p.pagetable, 2, 0) in s'.where
    requires sz == if Wrapped(p.sz, n) >= p.sz then p.sz else Wrapped(p.sz, n)
    requires RangeUpdate(s, s', h, p.pagetable, Up(Wrapped(p.sz, n)), Up(p.sz))
    requires Wrapped(p.sz, n) < p.sz ==> NoneRange(s', p.pagetable, Up(Wrapped(p.sz, n)), Up(p.sz))
    ensures UserSpace(s', p.(sz := sz), text) && Frame(s, s', p.pagetable) && sz == NewSize(p.sz, n, true)
    ensures Up(sz) <= Up(p.sz) && sz <= p.sz && RangeUpdate(s, s', h, p.pagetable, Up(sz), Up(p.sz))
  {
    WrappedSize(p.sz, n);
    var r, w, hi := p.pagetable, Wrapped(p.sz, n), Up(p.sz);
    UpMonotone(w, p.sz);
    if w >= p.sz { RangeWider(s, s', h, r, Up(w), hi, hi, hi); }
    var lo := Up(sz);
    assert RangeUpdate(s, s', h, r, lo, hi);
    hide Shape, Up, Closed, Bijection, Sized, SameUser, Wrapped;
    forall v: nat | !(lo <= v < hi) ensures Translate(s', r, v) == Translate(s, r, v) {
      OutsideSame(s, s', h, r, lo, hi, v);
    }
    hide Translate, Frame;
  }

  lemma ResizeFailed(s: Memory, s': Memory, h: set<nat>, p: Slot, n: int, text: nat)
    requires Shape(s, {}) && UserSpace(s, p, text) && RangeUpdate(s, s', h, p.pagetable, 0, 0)
    requires Node(p.pagetable, 2, 0) in s'.where
    ensures UserSpace(s', p.(sz := p.sz), text) && Frame(s, s', p.pagetable)
    ensures RangeUpdate(s, s', h, p.pagetable, Up(p.sz), Up(p.sz))
  {
    var r := p.pagetable;
    forall v: nat ensures Translate(s', r, v) == Translate(s, r, v) {
      OutsideSame(s, s', h, r, 0, 0, v);
    }
    RangeWider(s, s', h, r, 0, 0, Up(p.sz), Up(p.sz));
    hide Translate, Shape, SameUser;
  }

  lemma TrapframeTaken(s0: Memory, s1: Memory, h1: set<nat>, h0: set<nat>, base: set<nat>, proc: seq<Slot>, text: nat, tf: nat)
    requires Shape(s0, {}) && tf in s0.mem && tf !in s0.owner && tf !in h0 && h1 == h0 + {tf}
    requires s1 == s0.(mem := s0.mem[tf := Junk(5)])
    ensures Shape(s1, {}) && SameSpaces(s0, s1)
  {
    DataKeeps(s0, tf, Junk(5), {});
    DataSame(s0, tf, Junk(5));
  }

  lemma DataSame(s: Memory, p: nat, data: Page)
    requires Backed(s) && p in s.mem && p !in s.owner
    ensures SameSpaces(s, s.(mem := s.mem[p := data]))
  {
    hide Closed;
  }

  lemma TrapframeBack(pages: set<nat>, s0: Memory, s1: Memory, s2: Memory, free: seq<nat>, h0: set<nat>, tf: nat)
    requires Shape(s2, {}) && Pool(pages, s2, free, h0 + {tf}) && tf !in h0
    requires SameSpaces(s0, s1) && SameSpaces(s1, s2)
    ensures var s3 := s2.(mem := s2.mem[tf := Junk(1)]);
            Shape(s3, {}) && SameSpaces(s0, s3)
  {
    DataKeeps(s2, tf, Junk(1), {});
    DataSame(s2, tf, Junk(1));
    hide Shape, Closed, Bijection, Pool;
    SameTrans(s0, s1, s2);
    SameTrans(s0, s2, s2.(mem := s2.mem[tf := Junk(1)]));
  }

  lemma SameTrans(s: Memory, s1: Memory, s2: Memory)
    requires SameSpaces(s, s1) && SameSpaces(s1, s2)
    ensures SameSpaces(s, s2)
  {
  }

  lemma NewSpace(s0: Memory, s1: Memory, s2: Memory, root: nat)
    requires SameSpaces(s0, s1) && Frame(s1, s2, root) && NoRoles(s1, root)
    ensures Frame(s0, s2, root) && NoRoles(s0, root)
  {
    assert Frame(s0, s1, root);
    FrameTrans(s0, s1, s2, root);
  }

  lemma OwnSpace(s: Memory, h: set<nat>, base: set<nat>, proc: seq<Slot>, text: nat, i: nat)
    requires Owned(s, h, base, proc, text) && i < |proc| && proc[i].Used?
    ensures UserSpace(s, proc[i], text) && proc[i].trapframe in h
  {
  }

  lemma TrapframeFreed(pages: set<nat>, s: Memory, free: seq<nat>, h: set<nat>, tf: nat, p: Slot, text: nat)
    requires Shape(s, {}) && Pool(pages, s, free, h) && tf in h && UserSpace(s, p, text)
    ensures var s1 := s.(mem := s.mem[tf := Junk(1)]);
            Shape(s1, {}) && SameSpaces(s, s1) && UserSpace(s1, p, text)
  {
    DataKeeps(s, tf, Junk(1), {});
    DataSame(s, tf, Junk(1));
    hide Closed, Bijection, Pool;
    SameSpace(s, s.(mem := s.mem[tf := Junk(1)]), p, text);
  }

  lemma NewSpaceGone(s0: Memory, s1: Memory, s2: Memory, root: nat)
    requires SameSpaces(s0, s1) && Frame(s1, s2, root)
    ensures Frame(s0, s2, root)
  {
    assert Frame(s0, s1, root);
    FrameTrans(s0, s1, s2, root);
  }
}
