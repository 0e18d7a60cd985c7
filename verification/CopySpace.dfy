/** fork's copy of an address space: uvmcopy of Lab3/xv6-riscv/kernel/vm.c. */
module CopySpace {
  import opened Wrappers
  import opened PageTable
  import opened Vm
  import opened Uvm

  /** Page number v of root maps a page of the same flags and contents as that of old_. */
  ghost predicate CopiedPage(s: Memory, old_: nat, root: nat, v: nat) {
    && Backed(s) && Translate(s, old_, v).Some? && Translate(s, root, v).Some?
    && Translate(s, root, v).value.f == Translate(s, old_, v).value.f
    && Translate(s, root, v).value.ppn != Translate(s, old_, v).value.ppn
    && Translate(s, root, v).value.ppn in s.mem && Translate(s, old_, v).value.ppn in s.mem
    && s.mem[Translate(s, root, v).value.ppn] == s.mem[Translate(s, old_, v).value.ppn]
  }

  ghost predicate CopiedRange(s: Memory, old_: nat, root: nat, n: nat) {
    forall v: nat :: v < n ==> CopiedPage(s, old_, root, v)
  }

  /** uvmcopy has come to page number v: it has copied those below, all of which old_ had and root had not. */
  ghost predicate CopyProgress(s0: Memory, h: set<nat>, s: Memory, old_: nat, root: nat, v: nat) {
    && v <= TRAPFRAME && old_ != root && RangeUpdate(s0, s, h, root, 0, v) && CopiedRange(s, old_, root, v)
    && NoneRange(s0, root, 0, v) && MappedRange(s0, old_, 0, v)
  }

  /** Other address spaces are read, not changed. */
  lemma OtherSpace(s: Memory, s': Memory, h: set<nat>, root: nat, lo: nat, hi: nat, other: nat, v: nat)
    requires Shape(s, {}) && RangeUpdate(s, s', h, root, lo, hi) && other != root && v < TRAPFRAME
    ensures Backed(s') && Translate(s', other, v) == Translate(s, other, v)
    ensures Translate(s, other, v).Some? ==>
              && Translate(s, other, v).value.ppn in s.mem && Translate(s, other, v).value.ppn in s'.mem
              && s'.mem[Translate(s, other, v).value.ppn] == s.mem[Translate(s, other, v).value.ppn]
  {
    FrameTranslate(s, s', root, other, v);
    UserRole(s, other, v);
    hide Shape, Closed, Bijection, Sized, Translate, SameUser;
    assert User(other, v).root == other;
  }

  lemma CopyStart(s: Memory, h: set<nat>, old_: nat, root: nat)
    requires Shape(s, {}) && old_ != root
    ensures CopyProgress(s, h, s, old_, root, 0) && Backed(s)
  {
    RangeSame(s, h, root, 0, 0);
  }

  /** What is still to be copied is as it was. */
  lemma CopyNext(s0: Memory, h: set<nat>, s: Memory, old_: nat, root: nat, v: nat)
    requires CopyProgress(s0, h, s, old_, root, v) && Shape(s, {}) && Shape(s0, {})
    ensures Backed(s) && Backed(s0) && Translate(s, root, v) == Translate(s0, root, v)
    ensures Translate(s, old_, v) == Translate(s0, old_, v)
    ensures Translate(s, old_, v).Some? ==>
              && IsLeaf(Translate(s, old_, v).value) && Translate(s, old_, v).value.f.v
              && (v < TRAPFRAME ==> Translate(s, old_, v).value.ppn in s.mem && |s.mem[Translate(s, old_, v).value.ppn]| == ENTRIES
                                    && Translate(s, old_, v).value.ppn in s.owner)
  {
    OutsideSame(s0, s, h, root, 0, v, v);
    FrameTranslate(s0, s, root, old_, v);
    if Translate(s, old_, v).Some? { LeafRole(s, old_, v); }
    hide Shape, Closed, Bijection, Sized, Translate, SameUser, CopiedRange;
  }

  lemma LeafRole(s: Memory, root: nat, v: nat)
    requires Shape(s, {}) && Translate(s, root, v).Some?
    ensures IsLeaf(Translate(s, root, v).value) && Translate(s, root, v).value.f.v
    ensures v < TRAPFRAME ==>
              && Translate(s, root, v).value.ppn in s.mem && |s.mem[Translate(s, root, v).value.ppn]| == ENTRIES
              && Translate(s, root, v).value.ppn in s.owner
  {
    assert LeafOk(s, root, v);
    if v < TRAPFRAME { UserRole(s, root, v); }
  }

  /** A copied page stays copied while another page of the copy, or none, is being made. */
  lemma CopyStays(s1: Memory, s2: Memory, h: set<nat>, old_: nat, root: nat, lo: nat, hi: nat, u: nat)
    requires Shape(s1, {}) && RangeUpdate(s1, s2, h, root, lo, hi) && !(lo <= u < hi) && u < TRAPFRAME && old_ != root
    requires CopiedPage(s1, old_, root, u)
    ensures CopiedPage(s2, old_, root, u)
  {
    var e := Translate(s1, root, u).value;
    assert MapsData(s1, root, u, e.f, s1.mem[e.ppn]);
    DataStays(s1, s2, h, root, lo, hi, u, e.f, s1.mem[e.ppn]);
    OtherSpace(s1, s2, h, root, lo, hi, old_, u);
    OutsideSame(s1, s2, h, root, lo, hi, u);
    hide RangeUpdate, Shape, Backed, Translate;
  }

  lemma CopyNew(s1: Memory, s2: Memory, h: set<nat>, old_: nat, root: nat, v: nat)
    requires Shape(s1, {}) && Shape(s2, {}) && RangeUpdate(s1, s2, h, root, v, v + 1) && v < TRAPFRAME && old_ != root
    requires Translate(s1, old_, v).Some? && Translate(s1, old_, v).value.ppn in s1.mem
    requires MapsData(s2, root, v, Translate(s1, old_, v).value.f, s1.mem[Translate(s1, old_, v).value.ppn])
    ensures CopiedPage(s2, old_, root, v)
  {
    OtherSpace(s1, s2, h, root, v, v + 1, old_, v);
    UserRole(s2, root, v);
    UserRole(s2, old_, v);
    hide RangeUpdate, Shape, Closed, Sized, Translate;
  }

  lemma CopyStep(s0: Memory, h: set<nat>, s1: Memory, s2: Memory, old_: nat, root: nat, v: nat)
    requires CopyProgress(s0, h, s1, old_, root, v) && v < TRAPFRAME && Shape(s1, {}) && Shape(s2, {})
    requires RangeUpdate(s1, s2, h, root, v, v + 1) && CopiedPage(s2, old_, root, v)
    requires Backed(s0) && Translate(s0, root, v) == None && Translate(s0, old_, v).Some?
    ensures CopyProgress(s0, h, s2, old_, root, v + 1)
  {
    RangeJoin(s0, s1, s2, h, h, root, 0, v);
    CopyKept(s1, s2, h, old_, root, v, v + 1, v);
    hide RangeUpdate, Shape, Backed, Translate, CopiedPage;
    forall u: nat | u < v + 1 ensures CopiedPage(s2, old_, root, u) {
      if u < v { assert CopiedRange(s2, old_, root, v); }
    }
  }

  lemma CopyKept(s1: Memory, s2: Memory, h: set<nat>, old_: nat, root: nat, lo: nat, hi: nat, v: nat)
    requires Shape(s1, {}) && RangeUpdate(s1, s2, h, root, lo, hi) && old_ != root && v <= TRAPFRAME
    requires CopiedRange(s1, old_, root, v) && ((lo == v && hi == v + 1) || lo >= hi)
    ensures CopiedRange(s2, old_, root, v)
  {
    forall u: nat | u < v ensures CopiedPage(s2, old_, root, u) {
      CopyStays(s1, s2, h, old_, root, lo, hi, u);
    }
  }

  lemma CopyFailed(s0: Memory, h: set<nat>, s1: Memory, s2: Memory, old_: nat, root: nat, v: nat)
    requires CopyProgress(s0, h, s1, old_, root, v) && Shape(s1, {}) && RangeUpdate(s1, s2, h, root, 0, 0)
    ensures CopyProgress(s0, h, s2, old_, root, v)
  {
    RangeWider(s1, s2, h, root, 0, 0, 0, v);
    RangeTrans(s0, s1, s2, h, h, root, 0, v);
    assert h * h == h;
    CopyKept(s1, s2, h, old_, root, 0, 0, v);
  }

  lemma CopyMapped(s0: Memory, h: set<nat>, s: Memory, old_: nat, root: nat, v: nat)
    requires CopyProgress(s0, h, s, old_, root, v) && Shape(s, {})
    ensures MappedRange(s, root, 0, v) && RangeUpdate(s0, s, h, root, 0, v)
    ensures CopiedRange(s, old_, root, v) && NoneRange(s0, root, 0, v) && v <= TRAPFRAME
  {
    forall u: nat | u < v ensures Translate(s, root, u).Some? {
      assert CopiedPage(s, old_, root, u);
    }
  }

  /** One round of uvmcopy. It panics where old_ has no page, or root has one. */
  method CopyOne(k: Kernel, old_: nat, root: nat, v: nat, ghost s0: Memory) returns (r: MapResult)
    requires k.Valid() && Node(root, 2, 0) in k.where && Node(old_, 2, 0) in k.where && Shape(s0, {}) && HasTop(s0, root)
    requires CopyProgress(s0, k.held, k.S(), old_, root, v)
    modifies k
    ensures k.Valid() && Node(root, 2, 0) in k.where && (r != Panic ==> k.held == old(k.held))
    ensures Backed(s0) && (r == Panic ==> Translate(s0, old_, v) == None || Translate(s0, root, v).Some?)
    ensures r == Mapped ==> v < TRAPFRAME
    ensures CopyProgress(s0, old(k.held), k.S(), old_, root, if r == Mapped then v + 1 else v)
    ensures |k.freelist| >= |old(k.freelist)| - 3 && (r == NoMemory ==> |old(k.freelist)| < 3)
  {
    hide Shape, Pool, RangeUpdate, Closed, Bijection, CopyProgress, Translate, CopiedPage, MapsData;
    ghost var s1, h := k.S(), k.held;
    CopyNext(s0, h, s1, old_, root, v);
    ProgressBelow(s0, h, s1, old_, root, v);
    var pte := k.Walk(old_, v, false);
    if pte == Null { UnmappedWithout(s1, old_, v); return Panic; }
    PteAt(s1, old_, v);
    var e := k.mem[pte.page][pte.i];
    if !e.f.v { return Panic; }
    var data := if v < TRAPFRAME then k.mem[e.ppn] else ZeroPage();      // the trapframe's copy is never mapped
    r := MapNewPage(k, root, v, data, e.f);
    if r == Mapped {
      CopyNew(s1, k.S(), h, old_, root, v);
      CopyStep(s0, h, s1, k.S(), old_, root, v);
    } else {
      CopyFailed(s0, h, s1, k.S(), old_, root, v);
    }
  }

  lemma ProgressBelow(s0: Memory, h: set<nat>, s: Memory, old_: nat, root: nat, v: nat)
    requires CopyProgress(s0, h, s, old_, root, v) && HasTop(s0, root)
    ensures v <= TRAPFRAME && old_ != root && Backed(s0) && (v == TRAPFRAME ==> Translate(s0, root, v).Some?)
  {
  }

  /** uvmcopy of Up(sz) pages has copied them all, or left the new space as it was, or has panicked at
      page number a, the first that old_ has not or root has. */
  ghost predicate CopyOutcome(s0: Memory, h: set<nat>, s: Memory, old_: nat, root: nat, n: nat, r: MapResult, a: nat) {
    match r
    case Mapped => a == n && CopyProgress(s0, h, s, old_, root, n)
    case NoMemory => RangeUpdate(s0, s, h, root, 0, 0)
    case Panic => && a < n && CopyProgress(s0, h, s, old_, root, a) && Backed(s0)
                  && (Translate(s0, old_, a) == None || Translate(s0, root, a).Some?)
  }

  /** uvmcopy */
  method UvmCopy(k: Kernel, old_: nat, root: nat, sz: nat) returns (r: MapResult, ghost a: nat)
    requires k.Valid() && Node(root, 2, 0) in k.where && Node(old_, 2, 0) in k.where && old_ != root
    requires HasTop(k.S(), root)
    modifies k
    ensures k.Valid() && Node(root, 2, 0) in k.where && (r != Panic ==> k.held == old(k.held))
    ensures CopyOutcome(old(k.S()), old(k.held), k.S(), old_, root, Up(sz), r, a)
    ensures r == NoMemory ==> |old(k.freelist)| < 3 * Up(sz)
  {
    hide Shape, Pool, RangeUpdate, Closed, Bijection, CopyProgress, Backed, Translate, Up, HasTop;
    ghost var s0, h := k.S(), k.held;
    CopyStart(s0, h, old_, root);
    var i := 0;
    while i < Up(sz)
      invariant i <= Up(sz) && k.Valid() && k.held == h
      invariant Node(root, 2, 0) in k.where && Node(old_, 2, 0) in k.where
      invariant CopyProgress(s0, h, k.S(), old_, root, i) && |k.freelist| >= |old(k.freelist)| - 3 * i
    {
      r := CopyOne(k, old_, root, i, s0);
      if r == Mapped {
        KeepsNode(s0, k.S(), h, root, i + 1, old_);
        i := i + 1;
      } else {
        if r == NoMemory { UndoCopy(k, old_, root, i, s0); }
        return r, i;
      }
    }
    return Mapped, i;
  }

  lemma KeepsNode(s0: Memory, s: Memory, h: set<nat>, root: nat, v: nat, old_: nat)
    requires CopyProgress(s0, h, s, old_, root, v) && Node(old_, 2, 0) in s0.where
    ensures Node(old_, 2, 0) in s.where
  {
    hide SameUser, Backed, Translate;
    assert Node(old_, 2, 0).root != root;
  }

  /** The err: label of uvmcopy. */
  method UndoCopy(k: Kernel, ghost old_: nat, root: nat, v: nat, ghost s0: Memory)
    requires k.Valid() && Node(root, 2, 0) in k.where && Shape(s0, {})
    requires CopyProgress(s0, k.held, k.S(), old_, root, v)
    modifies k
    ensures k.Valid() && Node(root, 2, 0) in k.where && k.held == old(k.held)
    ensures RangeUpdate(s0, k.S(), k.held, root, 0, 0)
  {
    hide Shape, Pool, RangeUpdate, Closed, Bijection, Translate, MappedRange, NoneRange, CopyProgress;
    ghost var s1 := k.S();
    CopyMapped(s0, k.held, s1, old_, root, v);
    var panic, a := UvmUnmap(k, root, 0, v, true);
    assert !panic;
    GrowUndone(s0, k.held, s1, k.S(), root, 0, v);
  }
}
