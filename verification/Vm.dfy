/** The memory code of Lab3/xv6-riscv/kernel/vm.c, kalloc.c and the page-table functions
    of proc.c, over physical pages and the allocator's free list.

    Addresses are page numbers where the source's are page aligned. kalloc fails exactly
    when the free list is empty, so it may fail at any call. */
module Vm {
  import opened Wrappers
  import opened Sequences
  import opened PageTable

  // PGSIZE is 4096.

  /** The page numbers PGROUNDDOWN(a) / PGSIZE and PGROUNDUP(a) / PGSIZE. */
  function Down(a: nat): (v: nat)
    ensures v * 4096 <= a < v * 4096 + 4096
  {
    a / 4096
  }

  function Up(a: nat): (v: nat)
    ensures v * 4096 - 4096 < a <= v * 4096
  {
    (a + 4095) / 4096
  }

  datatype PtePtr = Null | At(page: nat, i: nat)

  datatype MapResult = Mapped | NoMemory | Panic

  ghost function Elems(s: seq<nat>): set<nat> { set p | p in s }

  /** Every page is on the free list, or has a role in a tree, or is held by the kernel. */
  ghost predicate Pool(pages: set<nat>, s: Memory, free: seq<nat>, held: set<nat>) {
    && Distinct(free) && Sized(s.mem)
    && pages == s.mem.Keys
    && (forall p :: p in pages <==> p in free || p in s.owner || p in held)
    && (forall p :: p in free ==> p !in s.owner && p !in held)
    && (forall p :: p in held ==> p !in s.owner)
  }

  class Kernel {
    ghost const pages: set<nat>
    var mem: map<nat, Page>
    var freelist: seq<nat>
    ghost var where: map<Role, nat>
    ghost var owner: map<nat, Role>
    ghost var held: set<nat>          // pages the kernel has allocated and not given to a tree

    ghost function S(): Memory
      reads this
    {
      Memory(mem, where, owner)
    }

    ghost predicate ValidBut(gone: set<Role>)
      reads this
    {
      Shape(S(), gone) && Pool(pages, S(), freelist, held)
    }

    ghost predicate Valid()
      reads this
    {
      ValidBut({})
    }

    // ---- kalloc.c ----

    method Kalloc() returns (p: Option<nat>)
      requires Pool(pages, S(), freelist, held)
      modifies `mem, `freelist, `held
      ensures Pool(pages, S(), freelist, held)
      ensures p == None <==> old(freelist) == []
      ensures p == None ==> mem == old(mem) && freelist == old(freelist) && held == old(held)
      ensures p.Some? ==>
                && old(freelist) == [p.value] + freelist && held == old(held) + {p.value}
                && p.value !in old(held) && p.value !in owner && p.value in old(mem)
                && mem == old(mem)[p.value := Junk(5)]
    {
      if freelist == [] { return None; }
      var r := freelist[0];
      assert r in freelist;
      freelist := freelist[1..];
      mem := mem[r := Junk(5)];
      held := held + {r};
      return Some(r);
    }

    method Kfree(p: nat)
      requires Pool(pages, S(), freelist, held) && p in held
      modifies `mem, `freelist, `held
      ensures Pool(pages, S(), freelist, held)
      ensures freelist == [p] + old(freelist) && held == old(held) - {p}
      ensures mem == old(mem)[p := Junk(1)]
    {
      mem := mem[p := Junk(1)];
      freelist := [p] + freelist;
      held := held - {p};
    }

    // ---- walk ----

    /** memset of a fresh page, then the entry above points to it. */
    method InstallNode(ghost t: Role, page: nat, i: nat, p: nat)
      requires CanAddNode(S(), t, p) && page == where[Parent(t)] && i == Ix(t.c) && page != p
      requires page in mem && i < |mem[page]|
      modifies `mem, `where, `owner, `held
      ensures S() == AddNode(old(S()), t, p) && held == old(held) - {p}
    {
      hide Backed, Parent, GoodRole, Ix;
      mem := mem[p := ZeroPage()];
      mem := mem[page := mem[page][i := Pointer(p)]];
      where := where[t := p];
      owner := owner[p := t];
      held := held - {p};
    }

    /** One level of walk with alloc: a new zeroed page for node t. */
    method NewNode(ghost t: Role, page: nat, i: nat) returns (child: Option<nat>)
      requires Valid() && t.Node? && t.level < 2 && Parent(t) in where && t !in where
      requires page == where[Parent(t)] && i == Ix(t.c) && GoodRole(t, 0)
      modifies this
      ensures Valid() && held == old(held) && Extended(old(S()), S(), held, t.root)
      ensures child == None ==> freelist == old(freelist) == [] && S() == old(S())
      ensures child.Some? ==> |freelist| == |old(freelist)| - 1
      ensures child.Some? ==> where == old(where)[t := child.value]
    {
      ghost var s0, h0 := S(), held;
      ExtendedRefl(s0, h0, t.root);
      hide Shape, Extended, Parent, GoodRole, Ix, Closed, Bijection, Sized;
      child := Kalloc();
      if child == None { return; }
      NewNodeStep(pages, s0, freelist, h0, t, child.value);
      hide Pool, CanAddNode, Backed, Kernel.Valid;
      InstallNode(t, page, i, child.value);
      assert held == h0;
    }

    /** One round of walk's loop: from the node at `level` to the one below. */
    method WalkLevel(root: nat, level: nat, page: nat, v: nat, alloc: bool) returns (child: Option<nat>)
      requires Valid() && 0 < level <= 2 && v < MAXPAGE
      requires OnPath(root, level, v) in where && where[OnPath(root, level, v)] == page
      modifies this
      ensures Valid() && held == old(held) && Extended(old(S()), S(), held, root)
      ensures child.Some? ==> OnPath(root, level - 1, v) in where && where[OnPath(root, level - 1, v)] == child.value
      ensures child == None ==> OnPath(root, level - 1, v) !in where && (alloc ==> freelist == old(freelist) == [])
      ensures |freelist| >= |old(freelist)| - 1
      ensures OnPath(root, level - 1, v) in old(where) || !alloc ==> S() == old(S()) && freelist == old(freelist)
    {
      ghost var t := OnPath(root, level - 1, v);
      WalkSlot(S(), root, level, v);
      ExtendedRefl(S(), held, root);
      var i := Px(level, v);
      hide Shape, Extended, Closed, Bijection, Pool, GoodRole, Parent, Ix, OnPath, Px, Above, Sized;
      var e := mem[page][i];
      if e.f.v {
        child := Some(e.ppn);
      } else if !alloc {
        child := None;
      } else {
        child := NewNode(t, page, i);
      }
    }

    /** walk: the address of the bottom entry for page number v. */
    method Walk(root: nat, v: nat, alloc: bool) returns (pte: PtePtr)
      requires Valid() && Node(root, 2, 0) in where && v < MAXPAGE
      modifies this
      ensures Valid() && held == old(held) && Extended(old(S()), S(), held, root)
      ensures pte.At? ==> Bottom(root, v) in where && pte == At(where[Bottom(root, v)], Ix(v))
      ensures pte == Null ==> Bottom(root, v) !in where && (alloc ==> freelist == [] && |old(freelist)| < 2)
      ensures |freelist| >= |old(freelist)| - 2
      ensures Bottom(root, v) in old(where) || !alloc ==> S() == old(S()) && freelist == old(freelist)
    {
      hide Shape, Extended, Closed, Bijection, Pool, Sized;
      ghost var s0 := S();
      ExtendedRefl(s0, held, root);
      PathClosed(s0, root, v);
      var page, level := root, 2;
      while level > 0
        invariant level <= 2 && Valid() && held == old(held) && Extended(s0, S(), held, root)
        invariant OnPath(root, level, v) in where && where[OnPath(root, level, v)] == page
        invariant Bottom(root, v) in s0.where || !alloc ==> S() == s0 && freelist == old(freelist)
        invariant |freelist| >= |old(freelist)| - (2 - level)
      {
        label L:
        ghost var s1 := S();
        var child := WalkLevel(root, level, page, v, alloc);
        ExtendedTrans(s0, s1, S(), held, root);
        if child == None {
          PathClosed(S(), root, v);
          return Null;
        }
        page, level := child.value, level - 1;
      }
      return At(page, Px(0, v));
    }

    /** walk without alloc where the page is mapped. */
    method Find(root: nat, v: nat) returns (page: nat, i: nat)
      requires Valid() && Node(root, 2, 0) in where && v < MAXPAGE && Translate(S(), root, v).Some?
      modifies this
      ensures S() == old(S()) && freelist == old(freelist) && held == old(held)
      ensures Bottom(root, v) in where && page == where[Bottom(root, v)] && i == Ix(v)
      ensures page in mem && i < |mem[page]| && Translate(S(), root, v) == Some(mem[page][i])
    {
      var pte := Walk(root, v, false);
      assert pte != Null;        // "uvmunmap: walk", "uvmcopy: pte should exist"
      page, i := pte.page, pte.i;
    }

    // ---- mappages ----

    /** The store of mappages: the entry of v maps e, and the tree takes the page over. */
    method SetPte(root: nat, v: nat, page: nat, i: nat, e: Pte)
      requires CanSetLeaf(S(), root, v, e) && page == where[Bottom(root, v)] && i == Ix(v)
      requires page in mem && i < |mem[page]|
      modifies `mem, `where, `owner, `held
      ensures S() == SetLeaf(old(S()), root, v, e)
      ensures held == if v < TRAPFRAME then old(held) - {e.ppn} else old(held)
    {
      hide Backed, Bottom, Ix;
      mem := mem[page := mem[page][i := e]];
      if v < TRAPFRAME {
        where := where[User(root, v) := e.ppn];
        owner := owner[e.ppn := User(root, v)];
        held := held - {e.ppn};
      }
    }

    /** One round of mappages. */
    method MapOne(root: nat, v: nat, ppn: nat, perm: Flags) returns (r: MapResult)
      requires Valid() && Node(root, 2, 0) in where && (perm.r || perm.w || perm.x)
      requires v < TRAPFRAME ==> ppn in held
      modifies this
      ensures Valid() && Node(root, 2, 0) in where
      ensures r == Panic <==> v >= MAXPAGE || old(Translate(S(), root, v)).Some?
      ensures r == NoMemory ==> freelist == [] && |old(freelist)| < 2
      ensures |freelist| >= |old(freelist)| - 2
      ensures r != Mapped ==> held == old(held) && RangeUpdate(old(S()), S(), old(held), root, 0, 0)
      ensures r == Mapped ==>
                && held == (if v < TRAPFRAME then old(held) - {ppn} else old(held))
                && RangeUpdate(old(S()), S(), held, root, v, v + 1)
                && Translate(S(), root, v) == Some(Pte(ppn, perm.(v := true)))
                && KeepsPage(old(S()), S(), ppn, v < TRAPFRAME)
    {
      hide Shape, Closed, Bijection, Extended, Ix, Bottom, Sized, Pool, Backed, RangeUpdate, CanSetLeaf, KeepsPage, Translate;
      ghost var s0, h0 := S(), held;
      RangeRefl(s0, h0, root);
      if v >= MAXPAGE {
        return Panic;
      }
      var pte := Walk(root, v, true);
      ghost var s1 := S();
      ExtendedUpdate(s0, s1, h0, root);
      OutsideSame(s0, s1, h0, root, 0, 0, v);
      if pte == Null { UnmappedWithout(s1, root, v); return NoMemory; }
      PteAt(s1, root, v);
      if mem[pte.page][pte.i].f.v { return Panic; }
      var e := Pte(ppn, perm.(v := true));
      SetLeafStep(pages, s0, s1, freelist, h0, root, v, e);
      SetPte(root, v, pte.page, pte.i, e);
      return Mapped;
    }

    /** One round of mappages after k others. */
    method MapNext(root: nat, a: nat, k: nat, ppn: nat, perm: Flags, ghost s0: Memory, ghost h0: set<nat>, ghost n: nat)
      returns (r: MapResult)
      requires Valid() && Node(root, 2, 0) in where && (perm.r || perm.w || perm.x)
      requires MapProgress(s0, h0, S(), held, root, a, k, ppn, perm.(v := true))
      requires k < n && Given(ppn, a, n) <= h0
      modifies this
      ensures Valid() && Node(root, 2, 0) in where
      ensures MapProgress(s0, h0, S(), held, root, a, if r == Mapped then k + 1 else k, ppn, perm.(v := true))
      ensures r == NoMemory ==> freelist == [] && |old(freelist)| < 2
      ensures |freelist| >= |old(freelist)| - 2
      ensures r == Panic <==> a + k >= MAXPAGE || (Backed(s0) && Translate(s0, root, a + k).Some?)
    {
      hide Shape, Closed, Bijection, Pool, Backed, MapProgress, RangeUpdate, Translate, KeepsPage;
      ghost var s1, h1 := S(), held;
      MapProgressNext(s0, h0, s1, h1, root, a, k, ppn, perm.(v := true), n);
      r := MapOne(root, a + k, ppn + k, perm);
      if r == Mapped {
        MapProgressStep(s0, h0, s1, h1, S(), held, root, a, k, ppn, perm.(v := true));
      } else {
        MapProgressFail(s0, h0, s1, h1, S(), root, a, k, ppn, perm.(v := true));
      }
    }

    /** mappages, for `size` bytes from address va, in 64-bit arithmetic; k is how many pages it
        mapped. A range that wraps around ends where walk panics. */
    method MapPages(root: nat, va: nat, size: nat, ppn: nat, perm: Flags) returns (r: MapResult, ghost k: nat)
      requires Valid() && Node(root, 2, 0) in where && (perm.r || perm.w || perm.x)
      requires va < WORD && size < WORD && Given(ppn, Down(va), SpanPages(va, size)) <= held
      modifies this
      ensures Valid() && Node(root, 2, 0) in where
      ensures MapProgress(old(S()), old(held), S(), held, root, Down(va), k, ppn, perm.(v := true))
      ensures r == Mapped ==> size > 0 && k == SpanPages(va, size) && Down(va) + k <= MAXPAGE
      ensures r != Mapped ==> size == 0 || k < SpanPages(va, size)
      ensures r == NoMemory ==> freelist == [] && |old(freelist)| < 2 * (k + 1)
      ensures |freelist| >= |old(freelist)| - 2 * SpanPages(va, size)
      ensures r == Panic ==> size == 0 || Down(va) + k >= MAXPAGE || old(Translate(S(), root, Down(va) + k)).Some?
    {
      hide Shape, Closed, Bijection, Pool, Backed, MapProgress, Translate, Given, SpanPages, Sized, Down;
      ghost var s0, h0 := S(), held;
      MapProgressStart(s0, h0, root, Down(va), ppn, perm.(v := true));
      k := 0;
      if size == 0 { return Panic, 0; }
      SpanLast(va, size);
      var a, last := Down(va), Down((va + size - 1) % WORD);
      var v := a;
      while true
        invariant a <= v && k == v - a < SpanPages(va, size) && (v > a ==> v <= MAXPAGE)
        invariant Valid() && Node(root, 2, 0) in where
        invariant MapProgress(s0, h0, S(), held, root, a, k, ppn, perm.(v := true))
        invariant |freelist| >= |old(freelist)| - 2 * k
        decreases MAXPAGE - v
      {
        r := MapNext(root, a, v - a, ppn, perm, s0, h0, SpanPages(va, size));
        if r != Mapped { return; }
        k := k + 1;
        if v == last { return; }
        v := v + 1;
      }
    }

    // ---- uvmunmap ----

    /** The stores of one round of uvmunmap: the page is freed, then the entry is cleared. */
    method EraseLeaf(root: nat, v: nat, page: nat, i: nat, doFree: bool)
      requires Backed(S()) && Bottom(root, v) in where && page == where[Bottom(root, v)] && i == Ix(v)
      requires page in mem && i < |mem[page]| && (doFree ==> v < TRAPFRAME)
      requires v < TRAPFRAME ==> User(root, v) in where && where[User(root, v)] == mem[page][i].ppn
                                 && mem[page][i].ppn != page && mem[page][i].ppn !in held
      requires Pool(pages, if v < TRAPFRAME then Forget(S(), User(root, v)) else S(), freelist,
                    if v < TRAPFRAME then held + {mem[page][i].ppn} else held)
      modifies this
      ensures S() == Unmapped1(old(S()), root, v, doFree)
      ensures freelist == if doFree then [old(mem[page][i].ppn)] + old(freelist) else old(freelist)
      ensures held == if v < TRAPFRAME && !doFree then old(held) + {old(mem[page][i].ppn)} else old(held)
    {
      hide Backed, Bottom, Ix, Pool;
      var pa := mem[page][i].ppn;
      if v < TRAPFRAME {
        where := where - {User(root, v)};
        owner := owner - {pa};
        held := held + {pa};
      }
      if doFree {
        Kfree(pa);
      }
      mem := mem[page := mem[page][i := Zero()]];
    }

    /** One round of uvmunmap; it panics exactly where nothing is mapped. The panic on an entry
        that is no leaf is never reached. */
    method UnmapOne(root: nat, v: nat, doFree: bool) returns (panic: bool)
      requires Valid() && Node(root, 2, 0) in where && (doFree ==> v < TRAPFRAME)
      modifies this
      ensures Valid() && Node(root, 2, 0) in where
      ensures panic <==> old(Translate(S(), root, v)) == None
      ensures panic ==> S() == old(S()) && held == old(held) && freelist == old(freelist)
      ensures !panic ==>
                && held == (if v < TRAPFRAME && !doFree then old(held) + {old(Translate(S(), root, v)).value.ppn} else old(held))
                && RangeUpdate(old(S()), S(), old(held), root, v, v + 1) && Translate(S(), root, v) == None
    {
      ghost var s0, h0 := S(), held;
      if v >= MAXPAGE {
        PastTheTop(s0, root, v);
        return true;
      }
      var pte := Walk(root, v, false);
      if pte == Null { UnmappedWithout(s0, root, v); return true; }
      PteAt(s0, root, v);
      var page, i := pte.page, pte.i;
      if !mem[page][i].f.v { return true; }
      LeafMapped(s0, root, v);
      if NotLeaf(mem[page][i].f) { assert false; return true; }
      UnmapStep(pages, s0, freelist, h0, root, v, doFree);
      hide Shape, Closed, Bijection, Backed, RangeUpdate, Translate, Frame, Bottom, Ix, Pool;
      EraseLeaf(root, v, page, i, doFree);
      return false;
    }
  }

  /** PTE_FLAGS(*pte) == PTE_V. */
  predicate NotLeaf(f: Flags) { f.v && !f.r && !f.w && !f.x && !f.u && f.rest == 0 }

  lemma LeafMapped(s: Memory, root: nat, v: nat)
    requires Shape(s, {}) && Translate(s, root, v).Some?
    ensures !NotLeaf(Translate(s, root, v).value.f)
  {
    assert LeafOk(s, root, v);
  }

  lemma PastTheTop(s: Memory, root: nat, v: nat)
    requires Backed(s) && v >= MAXPAGE
    ensures Translate(s, root, v) == None
  {
    assert Bottom(root, v) in s.where ==> GoodRole(Bottom(root, v), s.where[Bottom(root, v)]);
  }

  const WORD: nat := 0x1_0000_0000_0000_0000

  /** How many pages lie from va to the last byte of `size` bytes, going up, in 64-bit addresses. */
  function SpanPages(va: nat, size: nat): nat
    requires va < WORD
  {
    var last := Down((va + size - 1) % WORD);
    if size == 0 then 0 else if Down(va) <= last then last - Down(va) + 1 else WORD / 4096 - Down(va) + last + 1
  }

  /** Without a wrap the span is that of the addresses va..va + size. */
  lemma SpanCovers(va: nat, size: nat)
    requires 0 < size && va + size <= WORD
    ensures SpanPages(va, size) == Up(va + size) - Down(va)
  {
  }

  /** The span ends at its last page, and one that wraps around passes MAXVA first. */
  lemma SpanLast(va: nat, size: nat)
    requires va < WORD && 0 < size < WORD
    ensures SpanPages(va, size) > 0
    ensures var last := Down((va + size - 1) % WORD);
            if Down(va) <= last then SpanPages(va, size) == last - Down(va) + 1
            else Down(va) + SpanPages(va, size) > MAXPAGE + 1
  {
  }

  /** Page numbers lo..hi map consecutive pages from ppn. */
  ghost predicate MapsTo(s: Memory, root: nat, lo: nat, hi: nat, ppn: nat, f: Flags)
    requires Backed(s)
  {
    forall v: nat :: lo <= v < hi ==> Translate(s, root, v) == Some(Pte(ppn + v - lo, f))
  }

  /** The pages a tree takes over when k pages from ppn are mapped at page number a. */
  ghost function Given(ppn: nat, a: nat, k: nat): set<nat> {
    if k == 0 then {}
    else Given(ppn, a, k - 1) + if a + k - 1 < TRAPFRAME then {ppn + k - 1} else {}
  }

  lemma {:induction false} GivenBelow(ppn: nat, a: nat, k: nat)
    ensures forall p :: p in Given(ppn, a, k) ==> p < ppn + k
  {
    if k > 0 { GivenBelow(ppn, a, k - 1); }
  }

  lemma {:induction false} GivenLonger(ppn: nat, a: nat, k: nat, n: nat)
    requires k < n
    ensures Given(ppn, a, k) <= Given(ppn, a, n)
    ensures a + k < TRAPFRAME ==> ppn + k in Given(ppn, a, n)
    decreases n
  {
    if k < n - 1 { GivenLonger(ppn, a, k, n - 1); }
  }

  /** mappages has mapped k pages so far, and done nothing else. */
  ghost predicate MapProgress(s0: Memory, h0: set<nat>, s: Memory, h: set<nat>, root: nat, a: nat, k: nat,
                              ppn: nat, f: Flags)
  {
    && RangeUpdate(s0, s, h, root, a, a + k)
    && MapsTo(s, root, a, a + k, ppn, f)
    && h == h0 - Given(ppn, a, k)
  }

  lemma MapProgressStart(s: Memory, h: set<nat>, root: nat, a: nat, ppn: nat, f: Flags)
    requires Shape(s, {})
    ensures MapProgress(s, h, s, h, root, a, 0, ppn, f) && Backed(s)
  {
    RangeRefl(s, h, root);
    hide Backed, Translate, Frame, SameUser;
    RangeWider(s, s, h, root, 0, 0, a, a);
  }

  lemma MapProgressNext(s0: Memory, h0: set<nat>, s: Memory, h: set<nat>, root: nat, a: nat, k: nat,
                        ppn: nat, f: Flags, n: nat)
    requires MapProgress(s0, h0, s, h, root, a, k, ppn, f) && k < n && Given(ppn, a, n) <= h0
    ensures a + k < TRAPFRAME ==> ppn + k in h
    ensures Backed(s0) && Backed(s) && Translate(s, root, a + k) == Translate(s0, root, a + k)
  {
    GivenBelow(ppn, a, k);
    GivenLonger(ppn, a, k, n);
    hide Backed, Translate, Frame, SameUser;
  }

  lemma MapProgressFail(s0: Memory, h0: set<nat>, s1: Memory, h1: set<nat>, s2: Memory, root: nat, a: nat, k: nat,
                        ppn: nat, f: Flags)
    requires MapProgress(s0, h0, s1, h1, root, a, k, ppn, f) && RangeUpdate(s1, s2, h1, root, 0, 0)
    ensures MapProgress(s0, h0, s2, h1, root, a, k, ppn, f)
  {
    RangeWider(s1, s2, h1, root, 0, 0, a, a + k);
    RangeTrans(s0, s1, s2, h1, h1, root, a, a + k);
    assert h1 * h1 == h1;
    hide Backed, Translate, Frame, SameUser;
  }

  lemma MapProgressStep(s0: Memory, h0: set<nat>, s1: Memory, h1: set<nat>, s2: Memory, h2: set<nat>,
                        root: nat, a: nat, k: nat, ppn: nat, f: Flags)
    requires MapProgress(s0, h0, s1, h1, root, a, k, ppn, f)
    requires RangeUpdate(s1, s2, h2, root, a + k, a + k + 1)
    requires h2 == if a + k < TRAPFRAME then h1 - {ppn + k} else h1
    requires Translate(s2, root, a + k) == Some(Pte(ppn + k, f))
    ensures MapProgress(s0, h0, s2, h2, root, a, k + 1, ppn, f)
  {
    hide Backed, Translate, Frame, SameUser;
    RangeJoin(s0, s1, s2, h1, h2, root, a, a + k);
  }

  /** A range update followed by one at its end. */
  lemma RangeJoin(s0: Memory, s1: Memory, s2: Memory, h1: set<nat>, h2: set<nat>, root: nat, a: nat, v: nat)
    requires RangeUpdate(s0, s1, h1, root, a, v) && RangeUpdate(s1, s2, h2, root, v, v + 1) && a <= v && h2 <= h1
    ensures RangeUpdate(s0, s2, h2, root, a, v + 1)
  {
    RangeWider(s0, s1, h1, root, a, v, a, v + 1);
    RangeWider(s1, s2, h2, root, v, v + 1, a, v + 1);
    RangeTrans(s0, s1, s2, h1, h2, root, a, v + 1);
    assert h1 * h2 == h2;
  }

  /** Memory after one round of uvmunmap. */
  ghost function Unmapped1(s: Memory, root: nat, v: nat, doFree: bool): Memory
    requires Backed(s) && Bottom(root, v) in s.where
    requires v < TRAPFRAME ==> User(root, v) in s.where
    requires !doFree || v < TRAPFRAME
  {
    var s1 := if v < TRAPFRAME then Forget(s, User(root, v)) else s;
    var s2 := if doFree then s1.(mem := s1.mem[s.where[User(root, v)] := Junk(1)]) else s1;
    var n := s.where[Bottom(root, v)];
    s2.(mem := s2.mem[n := s.mem[n][Ix(v) := Zero()]])
  }

  lemma UnmapStep(pages: set<nat>, s: Memory, free: seq<nat>, held: set<nat>, root: nat, v: nat, doFree: bool)
    requires Shape(s, {}) && Pool(pages, s, free, held) && v < MAXPAGE && Translate(s, root, v).Some?
    requires doFree ==> v < TRAPFRAME
    ensures Bottom(root, v) in s.where
    ensures var pa := Translate(s, root, v).value.ppn;
            var h' := if v < TRAPFRAME then held + {pa} else held;
            && (v < TRAPFRAME ==> User(root, v) in s.where && pa == s.where[User(root, v)]
                                  && pa !in held && pa != s.where[Bottom(root, v)])
            && Pool(pages, if v < TRAPFRAME then Forget(s, User(root, v)) else s, free, h')
            && (var s' := Unmapped1(s, root, v, doFree);
                && Shape(s', {}) && Translate(s', root, v) == None
                && Pool(pages, s', if doFree then [pa] + free else free, if doFree then held else h')
                && RangeUpdate(s, s', held, root, v, v + 1))
  {
    UnmapOwned(s, root, v);
    var pa := Translate(s, root, v).value.ppn;
    ClearLeafKeeps(s, root, v);
    var s1 := ClearLeaf(s, root, v);
    var s' := Unmapped1(s, root, v, doFree);
    UnmapIsClear(s, root, v, doFree);
    if doFree { DataKeeps(s1, pa, Junk(1), {}); }
    UnmapPool(pages, s, free, held, root, v, doFree);
    hide Shape, Closed, Bijection, Bottom, Ix, Translate, RangeUpdate;
    UnmapUpdate(s, s', held, root, v, doFree);
  }

  lemma UnmapOwned(s: Memory, root: nat, v: nat)
    requires Shape(s, {}) && Translate(s, root, v).Some?
    ensures Bottom(root, v) in s.where
    ensures v < TRAPFRAME ==>
              && User(root, v) in s.where && s.where[User(root, v)] == Translate(s, root, v).value.ppn
              && s.where[User(root, v)] != s.where[Bottom(root, v)]
              && s.where[User(root, v)] in s.owner && s.where[User(root, v)] in s.mem
    ensures v >= TRAPFRAME ==> User(root, v) !in s.where
  {
    if v < TRAPFRAME { UserRole(s, root, v); }
  }

  lemma UnmapIsClear(s: Memory, root: nat, v: nat, doFree: bool)
    requires Shape(s, {}) && Translate(s, root, v).Some? && Bottom(root, v) in s.where
    requires doFree ==> v < TRAPFRAME
    requires v < TRAPFRAME ==> User(root, v) in s.where && s.where[User(root, v)] != s.where[Bottom(root, v)]
    requires v >= TRAPFRAME ==> User(root, v) !in s.where
    ensures var s1 := ClearLeaf(s, root, v);
            Unmapped1(s, root, v, doFree)
            == if doFree then s1.(mem := s1.mem[s.where[User(root, v)] := Junk(1)]) else s1
  {
    hide Closed, Bijection, Bottom, Ix, SlotOk, LeafOk, Translate;
  }

  lemma UnmapPool(pages: set<nat>, s: Memory, free: seq<nat>, held: set<nat>, root: nat, v: nat, doFree: bool)
    requires Backed(s) && Pool(pages, s, free, held) && Bottom(root, v) in s.where
    requires doFree ==> v < TRAPFRAME
    requires v < TRAPFRAME ==> User(root, v) in s.where && s.where[User(root, v)] != s.where[Bottom(root, v)]
    ensures v < TRAPFRAME ==> s.where[User(root, v)] !in held
    ensures v < TRAPFRAME ==> Pool(pages, Forget(s, User(root, v)), free, held + {s.where[User(root, v)]})
    ensures Pool(pages, Unmapped1(s, root, v, doFree),
                 if doFree then [s.where[User(root, v)]] + free else free,
                 if v < TRAPFRAME && !doFree then held + {s.where[User(root, v)]} else held)
  {
    hide Closed, Bottom, Ix;
  }

  lemma UnmapUpdate(s: Memory, s': Memory, held: set<nat>, root: nat, v: nat, doFree: bool)
    requires Backed(s) && Backed(s') && Bottom(root, v) in s.where
    requires doFree ==> v < TRAPFRAME
    requires v < TRAPFRAME ==> User(root, v) in s.where && s.where[User(root, v)] !in held
    requires s' == Unmapped1(s, root, v, doFree)
    requires forall p :: p in held ==> p !in s.owner
    requires forall u: nat :: Translate(s', root, u) == if u == v then None else Translate(s, root, u)
    ensures RangeUpdate(s, s', held, root, v, v + 1)
  {
    hide Closed, Bottom, Ix, Translate;
  }

  // ---- what a call may change: a range of one address space ----

  /** Outside page numbers lo..hi of root, no translation, no user page and no held page changed. */
  ghost predicate RangeUpdate(s: Memory, s': Memory, held: set<nat>, root: nat, lo: nat, hi: nat) {
    && Backed(s) && Backed(s') && Frame(s, s', root) && KeptHeld(s, s', held)
    && (forall v: nat :: !(lo <= v < hi) ==> Translate(s', root, v) == Translate(s, root, v))
    && (forall v: nat {:trigger User(root, v)} :: User(root, v) in s.where && !(lo <= v < hi) ==> SameUser(s, s', root, v))
  }

  ghost predicate SameUser(s: Memory, s': Memory, root: nat, v: nat)
    requires User(root, v) in s.where
  {
    && User(root, v) in s'.where && s'.where[User(root, v)] == s.where[User(root, v)]
    && s.where[User(root, v)] in s.mem && s.where[User(root, v)] in s'.mem
    && s'.mem[s.where[User(root, v)]] == s.mem[s.where[User(root, v)]]
  }

  /** The page handed to a tree arrives as it was. */
  ghost predicate KeepsPage(s: Memory, s': Memory, p: nat, given: bool) {
    given ==> p in s.mem && p in s'.mem && s'.mem[p] == s.mem[p]
  }

  lemma RangeRefl(s: Memory, held: set<nat>, root: nat)
    requires Shape(s, {})
    ensures RangeUpdate(s, s, held, root, 0, 0) && Backed(s)
  {
    hide Closed;
  }

  lemma ExtendedUpdate(s: Memory, s': Memory, held: set<nat>, root: nat)
    requires Extended(s, s', held, root)
    ensures RangeUpdate(s, s', held, root, 0, 0)
    ensures forall t :: t in s.where ==> t in s'.where
  {
    hide Closed, Bijection, Sized, Translate, Frame, KeptHeld;
  }

  lemma RangeWider(s: Memory, s': Memory, held: set<nat>, root: nat, lo: nat, hi: nat, lo': nat, hi': nat)
    requires RangeUpdate(s, s', held, root, lo, hi) && (lo >= hi || lo' <= lo <= hi <= hi')
    ensures RangeUpdate(s, s', held, root, lo', hi')
  {
    hide Closed, Bijection, Sized, Translate, Frame, KeptHeld, SameUser, Backed;
  }

  lemma RangeTrans(s: Memory, s1: Memory, s2: Memory, held: set<nat>, held': set<nat>, root: nat, lo: nat, hi: nat)
    requires RangeUpdate(s, s1, held, root, lo, hi) && RangeUpdate(s1, s2, held', root, lo, hi)
    ensures RangeUpdate(s, s2, held * held', root, lo, hi)
  {
    FrameTrans(s, s1, s2, root);
    hide Closed, Bijection, Sized, Translate, Frame;
    assert KeptHeld(s, s2, held * held');
    forall v: nat | User(root, v) in s.where && !(lo <= v < hi) ensures SameUser(s, s2, root, v) {
      assert SameUser(s, s1, root, v) && SameUser(s1, s2, root, v);
    }
  }

  lemma OutsideSame(s: Memory, s': Memory, h: set<nat>, root: nat, lo: nat, hi: nat, v: nat)
    requires RangeUpdate(s, s', h, root, lo, hi) && !(lo <= v < hi)
    ensures Backed(s) && Backed(s') && Translate(s', root, v) == Translate(s, root, v)
  {
    hide Backed, Translate, Frame, SameUser;
  }

  lemma UnmappedWithout(s: Memory, root: nat, v: nat)
    requires Shape(s, {}) && Bottom(root, v) !in s.where
    ensures Backed(s) && Translate(s, root, v) == None
  {
  }

  lemma PteAt(s: Memory, root: nat, v: nat)
    requires Shape(s, {}) && Bottom(root, v) in s.where
    ensures Backed(s) && s.where[Bottom(root, v)] in s.mem && |s.mem[s.where[Bottom(root, v)]]| == ENTRIES
    ensures var e := s.mem[s.where[Bottom(root, v)]][Ix(v)];
            Translate(s, root, v) == if e.f.v then Some(e) else None
  {
    RoleInMemory(s, Bottom(root, v));
  }

  /** Below TRAPFRAME a page number is mapped exactly when the tree owns a page for it. */
  lemma UserRole(s: Memory, root: nat, v: nat)
    requires Shape(s, {}) && v < TRAPFRAME
    ensures Translate(s, root, v).Some? <==> User(root, v) in s.where
    ensures Translate(s, root, v).Some? ==>
              IsLeaf(Translate(s, root, v).value) && Translate(s, root, v).value.ppn == s.where[User(root, v)]
  {
    assert LeafOk(s, root, v);
    assert Parent(User(root, v)) == Bottom(root, v);
  }

  lemma SetLeafReady(pages: set<nat>, s: Memory, free: seq<nat>, held: set<nat>, root: nat, v: nat, e: Pte)
    requires Shape(s, {}) && Pool(pages, s, free, held)
    requires Bottom(root, v) in s.where && Translate(s, root, v) == None && e.f.v && IsLeaf(e)
    requires v < TRAPFRAME ==> e.ppn in held
    ensures Backed(s) && CanSetLeaf(s, root, v, e) && Backed(SetLeaf(s, root, v, e))
    ensures forall t :: t in s.where ==> t in SetLeaf(s, root, v, e).where
  {
    if v < TRAPFRAME { UserRole(s, root, v); }
    SetLeafKeeps(s, root, v, e);
    hide Closed, Bijection, Translate;
  }

  lemma SetLeafStep(pages: set<nat>, s0: Memory, s: Memory, free: seq<nat>, held: set<nat>, root: nat, v: nat, e: Pte)
    requires Shape(s, {}) && Pool(pages, s, free, held) && RangeUpdate(s0, s, held, root, 0, 0)
    requires Bottom(root, v) in s.where && Translate(s, root, v) == None && e.f.v && IsLeaf(e)
    requires v < TRAPFRAME ==> e.ppn in held
    ensures CanSetLeaf(s, root, v, e)
    ensures var s' := SetLeaf(s, root, v, e);
            var h' := if v < TRAPFRAME then held - {e.ppn} else held;
            && Shape(s', {}) && Pool(pages, s', free, h')
            && RangeUpdate(s0, s', h', root, v, v + 1) && Translate(s', root, v) == Some(e)
            && KeepsPage(s0, s', e.ppn, v < TRAPFRAME)
            && forall t :: t in s.where ==> t in s'.where
  {
    hide Shape, Backed, Closed, CanSetLeaf, Bottom, Frame, SameUser, Translate, SetLeaf, Bijection;
    SetLeafReady(pages, s, free, held, root, v, e);
    SetLeafKeeps(s, root, v, e);
    var s' := SetLeaf(s, root, v, e);
    var h' := if v < TRAPFRAME then held - {e.ppn} else held;
    SetLeafUpdate(pages, s, free, held, root, v, e);
    RangeWider(s0, s, held, root, 0, 0, v, v + 1);
    RangeTrans(s0, s, s', held, h', root, v, v + 1);
    assert held * h' == h';
  }

  lemma SetLeafUpdate(pages: set<nat>, s: Memory, free: seq<nat>, held: set<nat>, root: nat, v: nat, e: Pte)
    requires CanSetLeaf(s, root, v, e) && Pool(pages, s, free, held)
    requires v < TRAPFRAME ==> e.ppn in held
    requires Backed(SetLeaf(s, root, v, e))
    requires forall r': nat, v': nat :: Translate(SetLeaf(s, root, v, e), r', v')
                             == if (r', v') == (root, v) then Some(e) else Translate(s, r', v')
    ensures var s' := SetLeaf(s, root, v, e);
            var h' := if v < TRAPFRAME then held - {e.ppn} else held;
            Pool(pages, s', free, h') && RangeUpdate(s, s', h', root, v, v + 1)
            && (v < TRAPFRAME ==> s'.mem[e.ppn] == s.mem[e.ppn])
  {
    hide Closed, Ix, Bottom, Translate;
  }

  lemma WalkSlot(s: Memory, root: nat, level: nat, v: nat)
    requires Shape(s, {}) && 0 < level <= 2 && v < MAXPAGE && OnPath(root, level, v) in s.where
    ensures var t := OnPath(root, level - 1, v);
            && t.Node? && t.level == level - 1 && t.root == root && GoodRole(t, 0)
            && Parent(t) == OnPath(root, level, v) && Ix(t.c) == Px(level, v)
            && s.where[Parent(t)] in s.mem && |s.mem[s.where[Parent(t)]]| == ENTRIES
            && var e := s.mem[s.where[Parent(t)]][Px(level, v)];
            && (e.f.v <==> t in s.where) && (e.f.v ==> e.ppn == s.where[t])
  {
    PathStep(root, level, v);
    RoleInMemory(s, OnPath(root, level, v));
    assert SlotOk(s, root, level - 1, OnPath(root, level - 1, v).c);
    hide Closed, Bijection, Shape;
  }

  lemma PathClosed(s: Memory, root: nat, v: nat)
    requires Shape(s, {}) && v < MAXPAGE
    ensures Bottom(root, v) == OnPath(root, 0, v)
    ensures OnPath(root, 1, v) !in s.where ==> Bottom(root, v) !in s.where
    ensures Bottom(root, v) in s.where ==> OnPath(root, 1, v) in s.where
    ensures Node(root, 2, 0) in s.where ==> s.where[Node(root, 2, 0)] == root
  {
    assert Parent(Bottom(root, v)) == OnPath(root, 1, v);
  }

  /** The trees grew, but no address means anything new and no data changed. */
  ghost predicate Extended(s: Memory, s': Memory, held: set<nat>, root: nat) {
    && Backed(s) && Backed(s') && Grown(s, s', root) && KeptHeld(s, s', held)
    && forall r: nat, v: nat :: Translate(s', r, v) == Translate(s, r, v)
  }

  lemma ExtendedRefl(s: Memory, held: set<nat>, root: nat)
    requires Shape(s, {})
    ensures Extended(s, s, held, root)
  {
  }

  lemma ExtendedTrans(s: Memory, s1: Memory, s2: Memory, held: set<nat>, root: nat)
    requires Extended(s, s1, held, root) && Extended(s1, s2, held, root)
    ensures Extended(s, s2, held, root)
  {
    GrownTrans(s, s1, s2, root);
    hide Grown, Closed, Bijection, Sized;
  }

  /** Pages the kernel holds keep their contents. */
  ghost predicate KeptHeld(s: Memory, s': Memory, held: set<nat>) {
    && s'.mem.Keys == s.mem.Keys
    && forall p :: p in held && p in s.mem ==> p in s'.mem && s'.mem[p] == s.mem[p]
  }

  lemma NewNodeStep(pages: set<nat>, s: Memory, free: seq<nat>, held: set<nat>, t: Role, p: nat)
    requires Shape(s, {}) && Pool(pages, s, [p] + free, held)
    requires t.Node? && t.level < 2 && Parent(t) in s.where && t !in s.where && GoodRole(t, 0)
    ensures p in s.mem && |s.mem[s.where[Parent(t)]]| == ENTRIES
    ensures var s1 := s.(mem := s.mem[p := Junk(5)]);
            && CanAddNode(s1, t, p) && s.where[Parent(t)] != p && s.where[Parent(t)] in s.mem
            && Shape(AddNode(s1, t, p), {}) && Pool(pages, AddNode(s1, t, p), free, held)
            && Extended(s, AddNode(s1, t, p), held, t.root)
  {
    var s1 := s.(mem := s.mem[p := Junk(5)]);
    TakeFree(pages, s, free, held, p);
    RoleInMemory(s, Parent(t));
    DataKeeps(s, p, Junk(5), {});
    DataFrame(s, p, Junk(5), t.root);
    NewNodePool(pages, s, free, held, t, p);
    hide Pool, Translate, KeptHeld, Closed, Bijection;
    AddNodeKeeps(s1, t, p);
    AddNodeGrown(s1, t, p);
    GrownTrans(s, s1, AddNode(s1, t, p), t.root);
  }

  lemma TakeFree(pages: set<nat>, s: Memory, free: seq<nat>, held: set<nat>, p: nat)
    requires Pool(pages, s, [p] + free, held)
    ensures p in s.mem && p !in s.owner && p !in held && p !in free
  {
    assert ([p] + free)[0] == p;
    assert forall i :: 0 <= i < |free| ==> free[i] == ([p] + free)[i + 1];
  }

  lemma NewNodePool(pages: set<nat>, s: Memory, free: seq<nat>, held: set<nat>, t: Role, p: nat)
    requires Shape(s, {}) && Pool(pages, s, [p] + free, held)
    requires t.Node? && t.level < 2 && Parent(t) in s.where && t !in s.where && GoodRole(t, 0)
    ensures var s1 := s.(mem := s.mem[p := Junk(5)]);
            && CanAddNode(s1, t, p) && s.where[Parent(t)] != p
            && Pool(pages, AddNode(s1, t, p), free, held)
            && KeptHeld(s, AddNode(s1, t, p), held)
  {
    TakeFree(pages, s, free, held, p);
    RoleInMemory(s, Parent(t));
    hide Closed, Ix, Above, SlotOk, LeafOk, Translate;
    var s1 := s.(mem := s.mem[p := Junk(5)]);
    var s2 := AddNode(s1, t, p);
    assert s2.mem.Keys == s.mem.Keys;
    forall i, j | 0 <= i < j < |free| ensures free[i] != free[j] {
      assert ([p] + free)[i + 1] == free[i] && ([p] + free)[j + 1] == free[j];
    }
    forall q ensures q in pages <==> q in free || q in s2.owner || q in held {
      assert q in [p] + free <==> q == p || q in free;
    }
  }
}
