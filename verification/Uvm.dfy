/** User address spaces of Lab3/xv6-riscv/kernel/vm.c: unmapping, growing, shrinking and
    copying ranges of pages. Every call says which range of which space it changes, and a
    call that fails leaves every translation and every page of data as it was. */
module Uvm {
  import opened Wrappers
  import opened PageTable
  import opened Vm

  ghost predicate MappedRange(s: Memory, root: nat, lo: nat, hi: nat) {
    Backed(s) && forall v: nat :: lo <= v < hi ==> Translate(s, root, v).Some?
  }

  ghost predicate NoneRange(s: Memory, root: nat, lo: nat, hi: nat) {
    Backed(s) && forall v: nat :: lo <= v < hi ==> Translate(s, root, v) == None
  }

  /** A user space of n pages, with nothing above it below TRAPFRAME. */
  ghost predicate Space(s: Memory, root: nat, n: nat) {
    n <= TRAPFRAME && MappedRange(s, root, 0, n) && NoneRange(s, root, n, TRAPFRAME)
  }

  // ---- uvmunmap ----

  /** uvmunmap has come from page number lo to v. */
  ghost predicate UnmapProgress(s0: Memory, h0: set<nat>, s: Memory, root: nat, lo: nat, v: nat) {
    && lo <= v && RangeUpdate(s0, s, h0, root, lo, v)
    && NoneRange(s, root, lo, v) && MappedRange(s0, root, lo, v)
  }

  lemma UnmapStart(s: Memory, h: set<nat>, root: nat, lo: nat)
    requires Shape(s, {})
    ensures UnmapProgress(s, h, s, root, lo, lo) && Backed(s)
  {
    RangeRefl(s, h, root);
    RangeWider(s, s, h, root, 0, 0, lo, lo);
  }

  lemma UnmapProgressStep(s0: Memory, h0: set<nat>, s1: Memory, h1: set<nat>, s2: Memory, root: nat, lo: nat, v: nat)
    requires UnmapProgress(s0, h0, s1, root, lo, v) && h0 <= h1 && Backed(s1) && Translate(s1, root, v).Some?
    requires RangeUpdate(s1, s2, h1, root, v, v + 1) && Translate(s2, root, v) == None
    ensures UnmapProgress(s0, h0, s2, root, lo, v + 1)
  {
    OutsideSame(s0, s1, h0, root, lo, v, v);
    hide Backed, Translate, Frame, SameUser;
    RangeWider(s0, s1, h0, root, lo, v, lo, v + 1);
    RangeWider(s1, s2, h1, root, v, v + 1, lo, v + 1);
    RangeTrans(s0, s1, s2, h0, h1, root, lo, v + 1);
    assert h0 * h1 == h0;
  }

  /** uvmunmap. It panics exactly when some page of the range is not mapped: at the first one, a,
      when the pages below have been unmapped. */
  method UvmUnmap(k: Kernel, root: nat, va: nat, npages: nat, doFree: bool) returns (panic: bool, ghost a: nat)
    requires k.Valid() && Node(root, 2, 0) in k.where && (doFree ==> va + npages <= TRAPFRAME)
    modifies k
    ensures k.Valid() && Node(root, 2, 0) in k.where && va <= a <= va + npages
    ensures panic <==> !old(MappedRange(k.S(), root, va, va + npages))
    ensures UnmapProgress(old(k.S()), old(k.held), k.S(), root, va, a)
    ensures if panic then a < va + npages && old(Translate(k.S(), root, a)) == None else a == va + npages
    ensures doFree || va >= TRAPFRAME ==> k.held == old(k.held)
  {
    hide Shape, Pool, RangeUpdate, NoneRange, Translate, Closed, Bijection;
    ghost var s0, h0 := k.S(), k.held;
    UnmapStart(s0, h0, root, va);
    var v := va;
    while v < va + npages
      invariant va <= v <= va + npages && k.Valid() && Node(root, 2, 0) in k.where
      invariant UnmapProgress(s0, h0, k.S(), root, va, v)
      invariant h0 <= k.held && (doFree || va >= TRAPFRAME ==> k.held == h0)
    {
      ghost var s1, h1 := k.S(), k.held;
      OutsideSame(s0, s1, h0, root, va, v, v);
      panic := k.UnmapOne(root, v, doFree);
      if panic { return true, v; }
      UnmapProgressStep(s0, h0, s1, h1, k.S(), root, va, v);
      v := v + 1;
    }
    return false, v;
  }

  /** uvmdealloc returns the new size; its panic is that of uvmunmap. */
  method UvmDealloc(k: Kernel, root: nat, oldsz: nat, newsz: nat) returns (sz: nat, panic: bool)
    requires k.Valid() && Node(root, 2, 0) in k.where && (newsz < oldsz ==> Up(oldsz) <= TRAPFRAME)
    modifies k
    ensures k.Valid() && Node(root, 2, 0) in k.where && k.held == old(k.held)
    ensures panic <==> newsz < oldsz && !old(MappedRange(k.S(), root, Up(newsz), Up(oldsz)))
    ensures sz == if newsz >= oldsz then oldsz else newsz
    ensures RangeUpdate(old(k.S()), k.S(), k.held, root, Up(newsz), Up(oldsz))
    ensures newsz >= oldsz ==> k.S() == old(k.S())
    ensures newsz < oldsz && !panic ==> NoneRange(k.S(), root, Up(newsz), Up(oldsz))
  {
    hide Shape, Pool, RangeUpdate, Translate, Closed, Bijection;
    ghost var s0 := k.S();
    UpMonotone(newsz, oldsz);
    RangeSame(s0, k.held, root, Up(newsz), Up(oldsz));
    if newsz >= oldsz { return oldsz, false; }
    panic := false;
    if Up(newsz) < Up(oldsz) {
      var npages := Up(oldsz) - Up(newsz);
      ghost var a;
      panic, a := UvmUnmap(k, root, Up(newsz), npages, true);
      RangeWider(s0, k.S(), k.held, root, Up(newsz), a, Up(newsz), Up(oldsz));
    }
    return newsz, panic;
  }

  lemma UpMonotone(a: nat, b: nat)
    ensures a <= b ==> Up(a) <= Up(b)
    ensures b <= a ==> Up(b) <= Up(a)
  {
  }

  lemma RangeSame(s: Memory, h: set<nat>, root: nat, lo: nat, hi: nat)
    requires Shape(s, {})
    ensures RangeUpdate(s, s, h, root, lo, hi) && Backed(s)
  {
    RangeRefl(s, h, root);
    if lo <= hi { RangeWider(s, s, h, root, 0, 0, lo, hi); } else { RangeWider(s, s, h, root, 0, 0, hi, hi); }
  }

  // ---- uvmalloc ----

  /** Page number v of root maps a page with flags f and contents data. */
  ghost predicate MapsData(s: Memory, root: nat, v: nat, f: Flags, data: Page) {
    && Backed(s) && Translate(s, root, v).Some? && Translate(s, root, v).value.f == f
    && Translate(s, root, v).value.ppn in s.mem && s.mem[Translate(s, root, v).value.ppn] == data
  }

  /** Writing to a page the kernel has just taken changes nothing anybody sees. */
  lemma PrivatePage(s: Memory, p: nat, data: Page, h: set<nat>, root: nat)
    requires Shape(s, {}) && p in s.mem && p !in s.owner && p !in h && |data| == ENTRIES
    ensures var s' := s.(mem := s.mem[p := data]);
            && Shape(s', {}) && RangeUpdate(s, s', h, root, 0, 0)
            && forall r: nat, v: nat :: Translate(s', r, v) == Translate(s, r, v)
  {
    DataKeeps(s, p, data, {});
    PrivateUpdate(s, p, data, h, root);
  }

  lemma PrivateUpdate(s: Memory, p: nat, data: Page, h: set<nat>, root: nat)
    requires Backed(s) && p in s.mem && p !in s.owner && p !in h && |data| == ENTRIES
    requires Backed(s.(mem := s.mem[p := data]))
    requires forall r: nat, v: nat :: Translate(s.(mem := s.mem[p := data]), r, v) == Translate(s, r, v)
    ensures RangeUpdate(s, s.(mem := s.mem[p := data]), h, root, 0, 0)
  {
    hide Closed, Translate;
  }

  lemma PoolData(pages: set<nat>, s: Memory, free: seq<nat>, held: set<nat>, p: nat, data: Page)
    requires Pool(pages, s, free, held) && p in held && |data| == ENTRIES
    ensures p in s.mem && p !in s.owner
    ensures Pool(pages, s.(mem := s.mem[p := data]), free, held)
  {
    assert s.mem[p := data].Keys == s.mem.Keys;
  }

  /** kalloc, then memset or memmove into the new page. */
  method TakePage(k: Kernel, data: Page, ghost root: nat) returns (p: Option<nat>)
    requires k.Valid() && |data| == ENTRIES
    modifies k
    ensures k.Valid() && k.where == old(k.where) && RangeUpdate(old(k.S()), k.S(), old(k.held), root, 0, 0)
    ensures forall r: nat, v: nat :: Translate(k.S(), r, v) == old(Translate(k.S(), r, v))
    ensures p == None ==> k.held == old(k.held) && k.S() == old(k.S()) && k.freelist == old(k.freelist) == []
    ensures p.Some? ==> p.value !in old(k.held) && k.held == old(k.held) + {p.value}
                        && p.value in k.mem && k.mem[p.value] == data
                        && old(k.freelist) == [p.value] + k.freelist
  {
    hide Shape, Pool, RangeUpdate, Translate, Closed, Bijection, Sized, Backed;
    ghost var s0, h0 := k.S(), k.held;
    RangeSame(s0, h0, root, 0, 0);
    p := k.Kalloc();
    if p == None { return; }
    ghost var s1 := k.S();
    TakenPage(k.pages, s0, s1, k.freelist, h0, p.value, data, root);
    k.mem := k.mem[p.value := data];
  }

  lemma TakenPage(pages: set<nat>, s0: Memory, s1: Memory, free: seq<nat>, h0: set<nat>, p: nat, data: Page, root: nat)
    requires Shape(s0, {}) && |data| == ENTRIES && p in s0.mem && p !in s0.owner && p !in h0
    requires s1 == s0.(mem := s0.mem[p := Junk(5)]) && Pool(pages, s1, free, h0 + {p})
    ensures var s2 := s1.(mem := s1.mem[p := data]);
            && Shape(s2, {}) && Pool(pages, s2, free, h0 + {p}) && RangeUpdate(s0, s2, h0, root, 0, 0)
            && forall r: nat, v: nat :: Translate(s2, r, v) == Translate(s0, r, v)
  {
    PoolData(pages, s1, free, h0 + {p}, p, data);
    PrivatePage(s0, p, data, h0, root);
    assert s1.mem[p := data] == s0.mem[p := data];
  }

  /** A page is taken, filled and mapped at v; or else nothing has changed. The page is lost in a
      panic, where v is mapped already or past the top. */
  method MapNewPage(k: Kernel, root: nat, v: nat, data: Page, perm: Flags) returns (r: MapResult)
    requires k.Valid() && Node(root, 2, 0) in k.where && |data| == ENTRIES && (perm.r || perm.w || perm.x)
    requires TRAPFRAME <= v < MAXPAGE ==> Translate(k.S(), root, v).Some?
    modifies k
    ensures k.Valid() && Node(root, 2, 0) in k.where && (r != Panic ==> k.held == old(k.held))
    ensures r == Panic ==> v >= MAXPAGE || old(Translate(k.S(), root, v)).Some?
    ensures r == Mapped ==> v < TRAPFRAME && old(Translate(k.S(), root, v)) == None
                            && RangeUpdate(old(k.S()), k.S(), old(k.held), root, v, v + 1)
                            && MapsData(k.S(), root, v, perm.(v := true), data)
    ensures r != Mapped ==> RangeUpdate(old(k.S()), k.S(), old(k.held), root, 0, 0)
    ensures |k.freelist| >= |old(k.freelist)| - 3 && (r == NoMemory ==> |old(k.freelist)| < 3)
  {
    hide Shape, Pool, RangeUpdate, Translate, Closed, Bijection, Sized, Backed;
    ghost var s0, h0 := k.S(), k.held;
    var p := TakePage(k, data, root);
    if p == None { return NoMemory; }
    ghost var s1 := k.S();
    r := k.MapOne(root, v, p.value, perm);
    ghost var s2, h2 := k.S(), k.held;
    if r == NoMemory {
      FreedPage(k.pages, s0, s1, s2, k.freelist, h0, p.value, root);
      k.Kfree(p.value);
    } else {
      JoinUpdates(s0, s1, s2, h0, h2, root, if r == Mapped then v else 0, if r == Mapped then v + 1 else 0);
    }
  }

  /** Private work, then an update of a range. */
  lemma JoinUpdates(s0: Memory, s1: Memory, s2: Memory, h0: set<nat>, h2: set<nat>, root: nat, lo: nat, hi: nat)
    requires RangeUpdate(s0, s1, h0, root, 0, 0) && RangeUpdate(s1, s2, h2, root, lo, hi) && lo <= hi && h0 <= h2
    ensures RangeUpdate(s0, s2, h0, root, lo, hi)
    ensures Backed(s2)
  {
    RangeWider(s0, s1, h0, root, 0, 0, lo, hi);
    RangeTrans(s0, s1, s2, h0, h2, root, lo, hi);
    assert h0 * h2 == h0;
  }

  lemma FreedPage(pages: set<nat>, s0: Memory, s1: Memory, s2: Memory, free: seq<nat>, h0: set<nat>, p: nat, root: nat)
    requires Shape(s2, {}) && Pool(pages, s2, free, h0 + {p}) && p !in h0
    requires RangeUpdate(s0, s1, h0, root, 0, 0) && RangeUpdate(s1, s2, h0 + {p}, root, 0, 0)
    ensures var s3 := s2.(mem := s2.mem[p := Junk(1)]);
            Shape(s3, {}) && RangeUpdate(s0, s3, h0, root, 0, 0)
  {
    PoolData(pages, s2, free, h0 + {p}, p, Junk(1));
    PrivatePage(s2, p, Junk(1), h0, root);
    var s3 := s2.(mem := s2.mem[p := Junk(1)]);
    hide Shape, Pool, RangeUpdate, Translate;
    JoinUpdates(s0, s1, s2, h0, h0 + {p}, root, 0, 0);
    JoinUpdates(s0, s2, s3, h0, h0, root, 0, 0);
  }

  ghost predicate FreshRange(s: Memory, root: nat, lo: nat, hi: nat, f: Flags) {
    forall v: nat :: lo <= v < hi ==> MapsData(s, root, v, f, ZeroPage())
  }

  /** uvmalloc has grown root from page number lo to v. */
  ghost predicate GrowProgress(s0: Memory, h0: set<nat>, s: Memory, root: nat, lo: nat, v: nat, f: Flags) {
    && lo <= v && (lo < v ==> v <= TRAPFRAME) && RangeUpdate(s0, s, h0, root, lo, v)
    && FreshRange(s, root, lo, v, f) && NoneRange(s0, root, lo, v)
  }

  lemma GrowStart(s: Memory, h: set<nat>, root: nat, lo: nat, f: Flags)
    requires Shape(s, {})
    ensures GrowProgress(s, h, s, root, lo, lo, f) && Backed(s)
  {
    RangeSame(s, h, root, lo, lo);
  }

  lemma GrowStep(s0: Memory, h: set<nat>, s1: Memory, s2: Memory, root: nat, lo: nat, v: nat, f: Flags)
    requires GrowProgress(s0, h, s1, root, lo, v, f) && v < TRAPFRAME && Shape(s1, {}) && Translate(s1, root, v) == None
    requires RangeUpdate(s1, s2, h, root, v, v + 1) && MapsData(s2, root, v, f, ZeroPage())
    ensures GrowProgress(s0, h, s2, root, lo, v + 1, f)
  {
    RangeJoin(s0, s1, s2, h, h, root, lo, v);
    OutsideSame(s0, s1, h, root, lo, v, v);
    forall u: nat | lo <= u < v ensures MapsData(s2, root, u, f, ZeroPage()) {
      assert MapsData(s1, root, u, f, ZeroPage());
      DataStays(s1, s2, h, root, v, v + 1, u, f, ZeroPage());
    }
    hide Frame, SameUser, Backed, Translate, MapsData;
  }

  /** Pages outside the range of an update keep their flags and contents. */
  lemma DataStays(s1: Memory, s2: Memory, h: set<nat>, root: nat, lo: nat, hi: nat, u: nat, f: Flags, data: Page)
    requires Shape(s1, {}) && RangeUpdate(s1, s2, h, root, lo, hi) && !(lo <= u < hi) && u < TRAPFRAME
    requires MapsData(s1, root, u, f, data)
    ensures MapsData(s2, root, u, f, data)
  {
    UserRole(s1, root, u);
    OutsideSame(s1, s2, h, root, lo, hi, u);
    hide Frame, Backed, Translate, Shape;
    assert SameUser(s1, s2, root, u);
  }

  lemma GrowFailed(s0: Memory, h: set<nat>, s1: Memory, s2: Memory, root: nat, lo: nat, v: nat, f: Flags)
    requires GrowProgress(s0, h, s1, root, lo, v, f) && RangeUpdate(s1, s2, h, root, 0, 0) && Shape(s1, {})
    ensures GrowProgress(s0, h, s2, root, lo, v, f)
  {
    RangeWider(s1, s2, h, root, 0, 0, lo, v);
    RangeTrans(s0, s1, s2, h, h, root, lo, v);
    assert h * h == h;
    forall u: nat | lo <= u < v ensures MapsData(s2, root, u, f, ZeroPage()) {
      assert MapsData(s1, root, u, f, ZeroPage());
      DataStays(s1, s2, h, root, 0, 0, u, f, ZeroPage());
    }
    hide Frame, SameUser, Backed, Translate, MapsData;
  }

  /** What was mapped since and unmapped again leaves no trace. */
  lemma GrowUndone(s0: Memory, h: set<nat>, s1: Memory, s2: Memory, root: nat, lo: nat, v: nat)
    requires Shape(s0, {}) && lo <= v <= TRAPFRAME && NoneRange(s0, root, lo, v)
    requires RangeUpdate(s0, s1, h, root, lo, v) && RangeUpdate(s1, s2, h, root, lo, v) && NoneRange(s2, root, lo, v)
    ensures RangeUpdate(s0, s2, h, root, 0, 0)
  {
    RangeTrans(s0, s1, s2, h, h, root, lo, v);
    assert h * h == h;
    forall u: nat | lo <= u < v ensures User(root, u) !in s0.where { UserRole(s0, root, u); }
    hide Frame, SameUser, Backed, Translate, Shape;
  }

  /** The two pages that every user space has at its top. */
  ghost predicate HasTop(s: Memory, root: nat) {
    MappedRange(s, root, TRAPFRAME, MAXPAGE)
  }

  /** uvmalloc, with the flags PTE_R | PTE_U | xperm, has failed or succeeded, or has panicked at
      page number a, the first of the range that is mapped already or past the top. */
  ghost predicate GrowOutcome(s0: Memory, h: set<nat>, s: Memory, root: nat, lo: nat, hi: nat, r: MapResult, a: nat, f: Flags) {
    match r
    case Mapped => a == hi && GrowProgress(s0, h, s, root, lo, hi, f)
    case NoMemory => RangeUpdate(s0, s, h, root, 0, 0)
    case Panic => && lo <= a < hi && GrowProgress(s0, h, s, root, lo, a, f)
                  && (a >= MAXPAGE || (Backed(s0) && Translate(s0, root, a).Some?))
  }

  /** uvmalloc. The result 0 is its failure, and tells success from failure whenever the space
      grows. */
  method UvmAlloc(k: Kernel, root: nat, oldsz: nat, newsz: nat, xperm: Flags) returns (sz: nat, r: MapResult, ghost a: nat)
    requires k.Valid() && Node(root, 2, 0) in k.where && HasTop(k.S(), root)
    modifies k
    ensures k.Valid() && Node(root, 2, 0) in k.where && (r != Panic ==> k.held == old(k.held))
    ensures newsz < oldsz ==> r == Mapped && sz == oldsz && k.S() == old(k.S()) && k.freelist == old(k.freelist)
    ensures newsz >= oldsz ==>
              && sz == (if r == Mapped then newsz else 0)
              && GrowOutcome(old(k.S()), old(k.held), k.S(), root, Up(oldsz), Up(newsz), r, a,
                             xperm.(v := true, r := true, u := true))
              && (r == NoMemory ==> |old(k.freelist)| < 3 * (Up(newsz) - Up(oldsz)))
              && (r == Mapped ==> |k.freelist| >= |old(k.freelist)| - 3 * (Up(newsz) - Up(oldsz)))
  {
    hide Shape, Pool, RangeUpdate, Translate, Closed, Bijection, NoneRange, FreshRange, GrowProgress, Up, HasTop;
    if newsz < oldsz { return oldsz, Mapped, 0; }
    UpMonotone(oldsz, newsz);
    ghost var s0, h0 := k.S(), k.held;
    var perm := xperm.(r := true, u := true);
    ghost var f := perm.(v := true);
    var lo, hi := Up(oldsz), Up(newsz);
    GrowStart(s0, h0, root, lo, f);
    var v := lo;
    while v < hi
      invariant lo <= v <= hi && k.Valid() && Node(root, 2, 0) in k.where && k.held == h0
      invariant GrowProgress(s0, h0, k.S(), root, lo, v, f)
      invariant |k.freelist| >= |old(k.freelist)| - 3 * (v - lo)
    {
      ghost var s1 := k.S();
      GrowNext(s0, h0, s1, root, lo, v, f);
      r := MapNewPage(k, root, v, ZeroPage(), perm);
      if r == Mapped {
        GrowStep(s0, h0, s1, k.S(), root, lo, v, f);
        v := v + 1;
      } else {
        GrowFailed(s0, h0, s1, k.S(), root, lo, v, f);
        if r == NoMemory { UndoGrow(k, root, lo, v, f, s0); }
        return 0, r, v;
      }
    }
    return newsz, Mapped, hi;
  }

  lemma GrowNext(s0: Memory, h: set<nat>, s: Memory, root: nat, lo: nat, v: nat, f: Flags)
    requires GrowProgress(s0, h, s, root, lo, v, f) && HasTop(s0, root)
    ensures Backed(s0) && Backed(s) && Translate(s, root, v) == Translate(s0, root, v)
    ensures TRAPFRAME <= v < MAXPAGE ==> Translate(s, root, v).Some?
  {
    OutsideSame(s0, s, h, root, lo, v, v);
    hide Frame, SameUser, Translate, Backed;
  }

  /** uvmdealloc(pagetable, a, oldsz) on the way out of a failed uvmalloc. */
  method UndoGrow(k: Kernel, root: nat, lo: nat, v: nat, ghost f: Flags, ghost s0: Memory)
    requires k.Valid() && Node(root, 2, 0) in k.where && Shape(s0, {})
    requires GrowProgress(s0, k.held, k.S(), root, lo, v, f)
    modifies k
    ensures k.Valid() && Node(root, 2, 0) in k.where && k.held == old(k.held)
    ensures RangeUpdate(s0, k.S(), k.held, root, 0, 0)
  {
    ghost var s1 := k.S();
    GrownPages(s0, k.held, s1, root, lo, v, f);
    hide Shape, Pool, RangeUpdate, Translate, Closed, Bijection, NoneRange, FreshRange, GrowProgress, Up;
    var _, panic := UvmDealloc(k, root, v * 4096, lo * 4096);
    assert !panic;
    if lo < v { GrowUndone(s0, k.held, s1, k.S(), root, lo, v); }
  }

  lemma GrownPages(s0: Memory, h: set<nat>, s: Memory, root: nat, lo: nat, v: nat, f: Flags)
    requires GrowProgress(s0, h, s, root, lo, v, f) && Shape(s, {})
    ensures Up(v * 4096) == v && Up(lo * 4096) == lo && MappedRange(s, root, lo, v)
    ensures NoneRange(s0, root, lo, v) && RangeUpdate(s0, s, h, root, lo, v) && (lo < v ==> v <= TRAPFRAME)
    ensures lo == v ==> RangeUpdate(s0, s, h, root, 0, 0)
  {
    forall u: nat | lo <= u < v ensures Translate(s, root, u).Some? {
      assert MapsData(s, root, u, f, ZeroPage());
    }
    if lo == v { RangeWider(s0, s, h, root, lo, lo, 0, 0); }
    hide Frame, SameUser, Translate, MapsData;
  }
}
