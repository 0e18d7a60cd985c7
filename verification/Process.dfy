/** The memory of processes: the page-table functions of Lab3/xv6-riscv/kernel/proc.c over
    the process table, from allocproc to freeproc. Whatever sequence of forks, grows,
    shrinks and exits runs, and wherever kalloc fails, no page is lost and none is shared. */
module Process {
  import opened Wrappers
  import opened PageTable
  import opened Vm
  import opened Uvm
  import opened FreeWalk

  /** An entry of the process table, as far as memory is concerned. */
  datatype Slot = Unused | Used(trapframe: nat, pagetable: nat, sz: nat)

  const RX := NOFLAGS.(r := true, x := true)
  const RW := NOFLAGS.(r := true, w := true)
  const WRITE := NOFLAGS.(w := true)

  /** A process's address space: sz bytes of memory, the trapframe page and the trampoline. */
  ghost predicate UserSpace(s: Memory, p: Slot, text: nat) {
    && p.Used? && Backed(s) && Node(p.pagetable, 2, 0) in s.where && Space(s, p.pagetable, Up(p.sz))
    && Translate(s, p.pagetable, TRAPFRAME) == Some(Pte(p.trapframe, RW.(v := true)))
    && Translate(s, p.pagetable, TRAMPOLINE) == Some(Pte(text, RX.(v := true)))
  }

  /** In terms of addresses: each of the sz bytes is in a page that is mapped, and up to the
      trapframe no page is mapped that has none of them. */
  lemma SizeInBytes(s: Memory, p: Slot, text: nat, a: nat)
    requires UserSpace(s, p, text) && a / 4096 < TRAPFRAME
    ensures Backed(s) && (Translate(s, p.pagetable, a / 4096).Some? <==> a / 4096 * 4096 < p.sz)
  {
    assert a / 4096 < Up(p.sz) <==> a / 4096 * 4096 < p.sz;
    hide Up, Backed, Translate;
  }

  /** Who may do what with the two pages on top: the kernel alone reads and writes the trapframe, and
      reads and executes the trampoline. */
  lemma TopFlags(s: Memory, p: Slot, text: nat)
    requires UserSpace(s, p, text)
    ensures Backed(s) && Translate(s, p.pagetable, TRAPFRAME).Some? && Translate(s, p.pagetable, TRAMPOLINE).Some?
    ensures var frame, tramp := Translate(s, p.pagetable, TRAPFRAME).value, Translate(s, p.pagetable, TRAMPOLINE).value;
            && frame.ppn == p.trapframe && frame.f.r && frame.f.w && !frame.f.x && !frame.f.u
            && tramp.ppn == text && tramp.f.r && !tramp.f.w && tramp.f.x && !tramp.f.u
  {
  }

  ghost predicate HasRoot(proc: seq<Slot>, root: nat) {
    exists i :: 0 <= i < |proc| && proc[i].Used? && proc[i].pagetable == root
  }

  ghost predicate HasFrame(proc: seq<Slot>, page: nat) {
    exists i :: 0 <= i < |proc| && proc[i].Used? && proc[i].trapframe == page
  }

  ghost predicate Apart(a: Slot, b: Slot) {
    a.Used? && b.Used? ==> a.pagetable != b.pagetable && a.trapframe != b.trapframe
  }

  ghost predicate Spaces(s: Memory, proc: seq<Slot>, text: nat) {
    forall i :: 0 <= i < |proc| && proc[i].Used? ==> UserSpace(s, proc[i], text)
  }

  ghost predicate AllApart(proc: seq<Slot>) {
    forall i, j :: 0 <= i < j < |proc| ==> Apart(proc[i], proc[j])
  }

  ghost predicate AllRooted(s: Memory, proc: seq<Slot>) {
    forall t :: t in s.where ==> HasRoot(proc, t.root)
  }

  ghost predicate AllHeld(held: set<nat>, base: set<nat>, proc: seq<Slot>) {
    && base <= held
    && (forall i :: 0 <= i < |proc| && proc[i].Used? ==> proc[i].trapframe in held && proc[i].trapframe !in base)
    && (forall p :: p in held ==> p in base || HasFrame(proc, p))
  }

  /** Every process has its space, and every page in use belongs to exactly one process,
      or to the pages `base` the kernel held before. */
  ghost predicate Owned(s: Memory, held: set<nat>, base: set<nat>, proc: seq<Slot>, text: nat) {
    Spaces(s, proc, text) && AllApart(proc) && AllRooted(s, proc) && AllHeld(held, base, proc)
  }

  // ---- one space changes, the others do not ----

  lemma OtherSpaces(s: Memory, s': Memory, root: nat, p: Slot, text: nat)
    requires Shape(s, {}) && Shape(s', {}) && Frame(s, s', root)
    requires UserSpace(s, p, text) && p.pagetable != root
    ensures UserSpace(s', p, text)
  {
    forall v: nat ensures Translate(s', p.pagetable, v) == Translate(s, p.pagetable, v) {
      FrameTranslate(s, s', root, p.pagetable, v);
    }
    hide Shape, Closed, Bijection, Translate;
  }

  /** The space of entry i changes, or goes; the others are untouched. */
  lemma SpacesUpdate(s: Memory, s': Memory, proc: seq<Slot>, text: nat, i: nat, p: Slot, root: nat)
    requires Shape(s, {}) && Shape(s', {}) && Frame(s, s', root) && i < |proc| && Spaces(s, proc, text)
    requires forall j :: 0 <= j < |proc| && j != i && proc[j].Used? ==> proc[j].pagetable != root
    requires p.Used? ==> UserSpace(s', p, text)
    ensures Spaces(s', proc[i := p], text)
  {
    forall j | 0 <= j < |proc| && j != i && proc[j].Used? ensures UserSpace(s', proc[j], text) {
      OtherSpaces(s, s', root, proc[j], text);
    }
    hide Shape, Frame, UserSpace;
  }

  lemma OthersApart(proc: seq<Slot>, i: nat)
    requires i < |proc| && AllApart(proc) && proc[i].Used?
    ensures forall j :: 0 <= j < |proc| && j != i ==> Apart(proc[j], proc[i]) && Apart(proc[i], proc[j])
  {
    forall j | 0 <= j < |proc| && j != i ensures Apart(proc[j], proc[i]) && Apart(proc[i], proc[j]) {
      assert if j < i then Apart(proc[j], proc[i]) else Apart(proc[i], proc[j]);
    }
  }

  lemma RootedUpdate(s: Memory, s': Memory, proc: seq<Slot>, i: nat, p: Slot, root: nat)
    requires i < |proc| && Frame(s, s', root) && AllRooted(s, proc)
    requires proc[i].Used? ==> proc[i].pagetable == root
    requires if p.Used? then p.pagetable == root else NoRoles(s', root)
    ensures AllRooted(s', proc[i := p])
  {
    var proc' := proc[i := p];
    forall t | t in s'.where ensures HasRoot(proc', t.root) {
      if t.root == root {
        assert proc'[i] == p;
      } else {
        var j :| 0 <= j < |proc| && proc[j].Used? && proc[j].pagetable == t.root;
        assert proc'[j] == proc[j];
      }
    }
  }

  lemma HeldUpdate(held: set<nat>, base: set<nat>, proc: seq<Slot>, i: nat, p: Slot)
    requires i < |proc| && AllHeld(held, base, proc) && AllApart(proc)
    requires p.Used? ==> if proc[i].Used? then p.trapframe == proc[i].trapframe else p.trapframe !in held
    ensures AllHeld(if p == Unused && proc[i].Used? then held - {proc[i].trapframe}
                    else if p.Used? then held + {p.trapframe} else held, base, proc[i := p])
  {
    var proc' := proc[i := p];
    if proc[i].Used? { OthersApart(proc, i); }
    assert proc'[i] == p;
    forall q | HasFrame(proc, q) && (proc[i].Used? ==> proc[i].trapframe != q) ensures HasFrame(proc', q) {
      var j :| 0 <= j < |proc| && proc[j].Used? && proc[j].trapframe == q;
      assert j != i && proc'[j] == proc[j];
    }
    assert p.Used? ==> HasFrame(proc', p.trapframe);
  }

  lemma ApartUpdate(proc: seq<Slot>, i: nat, p: Slot)
    requires i < |proc| && AllApart(proc)
    requires forall j :: 0 <= j < |proc| && j != i ==> Apart(proc[j], p) && Apart(p, proc[j])
    ensures AllApart(proc[i := p])
  {
    hide Apart;
  }

  lemma NewcomerApart(s: Memory, held: set<nat>, base: set<nat>, proc: seq<Slot>, text: nat, p: Slot)
    requires Owned(s, held, base, proc, text) && p.Used? && NoRoles(s, p.pagetable) && p.trapframe !in held
    ensures forall j :: 0 <= j < |proc| ==> Apart(proc[j], p) && Apart(p, proc[j])
  {
    hide AllApart, AllRooted, HasFrame, Space, Translate;
    forall j | 0 <= j < |proc| ensures Apart(proc[j], p) && Apart(p, proc[j]) {
      assert proc[j].Used? ==> UserSpace(s, proc[j], text) && Node(proc[j].pagetable, 2, 0).root == proc[j].pagetable;
    }
  }

  lemma OwnedAdd(s: Memory, s': Memory, held: set<nat>, base: set<nat>, proc: seq<Slot>, text: nat, i: nat, p: Slot)
    requires Shape(s, {}) && Shape(s', {}) && Owned(s, held, base, proc, text) && i < |proc| && proc[i] == Unused
    requires UserSpace(s', p, text) && Frame(s, s', p.pagetable) && NoRoles(s, p.pagetable) && p.trapframe !in held
    ensures Owned(s', held + {p.trapframe}, base, proc[i := p], text)
  {
    NewcomerApart(s, held, base, proc, text, p);
    hide Frame, Shape, UserSpace, NoRoles, HasRoot, HasFrame;
    SpacesUpdate(s, s', proc, text, i, p, p.pagetable);
    RootedUpdate(s, s', proc, i, p, p.pagetable);
    HeldUpdate(held, base, proc, i, p);
    ApartUpdate(proc, i, p);
    hide AllApart, AllHeld, Spaces, AllRooted;
  }

  lemma OwnedResize(s: Memory, s': Memory, held: set<nat>, base: set<nat>, proc: seq<Slot>, text: nat, i: nat, sz: nat)
    requires Shape(s, {}) && Shape(s', {}) && Owned(s, held, base, proc, text) && i < |proc| && proc[i].Used?
    requires Frame(s, s', proc[i].pagetable) && UserSpace(s', proc[i].(sz := sz), text)
    ensures Owned(s', held, base, proc[i := proc[i].(sz := sz)], text)
  {
    var p := proc[i].(sz := sz);
    OthersApart(proc, i);
    hide Frame, Shape, UserSpace, NoRoles, HasRoot, HasFrame;
    assert held + {p.trapframe} == held;
    SpacesUpdate(s, s', proc, text, i, p, p.pagetable);
    RootedUpdate(s, s', proc, i, p, p.pagetable);
    HeldUpdate(held, base, proc, i, p);
    ApartUpdate(proc, i, p);
    hide AllApart, AllHeld, Spaces, AllRooted;
  }

  lemma OwnedRemove(s: Memory, s': Memory, held: set<nat>, base: set<nat>, proc: seq<Slot>, text: nat, i: nat)
    requires Shape(s, {}) && Shape(s', {}) && Owned(s, held, base, proc, text) && i < |proc| && proc[i].Used?
    requires Frame(s, s', proc[i].pagetable) && NoRoles(s', proc[i].pagetable)
    ensures Owned(s', held - {proc[i].trapframe}, base, proc[i := Unused], text)
  {
    OthersApart(proc, i);
    SpacesUpdate(s, s', proc, text, i, Unused, proc[i].pagetable);
    RootedUpdate(s, s', proc, i, Unused, proc[i].pagetable);
    HeldUpdate(held, base, proc, i, Unused);
    ApartUpdate(proc, i, Unused);
    hide AllApart, Frame, Shape, UserSpace, NoRoles, HasRoot, HasFrame, AllHeld, Spaces, AllRooted;
  }

  /** Every role is played by the page it was, with the contents it had. */
  ghost predicate SameSpaces(s: Memory, s': Memory) {
    && (forall t :: t in s.where ==>
          t in s'.where && s'.where[t] == s.where[t]
          && s.where[t] in s.mem && s.where[t] in s'.mem && s'.mem[s.where[t]] == s.mem[s.where[t]])
    && (forall t :: t in s'.where ==> t in s.where)
  }

  lemma OwnedSame(s: Memory, s': Memory, held: set<nat>, base: set<nat>, proc: seq<Slot>, text: nat)
    requires Shape(s, {}) && Shape(s', {}) && Owned(s, held, base, proc, text) && SameSpaces(s, s')
    ensures Owned(s', held, base, proc, text)
  {
    hide Shape, UserSpace, HasRoot, AllHeld, AllApart;
    assert AllRooted(s', proc);
    forall j | 0 <= j < |proc| && proc[j].Used? ensures UserSpace(s', proc[j], text) {
      SameSpace(s, s', proc[j], text);
    }
    hide SameSpaces, AllRooted;
  }

  lemma SameSpace(s: Memory, s': Memory, p: Slot, text: nat)
    requires Shape(s, {}) && Shape(s', {}) && UserSpace(s, p, text) && SameSpaces(s, s')
    ensures UserSpace(s', p, text)
  {
    var root := p.pagetable + 1;
    hide Shape, UserSpace;
    assert Frame(s, s', root);
    OtherSpaces(s, s', root, p, text);
  }

  /** With no process left, the free list holds every page the kernel does not keep for itself. */
  lemma NothingLeft(pages: set<nat>, s: Memory, free: seq<nat>, held: set<nat>, base: set<nat>, proc: seq<Slot>, text: nat)
    requires Shape(s, {}) && Pool(pages, s, free, held) && Owned(s, held, base, proc, text)
    requires forall i :: 0 <= i < |proc| ==> proc[i] == Unused
    ensures held == base && s.where == map[] && Elems(free) == pages - base
  {
    assert forall r :: !HasRoot(proc, r);
    assert forall p :: !HasFrame(proc, p);
    assert forall t :: t !in s.where;
    NoOwner(s);
    forall p ensures p in Elems(free) <==> p in pages - base { }
  }

  lemma NoOwner(s: Memory)
    requires Bijection(s.where, s.owner) && forall t :: t !in s.where
    ensures forall p :: p !in s.owner
  {
  }

  // ---- uvmcreate ----

  /** A fresh zeroed page becomes the root of a tree of its own. */
  ghost function AddRoot(s: Memory, p: nat): Memory {
    Memory(s.mem[p := ZeroPage()], s.where[Node(p, 2, 0) := p], s.owner[p := Node(p, 2, 0)])
  }

  ghost predicate CanAddRoot(s: Memory, p: nat) {
    Backed(s) && p in s.mem && p !in s.owner
  }

  lemma NewRoot(s: Memory, p: nat)
    requires CanAddRoot(s, p)
    ensures Node(p, 2, 0) !in s.where && NoRoles(s, p)
  {
    assert Node(p, 2, 0) in s.where ==> GoodRole(Node(p, 2, 0), s.where[Node(p, 2, 0)]);
    forall t | t in s.where ensures t.root != p { NoOrphan(s, p, t); }
  }

  lemma AddRootBacked(s: Memory, p: nat)
    requires CanAddRoot(s, p)
    ensures Backed(AddRoot(s, p))
  {
    NewRoot(s, p);
    AddBijection(s.where, s.owner, Node(p, 2, 0), p);
  }

  lemma AddRootSlot(s: Memory, p: nat, r: nat, l: nat, c: nat)
    requires CanAddRoot(s, p) && SlotOk(s, r, l, c)
    ensures Backed(AddRoot(s, p)) && SlotOk(AddRoot(s, p), r, l, c)
  {
    AddRootBacked(s, p);
    NewRoot(s, p);
    hide Closed, Ix, Bijection, GoodRole;
    assert l < 2 ==> Above(r, l, c).root == r && Node(r, l, c).root == r;
  }

  lemma AddRootLeaf(s: Memory, p: nat, r: nat, v: nat)
    requires CanAddRoot(s, p) && LeafOk(s, r, v)
    ensures Backed(AddRoot(s, p)) && LeafOk(AddRoot(s, p), r, v)
    ensures Translate(AddRoot(s, p), r, v) == Translate(s, r, v)
  {
    AddRootBacked(s, p);
    hide Closed, Ix, Bottom;
  }

  lemma AddRootKeeps(s: Memory, p: nat)
    requires Shape(s, {}) && CanAddRoot(s, p)
    ensures var s' := AddRoot(s, p);
            && Shape(s', {}) && NoLeaves(s', p) && NoRoles(s, p) && Frame(s, s', p)
            && s'.where[Node(p, 2, 0)] == p
  {
    AddRootBacked(s, p);
    NewRoot(s, p);
    AddRootFrame(s, p);
    hide Closed, Bijection, Sized, SlotOk, LeafOk, Translate, AddRoot, CanAddRoot;
    var s' := AddRoot(s, p);
    forall r: nat, l: nat, c: nat ensures SlotOk(s', r, l, c) {
      assert SlotOk(s, r, l, c);
      AddRootSlot(s, p, r, l, c);
    }
    forall r: nat, v: nat ensures LeafOk(s', r, v) && Translate(s', r, v) == Translate(s, r, v) {
      assert LeafOk(s, r, v);
      AddRootLeaf(s, p, r, v);
    }
    forall v: nat ensures Translate(s', p, v) == None {
      NothingThere(s, p, v);
    }
  }

  lemma NothingThere(s: Memory, p: nat, v: nat)
    requires Backed(s) && NoRoles(s, p)
    ensures Translate(s, p, v) == None
  {
  }

  lemma AddRootFrame(s: Memory, p: nat)
    requires CanAddRoot(s, p)
    ensures Frame(s, AddRoot(s, p), p) && AddRoot(s, p).where[Node(p, 2, 0)] == p
  {
    hide Closed;
  }

  lemma AddRootPool(pages: set<nat>, s: Memory, free: seq<nat>, held: set<nat>, p: nat)
    requires Pool(pages, s, free, held) && p in held
    ensures Pool(pages, AddRoot(s, p), free, held - {p})
  {
    assert AddRoot(s, p).mem.Keys == s.mem.Keys;
  }

  /** What uvmcreate does with the page kalloc gave it. */
  lemma CreateStep(pages: set<nat>, s: Memory, s1: Memory, free: seq<nat>, held: set<nat>, p: nat)
    requires Shape(s, {}) && p in s.mem && p !in s.owner && p !in held
    requires s1 == s.(mem := s.mem[p := Junk(5)]) && Pool(pages, s1, free, held + {p})
    ensures var s' := AddRoot(s1, p);
            && Shape(s', {}) && Pool(pages, s', free, held) && NoLeaves(s', p)
            && NoRoles(s, p) && Frame(s, s', p) && s'.where[Node(p, 2, 0)] == p
  {
    DataKeeps(s, p, Junk(5), {});
    DataFrame(s, p, Junk(5), p);
    AddRootKeeps(s1, p);
    FrameTrans(s, s1, AddRoot(s1, p), p);
    AddRootPool(pages, s1, free, held + {p}, p);
    assert held + {p} - {p} == held;
  }

  /** uvmcreate, with the memset that makes the root an empty node. */
  method UvmCreate(k: Kernel) returns (p: Option<nat>)
    requires k.Valid()
    modifies k
    ensures k.Valid() && k.held == old(k.held)
    ensures p == None ==> k.S() == old(k.S()) && k.freelist == old(k.freelist) == []
    ensures p.Some? ==> |k.freelist| == |old(k.freelist)| - 1
    ensures p.Some? ==>
              && Node(p.value, 2, 0) in k.where && NoLeaves(k.S(), p.value)
              && NoRoles(old(k.S()), p.value) && Frame(old(k.S()), k.S(), p.value)
  {
    hide Shape, Pool, NoLeaves, NoRoles, Frame, Backed, Closed;
    ghost var s0, h0 := k.S(), k.held;
    p := k.Kalloc();
    if p == None { return; }
    CreateStep(k.pages, s0, k.S(), k.freelist, h0, p.value);
    k.mem := k.mem[p.value := ZeroPage()];
    k.where := k.where[Node(p.value, 2, 0) := p.value];
    k.owner := k.owner[p.value := Node(p.value, 2, 0)];
    k.held := k.held - {p.value};
    assert k.held == h0;
  }

  // ---- proc_pagetable and proc_freepagetable ----

  /** mappages of one of the two pages above user memory. */
  method MapTop(k: Kernel, root: nat, v: nat, ppn: nat, perm: Flags) returns (ok: bool)
    requires k.Valid() && Node(root, 2, 0) in k.where && (perm.r || perm.w || perm.x)
    requires TRAPFRAME <= v <= TRAMPOLINE && Translate(k.S(), root, v) == None
    modifies k
    ensures k.Valid() && Node(root, 2, 0) in k.where && k.held == old(k.held)
    ensures ok ==> RangeUpdate(old(k.S()), k.S(), k.held, root, v, v + 1)
                   && Translate(k.S(), root, v) == Some(Pte(ppn, perm.(v := true)))
    ensures !ok ==> k.freelist == [] && RangeUpdate(old(k.S()), k.S(), k.held, root, 0, 0)
    ensures |k.freelist| >= |old(k.freelist)| - 2 && (!ok ==> |old(k.freelist)| < 2)
  {
    hide Shape, Pool, Closed, Bijection, Translate, Frame, MapProgress, RangeUpdate, Backed, Down, SpanPages, Given;
    ghost var s0, h0 := k.S(), k.held;
    OnePage(ppn, v);
    var r, n := k.MapPages(root, v * 4096, 4096, ppn, perm);
    MappedTop(s0, h0, k.S(), k.held, root, v, n, ppn, perm.(v := true));
    return r == Mapped;
  }

  lemma OnePage(ppn: nat, v: nat)
    requires TRAPFRAME <= v <= TRAMPOLINE
    ensures Down(v * 4096) == v && SpanPages(v * 4096, 4096) == 1 && Given(ppn, v, 1) == {}
  {
  }

  lemma MappedTop(s0: Memory, h0: set<nat>, s: Memory, h: set<nat>, root: nat, v: nat, n: nat, ppn: nat, f: Flags)
    requires MapProgress(s0, h0, s, h, root, v, n, ppn, f) && n <= 1 && TRAPFRAME <= v <= TRAMPOLINE
    ensures Backed(s) && h == h0
    ensures n == 0 ==> RangeUpdate(s0, s, h, root, 0, 0)
    ensures n == 1 ==> RangeUpdate(s0, s, h, root, v, v + 1) && Translate(s, root, v) == Some(Pte(ppn, f))
  {
    hide Translate, Frame, SameUser;
    OnePage(ppn, v);
    assert Given(ppn, v, n) == {};
    if n == 0 { RangeWider(s0, s, h, root, v, v, 0, 0); }
  }

  /** Changes above user memory leave its pages alone. */
  lemma TopKeepsSpace(s: Memory, s': Memory, h: set<nat>, root: nat, n: nat, lo: nat, hi: nat)
    requires RangeUpdate(s, s', h, root, lo, hi) && (lo >= TRAPFRAME || lo >= hi) && Space(s, root, n)
    ensures Space(s', root, n)
  {
    forall v: nat | v < TRAPFRAME ensures Translate(s', root, v) == Translate(s, root, v) {
      OutsideSame(s, s', h, root, lo, hi, v);
    }
    hide Backed, Translate, Frame, SameUser;
  }

  lemma BareSpace(s: Memory, root: nat)
    requires NoLeaves(s, root)
    ensures Space(s, root, 0) && Translate(s, root, TRAPFRAME) == None && Translate(s, root, TRAMPOLINE) == None
  {
  }

  /** With the two top pages unmapped, nothing is mapped above user memory. */
  lemma TopCleared(s: Memory, root: nat, sz: nat)
    requires Shape(s, {}) && Space(s, root, Up(sz))
    requires Translate(s, root, TRAPFRAME) == None && Translate(s, root, TRAMPOLINE) == None
    ensures NoLeavesAbove(s, root, Up(sz)) && Up(sz) <= TRAPFRAME && MappedRange(s, root, 0, Up(sz))
  {
    forall v: nat | v >= MAXPAGE ensures Translate(s, root, v) == None { PastTheTop(s, root, v); }
    assert Backed(s);
    hide Translate, Backed, Shape, Up;
    forall v: nat | v >= Up(sz) ensures Translate(s, root, v) == None {
      assert v < TRAPFRAME || v == TRAPFRAME || v == TRAMPOLINE || v >= MAXPAGE;
    }
  }

  lemma TopOne(s: Memory, s': Memory, h: set<nat>, root: nat, v: nat, u: nat)
    requires RangeUpdate(s, s', h, root, v, v + 1) && u != v
    ensures Backed(s) && Backed(s') && Translate(s', root, u) == Translate(s, root, u) && Frame(s, s', root)
  {
    OutsideSame(s, s', h, root, v, v + 1, u);
  }

  lemma TopNone(s: Memory, s': Memory, h: set<nat>, root: nat, u: nat)
    requires RangeUpdate(s, s', h, root, 0, 0)
    ensures Backed(s) && Backed(s') && Translate(s', root, u) == Translate(s, root, u) && Frame(s, s', root)
  {
    OutsideSame(s, s', h, root, 0, 0, u);
  }

  lemma FailedSpace(s0: Memory, s1: Memory, s2: Memory, root: nat)
    requires NoRoles(s0, root) && NoRoles(s2, root) && Frame(s0, s1, root) && Frame(s1, s2, root)
    ensures SameSpaces(s0, s2)
  {
    FrameTrans(s0, s1, s2, root);
  }

  /** Unmapping one of the two top pages. */
  method UnmapTop(k: Kernel, root: nat, v: nat, ghost n: nat)
    requires k.Valid() && Node(root, 2, 0) in k.where && TRAPFRAME <= v <= TRAMPOLINE
    requires Translate(k.S(), root, v).Some? && Space(k.S(), root, n)
    modifies k
    ensures k.Valid() && Node(root, 2, 0) in k.where && k.held == old(k.held)
    ensures Space(k.S(), root, n) && Translate(k.S(), root, v) == None && Frame(old(k.S()), k.S(), root)
    ensures forall u: nat :: u != v ==> Translate(k.S(), root, u) == old(Translate(k.S(), root, u))
  {
    hide Shape, Pool, Closed, Bijection, Translate, Frame, RangeUpdate, Backed, Space;
    ghost var s := k.S();
    OneMapped(s, root, v);
    var panic, a := UvmUnmap(k, root, v, 1, false);
    assert !panic;
    TopKeepsSpace(s, k.S(), k.held, root, n, v, v + 1);
    forall u: nat | u != v ensures Translate(k.S(), root, u) == Translate(s, root, u) {
      TopOne(s, k.S(), k.held, root, v, u);
    }
    TopOne(s, k.S(), k.held, root, v, v + 1);
  }

  lemma OneMapped(s: Memory, root: nat, v: nat)
    requires Shape(s, {}) && Translate(s, root, v).Some?
    ensures MappedRange(s, root, v, v + 1)
  {
  }

  method ProcFreePagetable(k: Kernel, root: nat, sz: nat, ghost p: Slot, ghost text: nat)
    requires k.Valid() && UserSpace(k.S(), p, text) && p.pagetable == root && p.sz == sz
    modifies k
    ensures k.Valid() && k.held == old(k.held) && NoRoles(k.S(), root) && Frame(old(k.S()), k.S(), root)
  {
    hide Shape, Pool, Closed, Bijection, Translate, Frame, Space, Up, NoLeavesAbove, NoRoles;
    ghost var s0 := k.S();
    UnmapTop(k, root, TRAMPOLINE, Up(sz));
    ghost var s1 := k.S();
    UnmapTop(k, root, TRAPFRAME, Up(sz));
    ghost var s2 := k.S();
    TopCleared(s2, root, sz);
    var panic := UvmFree(k, root, sz);
    assert !panic;
    FrameTrans(s0, s1, s2, root);
    FrameTrans(s0, s2, k.S(), root);
  }

  /** proc_pagetable: a page table that maps only the trampoline and the trapframe, or
      nothing has changed. */
  method ProcPagetable(k: Kernel, trapframe: nat, text: nat) returns (root: Option<nat>)
    requires k.Valid()
    modifies k
    ensures k.Valid() && k.held == old(k.held)
    ensures root == None ==> SameSpaces(old(k.S()), k.S()) && |old(k.freelist)| < 5
    ensures root.Some? ==> |k.freelist| >= |old(k.freelist)| - 5
    ensures root.Some? ==>
              && UserSpace(k.S(), Used(trapframe, root.value, 0), text)
              && NoRoles(old(k.S()), root.value) && Frame(old(k.S()), k.S(), root.value)
  {
    hide Shape, Pool, Closed, Bijection, Translate, Frame, Space, NoLeaves, NoLeavesAbove, NoRoles, RangeUpdate, SameSpaces;
    ghost var s0 := k.S();
    SameRefl(s0);
    root := UvmCreate(k);
    if root == None { return; }
    var r := root.value;
    ghost var s1 := k.S();
    BareSpace(s1, r);
    var ok := MapTop(k, r, TRAMPOLINE, text, RX);
    ghost var s2 := k.S();
    if !ok {
      TopNone(s1, s2, k.held, r, TRAPFRAME);
      TopNone(s1, s2, k.held, r, TRAMPOLINE);
      TopKeepsSpace(s1, s2, k.held, r, 0, 0, 0);
      FreeEmpty(k, r, s0, s1);
      return None;
    }
    TopOne(s1, s2, k.held, r, TRAMPOLINE, TRAPFRAME);
    TopKeepsSpace(s1, s2, k.held, r, 0, TRAMPOLINE, TRAMPOLINE + 1);
    FrameTrans(s0, s1, s2, r);
    ok := MapTop(k, r, TRAPFRAME, trapframe, RW);
    if !ok {
      TopNone(s2, k.S(), k.held, r, TRAPFRAME);
      TopNone(s2, k.S(), k.held, r, TRAMPOLINE);
      TopKeepsSpace(s2, k.S(), k.held, r, 0, 0, 0);
      FrameTrans(s0, s2, k.S(), r);
      ghost var s3 := k.S();
      UnmapTop(k, r, TRAMPOLINE, 0);
      FreeEmpty(k, r, s0, s3);
      return None;
    }
    TopOne(s2, k.S(), k.held, r, TRAPFRAME, TRAMPOLINE);
    TopKeepsSpace(s2, k.S(), k.held, r, 0, TRAPFRAME, TRAPFRAME + 1);
    FrameTrans(s0, s2, k.S(), r);
  }

  lemma SameRefl(s: Memory)
    requires Shape(s, {})
    ensures SameSpaces(s, s)
  {
    hide Closed;
  }

  /** uvmfree(pagetable, 0) of a tree that maps nothing. */
  method FreeEmpty(k: Kernel, root: nat, ghost s0: Memory, ghost s1: Memory)
    requires k.Valid() && Node(root, 2, 0) in k.where && Space(k.S(), root, 0)
    requires Translate(k.S(), root, TRAPFRAME) == None && Translate(k.S(), root, TRAMPOLINE) == None
    requires NoRoles(s0, root) && Frame(s0, s1, root) && Frame(s1, k.S(), root)
    modifies k
    ensures k.Valid() && k.held == old(k.held) && SameSpaces(s0, k.S())
  {
    hide Shape, Pool, Closed, Bijection, Translate, Frame, Space, NoLeavesAbove, NoRoles;
    ghost var s2 := k.S();
    TopCleared(s2, root, 0);
    var panic := UvmFree(k, root, 0);
    assert !panic;
    FrameTrans(s0, s1, s2, root);
    FailedSpace(s0, s2, k.S(), root);
  }
}
