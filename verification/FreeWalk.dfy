/** freewalk and uvmfree of Lab3/xv6-riscv/kernel/vm.c: taking a page table down. */
module FreeWalk {
  import opened Wrappers
  import opened PageTable
  import opened Vm
  import opened Uvm

  ghost predicate NoLeaves(s: Memory, root: nat) {
    Backed(s) && forall v: nat :: Translate(s, root, v) == None
  }

  ghost predicate NoRoles(s: Memory, root: nat) {
    forall t :: t in s.where ==> t.root != root
  }

  function Child(t: Role, i: nat): Role
    requires t.Node? && t.level > 0
  {
    Node(t.root, t.level - 1, t.c * 512 + i)
  }

  lemma ChildSlot(t: Role, i: nat)
    requires t.Node? && t.level > 0 && i < ENTRIES
    ensures Above(t.root, t.level - 1, Child(t, i).c) == t && Ix(Child(t, i).c) == i
  {
  }

  lemma OnlyChild(t: Role, x: Role)
    requires t.Node? && x.Node? && Above(x.root, x.level, x.c) == t
    ensures t.level > 0 && x == Child(t, Ix(x.c))
  {
  }

  /** Roles only disappear, and of this space only below level `level`, or t itself. */
  ghost predicate Shrunk(s: Memory, s': Memory, t: Role) {
    && (forall x :: x in s'.where ==> x in s.where && s'.where[x] == s.where[x])
    && (forall x :: x in s.where && t.Node? && x.Node? && x.level >= t.level && x != t ==> x in s'.where)
  }

  /** freewalk has handled the first i entries of node t. */
  ghost predicate WalkedTo(s0: Memory, s: Memory, t: Role, gone: set<Role>, i: nat) {
    && t.Node? && t in s.where && t in s0.where && s.where[t] == s0.where[t]
    && Shape(s, gone) && NoLeaves(s, t.root)
    && Frame(s0, s, t.root) && Shrunk(s0, s, t)
    && (t.level > 0 ==> forall j: nat :: j < i ==> Child(t, j) !in s.where)
  }

  ghost predicate Ancestors(gone: set<Role>, t: Role) {
    t in gone && t.Node? && forall x :: x in gone ==> x.Node? && x.level >= t.level
  }

  lemma FrameRefl(s: Memory, root: nat)
    requires Backed(s)
    ensures Frame(s, s, root)
  {
    hide Closed;
  }

  lemma WalkedStart(s: Memory, t: Role, gone: set<Role>)
    requires Shape(s, gone) && t.Node? && t in s.where && NoLeaves(s, t.root)
    ensures WalkedTo(s, s, t, gone, 0) && t.level <= 2
    ensures s.where[t] in s.mem && |s.mem[s.where[t]]| == ENTRIES
  {
    FrameRefl(s, t.root);
    RoleInMemory(s, t);
  }

  /** A valid entry of a node without leaves below points to a child. */
  lemma EntryMeans(s0: Memory, s: Memory, t: Role, gone: set<Role>, i: nat)
    requires WalkedTo(s0, s, t, gone, i) && i < ENTRIES && Ancestors(gone, t)
    ensures s.where[t] in s.mem && |s.mem[s.where[t]]| == ENTRIES
    ensures var e := s.mem[s.where[t]][i];
            && (e.f.v ==> !IsLeaf(e) && t.level > 0 && Child(t, i) in s.where && e.ppn == s.where[Child(t, i)])
            && (!e.f.v && t.level > 0 ==> Child(t, i) !in s.where)
  {
    RoleInMemory(s, t);
    if t.level > 0 {
      ChildSlot(t, i);
      assert GoodRole(t, s.where[t]);
      assert SlotOk(s, t.root, t.level - 1, Child(t, i).c);
    } else {
      var v := t.c * 512 + i;
      assert Bottom(t.root, v) == t && Ix(v) == i;
      assert LeafOk(s, t.root, v);
      assert Translate(s, t.root, v) == None;
    }
  }

  /** The child is gone and its entry is cleared. */
  lemma ChildFreed(s0: Memory, s1: Memory, s2: Memory, t: Role, gone: set<Role>, i: nat)
    requires WalkedTo(s0, s1, t, gone, i) && i < ENTRIES && t.level > 0 && Ancestors(gone, t)
    requires Shape(s2, gone + {Child(t, i)}) && NoLeaves(s2, t.root) && Child(t, i) !in s2.where
    requires Frame(s1, s2, t.root) && Shrunk(s1, s2, Child(t, i))
    ensures t in s2.where && s2.where[t] == s1.where[t] && s2.where[t] in s2.mem && |s2.mem[s2.where[t]]| == ENTRIES
    ensures WalkedTo(s0, SetEntry(s2, t, i, Zero()), t, gone, i + 1)
  {
    assert t in s2.where;
    RoleInMemory(s2, t);
    ChildSlot(t, i);
    ClearSlotKeeps(s2, Child(t, i), gone);
    var s3 := SetEntry(s2, t, i, Zero());
    EntryFrame(s2, t, i, Zero());
    FrameTrans(s0, s1, s2, t.root);
    FrameTrans(s0, s2, s3, t.root);
    hide Frame, Shape, Closed, Bijection, Above, Ix, Translate, Ancestors;
  }

  lemma EntryFrame(s: Memory, t: Role, i: nat, e: Pte)
    requires Backed(s) && t in s.where && s.where[t] in s.mem && i < |s.mem[s.where[t]]|
    ensures Frame(s, SetEntry(s, t, i, e), t.root)
  {
    hide Closed;
  }

  lemma Skipped(s0: Memory, s: Memory, t: Role, gone: set<Role>, i: nat)
    requires WalkedTo(s0, s, t, gone, i) && i < ENTRIES && (t.level > 0 ==> Child(t, i) !in s.where)
    ensures WalkedTo(s0, s, t, gone, i + 1)
  {
    hide Frame, Shape, Shrunk, NoLeaves;
  }

  /** Memory after node t's page has gone back to the allocator. */
  ghost function FreedNode(s: Memory, t: Role): Memory
    requires t in s.where
  {
    var s1 := Forget(s, t);
    s1.(mem := s1.mem[s.where[t] := Junk(1)])
  }

  lemma Childless(s0: Memory, s: Memory, t: Role, gone: set<Role>)
    requires WalkedTo(s0, s, t, gone, ENTRIES)
    ensures CanForget(s, t)
  {
    forall x {:trigger Parent(x)} | x in s.where && (x.Node? ==> x.level < 2) ensures Parent(x) != t {
      match x
      case Node(r, l, c) => if Above(r, l, c) == t { OnlyChild(t, x); }
      case User(r, v) => assert LeafOk(s, r, v); assert GoodRole(x, s.where[x]); assert Translate(s, t.root, v) == None;
    }
  }

  lemma NodeFreed(pages: set<nat>, s0: Memory, s: Memory, free: seq<nat>, held: set<nat>, t: Role, gone: set<Role>)
    requires WalkedTo(s0, s, t, gone, ENTRIES) && t in gone && Pool(pages, s, free, held)
    ensures s.where[t] !in held && s.where[t] in s.owner
    ensures Pool(pages, Forget(s, t), free, held + {s.where[t]})
    ensures var s' := FreedNode(s, t);
            && Shape(s', gone) && NoLeaves(s', t.root) && t !in s'.where
            && Frame(s0, s', t.root) && Shrunk(s0, s', t)
  {
    FreedShape(s0, s, t, gone);
    ForgetFrame(s, t);
    FrameTrans(s0, s, FreedNode(s, t), t.root);
    ForgetPool(pages, s, free, held, t);
    hide Frame, Pool, Shape, NoLeaves;
  }

  lemma FreedShape(s0: Memory, s: Memory, t: Role, gone: set<Role>)
    requires WalkedTo(s0, s, t, gone, ENTRIES) && t in gone
    ensures Shape(FreedNode(s, t), gone) && NoLeaves(FreedNode(s, t), t.root)
  {
    Childless(s0, s, t, gone);
    RoleInMemory(s, t);
    ForgetKeeps(s, t, gone);
    DataKeeps(Forget(s, t), s.where[t], Junk(1), gone);
    hide Frame, Closed, Bijection, Translate, SlotOk, LeafOk, Shrunk;
    forall v: nat ensures Translate(FreedNode(s, t), t.root, v) == None {
      assert Translate(s, t.root, v) == None;
    }
  }

  lemma ForgetPool(pages: set<nat>, s: Memory, free: seq<nat>, held: set<nat>, t: Role)
    requires Pool(pages, s, free, held) && Backed(s) && t in s.where
    ensures s.where[t] !in held && s.where[t] in s.owner
    ensures Pool(pages, Forget(s, t), free, held + {s.where[t]})
  {
    hide Closed;
  }

  lemma ForgetFrame(s: Memory, t: Role)
    requires Backed(s) && t in s.where
    ensures Frame(s, FreedNode(s, t), t.root)
  {
    hide Closed;
  }

  /** kfree(pagetable) at the end of freewalk. */
  method FreeNode(k: Kernel, page: nat, ghost t: Role)
    requires t in k.where && page == k.where[t] && page !in k.held && page in k.owner && page in k.mem
    requires Pool(k.pages, Forget(k.S(), t), k.freelist, k.held + {page})
    modifies k
    ensures k.S() == FreedNode(old(k.S()), t) && k.held == old(k.held)
    ensures Pool(k.pages, k.S(), k.freelist, k.held)
  {
    hide Pool;
    k.where := k.where - {t};
    k.owner := k.owner - {page};
    k.held := k.held + {page};
    k.Kfree(page);
    assert k.held == old(k.held);
  }

  /** freewalk. Its panic, "freewalk: leaf", would need a valid entry that is no pointer. */
  method FreeTree(k: Kernel, page: nat, ghost t: Role, ghost gone: set<Role>)
    requires k.ValidBut(gone) && Ancestors(gone, t)
    requires t in k.where && page == k.where[t] && NoLeaves(k.S(), t.root)
    modifies k
    ensures k.ValidBut(gone) && k.held == old(k.held)
    ensures NoLeaves(k.S(), t.root) && t !in k.where
    ensures Frame(old(k.S()), k.S(), t.root) && Shrunk(old(k.S()), k.S(), t)
    decreases t.level
  {
    hide Shape, Pool, Frame, Closed, Bijection, NoLeaves, Shrunk, WalkedTo, Backed, GoodRole;
    ghost var s0, h := k.S(), k.held;
    WalkedStart(s0, t, gone);
    var i := 0;
    while i < 512
      invariant i <= 512 && k.held == h && Pool(k.pages, k.S(), k.freelist, k.held)
      invariant t in k.where && page == k.where[t]
      invariant WalkedTo(s0, k.S(), t, gone, i)
    {
      ghost var s1 := k.S();
      EntryMeans(s0, s1, t, gone, i);
      var pte := k.mem[page][i];
      if pte.f.v && !IsLeaf(pte) {
        FreeChild(k, page, i, pte.ppn, t, gone, s0);
      } else {
        assert !pte.f.v;
        Skipped(s0, s1, t, gone, i);
      }
      i := i + 1;
    }
    NodeFreed(k.pages, s0, k.S(), k.freelist, h, t, gone);
    WalkedShape(s0, k.S(), t, gone);
    FreeNode(k, page, t);
  }

  lemma WalkedShape(s0: Memory, s: Memory, t: Role, gone: set<Role>)
    requires WalkedTo(s0, s, t, gone, ENTRIES)
    ensures Shape(s, gone) && t in s.where && s.where[t] in s.mem
  {
    RoleInMemory(s, t);
  }

  /** The recursive call, then pagetable[i] = 0. */
  method FreeChild(k: Kernel, page: nat, i: nat, child: nat, ghost t: Role, ghost gone: set<Role>, ghost s0: Memory)
    requires WalkedTo(s0, k.S(), t, gone, i) && Pool(k.pages, k.S(), k.freelist, k.held)
    requires Ancestors(gone, t) && i < 512 && t.level > 0
    requires t in k.where && page == k.where[t] && Child(t, i) in k.where && child == k.where[Child(t, i)]
    modifies k
    ensures k.held == old(k.held) && Pool(k.pages, k.S(), k.freelist, k.held)
    ensures t in k.where && page == k.where[t]
    ensures WalkedTo(s0, k.S(), t, gone, i + 1)
    decreases t.level, 0
  {
    hide Shape, Pool, Frame, Closed, Bijection, NoLeaves, Shrunk, WalkedTo, Backed;
    ghost var s1 := k.S();
    ghost var c := Child(t, i);
    WiderGone(s0, s1, t, gone, i);
    FreeTree(k, child, c, gone + {c});
    ChildFreed(s0, s1, k.S(), t, gone, i);
    ClearPool(k.pages, k.S(), k.freelist, k.held, t, i);
    k.mem := k.mem[page := k.mem[page][i := Zero()]];
  }

  lemma WiderGone(s0: Memory, s: Memory, t: Role, gone: set<Role>, i: nat)
    requires WalkedTo(s0, s, t, gone, i) && Ancestors(gone, t) && t.level > 0
    ensures Shape(s, gone + {Child(t, i)}) && NoLeaves(s, t.root)
    ensures Ancestors(gone + {Child(t, i)}, Child(t, i))
  {
    hide Closed, Bijection, Frame, Translate;
  }

  lemma ClearPool(pages: set<nat>, s: Memory, free: seq<nat>, held: set<nat>, t: Role, i: nat)
    requires Pool(pages, s, free, held) && t in s.where && s.where[t] in s.mem && |s.mem[s.where[t]]| == ENTRIES && i < ENTRIES
    ensures Pool(pages, SetEntry(s, t, i, Zero()), free, held)
  {
    assert SetEntry(s, t, i, Zero()).mem.Keys == s.mem.Keys;
  }

  /** uvmfree: the user pages, then the page-table pages. It panics, in uvmunmap, exactly when one of
      the user pages is not there. */
  method UvmFree(k: Kernel, root: nat, sz: nat) returns (panic: bool)
    requires k.Valid() && Node(root, 2, 0) in k.where
    requires Up(sz) <= TRAPFRAME && NoLeavesAbove(k.S(), root, Up(sz))
    modifies k
    ensures k.Valid() && k.held == old(k.held)
    ensures panic <==> !old(MappedRange(k.S(), root, 0, Up(sz)))
    ensures !panic ==> NoRoles(k.S(), root) && Frame(old(k.S()), k.S(), root)
  {
    hide Shape, Pool, Frame, Closed, Bijection, NoLeaves, Shrunk, Backed, RangeUpdate, NoLeavesAbove, NoneRange, MappedRange, NoRoles;
    ghost var s0 := k.S();
    NothingMapped(s0, k.held, root, sz);
    if sz > 0 {
      ghost var a;
      panic, a := UvmUnmap(k, root, 0, Up(sz), true);
      if panic { return true; }
    }
    panic := false;
    ghost var s1 := k.S();
    BareTree(s0, s1, k.held, root, Up(sz));
    ghost var t := Node(root, 2, 0);
    FreeTree(k, root, t, {t});
    TreeGone(s0, s1, k.S(), root);
  }

  ghost predicate NoLeavesAbove(s: Memory, root: nat, n: nat) {
    Backed(s) && forall v: nat :: v >= n ==> Translate(s, root, v) == None
  }

  lemma NothingMapped(s: Memory, h: set<nat>, root: nat, sz: nat)
    requires Shape(s, {})
    ensures sz == 0 ==> RangeUpdate(s, s, h, root, 0, Up(sz)) && NoneRange(s, root, 0, Up(sz)) && MappedRange(s, root, 0, Up(sz))
  {
    RangeSame(s, h, root, 0, 0);
  }

  lemma BareTree(s0: Memory, s1: Memory, h: set<nat>, root: nat, n: nat)
    requires NoLeavesAbove(s0, root, n) && RangeUpdate(s0, s1, h, root, 0, n) && NoneRange(s1, root, 0, n)
    requires Shape(s1, {}) && Node(root, 2, 0) in s1.where
    ensures NoLeaves(s1, root) && Frame(s0, s1, root) && s1.where[Node(root, 2, 0)] == root
    ensures Shape(s1, {Node(root, 2, 0)}) && Ancestors({Node(root, 2, 0)}, Node(root, 2, 0))
  {
    assert GoodRole(Node(root, 2, 0), s1.where[Node(root, 2, 0)]);
    forall v: nat ensures Translate(s1, root, v) == None {
      if v >= n { OutsideSame(s0, s1, h, root, 0, n, v); }
    }
    hide Closed, Bijection, Translate;
  }

  /** With the root gone, so is everything that hung below it. */
  lemma TreeGone(s0: Memory, s1: Memory, s2: Memory, root: nat)
    requires Shape(s2, {Node(root, 2, 0)}) && Node(root, 2, 0) !in s2.where
    requires Frame(s0, s1, root) && Frame(s1, s2, root)
    ensures Shape(s2, {}) && NoRoles(s2, root) && Frame(s0, s2, root)
  {
    FrameTrans(s0, s1, s2, root);
    assert SlotOk(s2, root, 2, 0);
    forall t | t in s2.where ensures t.root != root {
      NoOrphan(s2, root, t);
    }
    hide Closed, Bijection, LeafOk, Frame, NoRoles;
  }

  lemma {:induction false} NoOrphan(s: Memory, root: nat, t: Role)
    requires Backed(s) && t in s.where && Node(root, 2, 0) !in s.where
    ensures t.root != root
    decreases if t.Node? then 2 - t.level else 3
  {
    assert GoodRole(t, s.where[t]);
    if t.Node? ==> t.level < 2 { NoOrphan(s, root, Parent(t)); }
  }
}
