/** The three-level Sv39 page tables of Lab3/xv6-riscv/kernel/vm.c as values: physical
    memory, the tree each root stands for, and the flat map it must agree with.

    Ghost bookkeeping says what every allocated page is for: `where` maps a role to the
    page that plays it and `owner` is its inverse. */
module PageTable {
  import opened Wrappers

  const ENTRIES := 512
  const MAXPAGE := 0x400_0000        // MAXVA / PGSIZE
  const TRAMPOLINE := 0x3FF_FFFF     // page numbers of the two top pages of every user space
  const TRAPFRAME := 0x3FF_FFFE

  /** The ten flag bits of an entry; `rest` stands for the ones the kernel never looks at. */
  datatype Flags = Flags(v: bool, r: bool, w: bool, x: bool, u: bool, rest: nat)

  /** A 64-bit entry: physical page number and flags. Any word of memory reads as one. */
  datatype Pte = Pte(ppn: nat, f: Flags)

  type Page = seq<Pte>

  const NOFLAGS := Flags(false, false, false, false, false, 0)

  function Zero(): Pte { Pte(0, NOFLAGS) }

  /** memset(p, 0, PGSIZE) */
  function ZeroPage(): (p: Page)
    ensures |p| == ENTRIES && forall i :: 0 <= i < ENTRIES ==> p[i] == Zero()
  {
    seq(ENTRIES, i => Zero())
  }

  /** What kalloc and kfree leave in a page: bytes 5 and 1, both with the valid bit set. */
  function Junk(byte: nat): (p: Page)
    ensures |p| == ENTRIES
  {
    seq(ENTRIES, i => Pte(byte, Flags(true, false, byte == 5, false, false, byte)))
  }

  predicate IsLeaf(e: Pte) { e.f.r || e.f.w || e.f.x }

  function Pointer(p: nat): Pte { Pte(p, NOFLAGS.(v := true)) }

  /** What a page is for: the node of the tree of `root` that covers the page numbers with
      prefix c at this level, or the memory behind user page number v. */
  datatype Role = Node(root: nat, level: nat, c: nat) | User(root: nat, v: nat)

  datatype Memory = Memory(mem: map<nat, Page>, where: map<Role, nat>, owner: map<nat, Role>)

  /** The index PX(level, va) and the node of that level on the path of page number v. */
  function Px(level: nat, v: nat): (i: nat)
    requires level <= 2 && v < MAXPAGE
    ensures i < ENTRIES
  {
    if level == 0 then v % 512 else if level == 1 then v / 512 % 512 else v / 512 / 512
  }

  function OnPath(root: nat, level: nat, v: nat): Role
    requires level <= 2
  {
    if level == 0 then Node(root, 0, v / 512)
    else if level == 1 then Node(root, 1, v / 512 / 512)
    else Node(root, 2, 0)
  }

  /** The bottom node that holds the entry of page number v, and the index there. */
  function Bottom(root: nat, v: nat): (n: Role)
    ensures n.Node? && n.root == root && n.level == 0
  {
    Node(root, 0, v / 512)
  }

  function Ix(v: nat): (i: nat)
    ensures i < ENTRIES
  {
    v % 512
  }

  lemma BottomIx(r: nat, v: nat, r': nat, v': nat)
    requires Bottom(r, v) == Bottom(r', v') && Ix(v) == Ix(v')
    ensures r == r' && v == v'
  {
    assert v == v / 512 * 512 + v % 512 && v' == v' / 512 * 512 + v' % 512;
  }

  /** The node above node (root, l, c); Ix(c) is the index there. */
  function Above(root: nat, l: nat, c: nat): (n: Role)
    ensures n.Node? && n.root == root && n.level == l + 1
  {
    Node(root, l + 1, c / 512)
  }

  lemma AboveIx(r: nat, l: nat, c: nat, r': nat, l': nat, c': nat)
    requires Above(r, l, c) == Above(r', l', c') && Ix(c) == Ix(c')
    ensures Node(r, l, c) == Node(r', l', c')
  {
    assert c == c / 512 * 512 + c % 512 && c' == c' / 512 * 512 + c' % 512;
  }

  ghost predicate GoodRole(t: Role, p: nat) {
    match t
    case Node(r, l, c) => l <= 2 && (l == 2 ==> c == 0 && p == r) && (l == 1 ==> c < 256) && (l == 0 ==> c < 256 * 512)
    case User(r, v) => v < TRAPFRAME
  }

  function Parent(t: Role): Role
    requires t.Node? ==> t.level < 2
  {
    match t
    case Node(r, l, c) => Above(r, l, c)
    case User(r, v) => Bottom(r, v)
  }

  ghost predicate Bijection(where: map<Role, nat>, owner: map<nat, Role>) {
    && (forall t :: t in where ==> where[t] in owner && owner[where[t]] == t)
    && (forall p :: p in owner ==> owner[p] in where && where[owner[p]] == p)
  }

  ghost predicate Sized(mem: map<nat, Page>) {
    forall p :: p in mem ==> |mem[p]| == ENTRIES
  }

  /** Roles are within their level and below MAXVA, and a page with a role has the pages above it. */
  ghost predicate Closed(where: map<Role, nat>) {
    && (forall t :: t in where ==> GoodRole(t, where[t]))
    && (forall t {:trigger Parent(t)} :: t in where && (t.Node? ==> t.level < 2) ==> Parent(t) in where)
  }

  ghost predicate Backed(s: Memory) {
    && Sized(s.mem)
    && (forall p :: p in s.owner ==> p in s.mem)
    && Bijection(s.where, s.owner)
    && Closed(s.where)
  }

  /** The entry of node n, at index i. */
  function Entry(s: Memory, n: Role, i: nat): Pte
    requires n in s.where && s.where[n] in s.mem && i < |s.mem[s.where[n]]|
  {
    s.mem[s.where[n]][i]
  }

  /** The entry above node (r, l, c) is valid exactly when the node exists, and points to it. */
  ghost predicate SlotOk(s: Memory, r: nat, l: nat, c: nat)
    requires Backed(s)
  {
    l < 2 && Above(r, l, c) in s.where && (l == 1 ==> c < 512) ==>
      var e := Entry(s, Above(r, l, c), Ix(c));
      && (e.f.v <==> Node(r, l, c) in s.where)
      && (e.f.v ==> e == Pointer(s.where[Node(r, l, c)]))
  }

  /** A valid bottom entry is a leaf; below TRAPFRAME it owns the page it maps. */
  ghost predicate LeafOk(s: Memory, r: nat, v: nat)
    requires Backed(s)
  {
    Bottom(r, v) in s.where ==>
      var e := Entry(s, Bottom(r, v), Ix(v));
      && (e.f.v ==> IsLeaf(e))
      && (v < TRAPFRAME ==> (e.f.v <==> User(r, v) in s.where))
      && (v < TRAPFRAME && e.f.v ==> e.ppn == s.where[User(r, v)])
  }

  /** Memory holds well-formed trees, but for the entries above the nodes in `gone`. */
  ghost predicate Shape(s: Memory, gone: set<Role>) {
    && Backed(s)
    && (forall r: nat, l: nat, c: nat {:trigger SlotOk(s, r, l, c)} :: Node(r, l, c) !in gone ==> SlotOk(s, r, l, c))
    && (forall r: nat, v: nat {:trigger LeafOk(s, r, v)} :: LeafOk(s, r, v))
  }

  /** The flat map: what page number v means under root r. */
  ghost function Translate(s: Memory, r: nat, v: nat): Option<Pte>
    requires Backed(s)
  {
    if Bottom(r, v) in s.where && Entry(s, Bottom(r, v), Ix(v)).f.v
    then Some(Entry(s, Bottom(r, v), Ix(v))) else None
  }

  /** VPN[level] of a page number: nine bits for each level, the lowest for level 0. */
  function Vpn(level: nat, v: nat): (i: nat)
    ensures i < ENTRIES
  {
    if level == 0 then v % 512 else Vpn(level - 1, v / 512)
  }

  lemma VpnIsPx(level: nat, v: nat)
    requires level <= 2 && v < MAXPAGE
    ensures Vpn(level, v) == Px(level, v)
  {
    assert level == 2 ==> Vpn(2, v) == Vpn(1, v / 512) == Vpn(0, v / 512 / 512);
  }

  /** The radix walk of the hardware, Sv39 section 4.4.1 of the RISC-V Privileged
      Specification: entry by entry from the root, on physical memory alone. */
  function HardwareWalk(mem: map<nat, Page>, page: nat, level: nat, v: nat): Option<Pte>
    requires level <= 2 && v < MAXPAGE
    requires forall p :: p in mem ==> |mem[p]| == ENTRIES
    decreases level
  {
    if page !in mem then None
    else
      var e := mem[page][Vpn(level, v)];
      if !e.f.v then None
      else if IsLeaf(e) then (if level == 0 then Some(e) else None)
      else if level == 0 then None
      else HardwareWalk(mem, e.ppn, level - 1, v)
  }

  lemma PathStep(root: nat, level: nat, v: nat)
    requires 0 < level <= 2 && v < MAXPAGE
    ensures var n := OnPath(root, level - 1, v);
            && Above(root, level - 1, n.c) == OnPath(root, level, v)
            && Ix(n.c) == Px(level, v)
            && (level == 2 ==> n.c < 512)
  {
  }

  lemma {:induction false} WalkFrom(s: Memory, r: nat, level: nat, v: nat)
    requires Shape(s, {}) && level <= 2 && v < MAXPAGE
    requires OnPath(r, level, v) in s.where
    ensures HardwareWalk(s.mem, s.where[OnPath(r, level, v)], level, v) == Translate(s, r, v)
  {
    VpnIsPx(level, v);
    if level == 0 {
      assert LeafOk(s, r, v);
    } else {
      PathStep(r, level, v);
      var n := OnPath(r, level - 1, v);
      assert SlotOk(s, r, level - 1, n.c);
      if n in s.where {
        WalkFrom(s, r, level - 1, v);
      } else {
        MissingNode(s, r, level - 1, v);
      }
    }
  }

  lemma MissingNode(s: Memory, r: nat, level: nat, v: nat)
    requires Backed(s) && level <= 1 && v < MAXPAGE && OnPath(r, level, v) !in s.where
    ensures Translate(s, r, v) == None
  {
    assert Parent(Bottom(r, v)) == OnPath(r, 1, v);
  }

  /** The radix tree refines the flat map, for every page number below MAXVA. */
  lemma TreeRefinesFlatMap(s: Memory, r: nat, v: nat)
    requires Shape(s, {}) && Node(r, 2, 0) in s.where && v < MAXPAGE
    ensures HardwareWalk(s.mem, r, 2, v) == Translate(s, r, v)
  {
    WalkFrom(s, r, 2, v);
  }

  /** Distinct page numbers, or distinct roots, have distinct entries. */
  lemma DistinctEntries(s: Memory, r: nat, v: nat, r': nat, v': nat)
    requires Bijection(s.where, s.owner) && (r, v) != (r', v')
    requires Bottom(r, v) in s.where && Bottom(r', v') in s.where
    ensures (s.where[Bottom(r, v)], Ix(v)) != (s.where[Bottom(r', v')], Ix(v'))
  {
    hide Bottom, Ix;
    if s.where[Bottom(r, v)] == s.where[Bottom(r', v')] && Ix(v) == Ix(v') {
      assert Bottom(r, v) == Bottom(r', v');
      BottomIx(r, v, r', v');
    }
  }

  // ---- the updates the kernel makes ----

  function SetEntry(s: Memory, n: Role, i: nat, e: Pte): Memory
    requires n in s.where && s.where[n] in s.mem && i < |s.mem[s.where[n]]|
  {
    s.(mem := s.mem[s.where[n] := s.mem[s.where[n]][i := e]])
  }

  /** Setting one entry leaves the others of every node. */
  lemma OtherEntries(s: Memory, n: Role, i: nat, e: Pte, m: Role, j: nat)
    requires Sized(s.mem) && Bijection(s.where, s.owner) && i < ENTRIES && j < ENTRIES
    requires n in s.where && m in s.where && s.where[n] in s.mem && s.where[m] in s.mem
    ensures Sized(SetEntry(s, n, i, e).mem)
    ensures Entry(SetEntry(s, n, i, e), m, j) == if (m, j) == (n, i) then e else Entry(s, m, j)
  {
  }

  lemma RoleInMemory(s: Memory, t: Role)
    requires Backed(s) && t in s.where
    ensures s.where[t] in s.mem && |s.mem[s.where[t]]| == ENTRIES && s.where[t] in s.owner
  {
  }

  /** The new node may be added: its page is free of roles and its parent exists. */
  ghost predicate CanAddNode(s: Memory, t: Role, p: nat) {
    && Backed(s) && t.Node? && t.level < 2 && Parent(t) in s.where && t !in s.where
    && p in s.mem && p !in s.owner && GoodRole(t, p)
  }

  /** A fresh page, zeroed, becomes node t, and the entry above points to it. */
  ghost function AddNode(s: Memory, t: Role, p: nat): Memory
    requires CanAddNode(s, t, p)
  {
    var s1 := SetEntry(s, Parent(t), Ix(t.c), Pointer(p));
    Memory(s1.mem[p := ZeroPage()], s.where[t := p], s.owner[p := t])
  }

  lemma AddBijection(where: map<Role, nat>, owner: map<nat, Role>, t: Role, p: nat)
    requires Bijection(where, owner) && t !in where && p !in owner
    ensures Bijection(where[t := p], owner[p := t])
  {
  }

  lemma AddClosed(where: map<Role, nat>, t: Role, p: nat)
    requires Closed(where) && GoodRole(t, p) && (t.Node? ==> t.level < 2) && Parent(t) in where && t !in where
    ensures Closed(where[t := p])
  {
  }

  lemma AddNodeBacked(s: Memory, t: Role, p: nat)
    requires CanAddNode(s, t, p)
    ensures Backed(AddNode(s, t, p))
  {
    AddBijection(s.where, s.owner, t, p);
    AddClosed(s.where, t, p);
    hide Closed, Bijection, GoodRole;
  }

  /** Entries after AddNode: the new node is all zero, the entry above it points to it. */
  lemma AddNodeEntry(s: Memory, t: Role, p: nat, n: Role, i: nat)
    requires CanAddNode(s, t, p) && i < ENTRIES && (n == t || n in s.where)
    ensures Backed(AddNode(s, t, p)) && n in AddNode(s, t, p).where
    ensures AddNode(s, t, p).where[n] in AddNode(s, t, p).mem
    ensures Entry(AddNode(s, t, p), n, i)
            == if n == t then Zero() else if n == Parent(t) && i == Ix(t.c) then Pointer(p) else Entry(s, n, i)
  {
    AddNodeBacked(s, t, p);
    hide Closed, Ix, Parent;
  }

  lemma AddNodeSlot(s: Memory, t: Role, p: nat, r: nat, l: nat, c: nat)
    requires CanAddNode(s, t, p) && SlotOk(s, r, l, c)
    ensures Backed(AddNode(s, t, p)) && SlotOk(AddNode(s, t, p), r, l, c)
  {
    AddNodeBacked(s, t, p);
    hide GoodRole, Ix, Above, Entry, Bijection, Sized;
    var n := Above(r, l, c);
    if l < 2 && (n == t || n in s.where) {
      AddNodeEntry(s, t, p, n, Ix(c));
      assert Parent(Node(r, l, c)) == n;
      if n == Parent(t) && Ix(c) == Ix(t.c) { AboveIx(r, l, c, t.root, t.level, t.c); }
    }
  }

  lemma AddNodeLeaf(s: Memory, t: Role, p: nat, r: nat, v: nat)
    requires CanAddNode(s, t, p) && LeafOk(s, r, v)
    ensures Backed(AddNode(s, t, p)) && LeafOk(AddNode(s, t, p), r, v)
    ensures Translate(AddNode(s, t, p), r, v) == Translate(s, r, v)
  {
    AddNodeBacked(s, t, p);
    hide GoodRole, Ix, Above, Bottom, Entry, Bijection, Sized;
    var n := Bottom(r, v);
    assert Parent(User(r, v)) == n;
    if n == t || n in s.where { AddNodeEntry(s, t, p, n, Ix(v)); }
  }

  /** A new interior node keeps the shape and changes no translation of any root. */
  lemma AddNodeKeeps(s: Memory, t: Role, p: nat)
    requires Shape(s, {}) && CanAddNode(s, t, p)
    ensures Shape(AddNode(s, t, p), {})
    ensures forall r: nat, v: nat :: Translate(AddNode(s, t, p), r, v) == Translate(s, r, v)
  {
    hide SlotOk, LeafOk, Translate, AddNode, CanAddNode, Bijection, Closed, Sized;
    var s' := AddNode(s, t, p);
    AddNodeBacked(s, t, p);
    forall r: nat, l: nat, c: nat ensures SlotOk(s', r, l, c) {
      assert SlotOk(s, r, l, c);
      AddNodeSlot(s, t, p, r, l, c);
    }
    forall r: nat, v: nat
      ensures LeafOk(s', r, v)
      ensures Translate(s', r, v) == Translate(s, r, v)
    {
      assert LeafOk(s, r, v);
      AddNodeLeaf(s, t, p, r, v);
    }
  }

  ghost predicate CanSetLeaf(s: Memory, r: nat, v: nat, e: Pte) {
    && Backed(s) && Bottom(r, v) in s.where && e.f.v && IsLeaf(e)
    && (v < TRAPFRAME ==> User(r, v) !in s.where && e.ppn in s.mem && e.ppn !in s.owner)
  }

  /** The bottom entry of v maps e; below TRAPFRAME the tree takes its page over. */
  ghost function SetLeaf(s: Memory, r: nat, v: nat, e: Pte): Memory
    requires CanSetLeaf(s, r, v, e)
  {
    var s1 := SetEntry(s, Bottom(r, v), Ix(v), e);
    if v < TRAPFRAME then s1.(where := s.where[User(r, v) := e.ppn], owner := s.owner[e.ppn := User(r, v)])
    else s1
  }

  lemma SetLeafBacked(s: Memory, r: nat, v: nat, e: Pte)
    requires CanSetLeaf(s, r, v, e)
    ensures Backed(SetLeaf(s, r, v, e))
  {
    hide Ix, Bottom;
    if v < TRAPFRAME {
      AddBijection(s.where, s.owner, User(r, v), e.ppn);
      AddClosed(s.where, User(r, v), e.ppn);
    }
    hide Closed, Bijection, GoodRole;
  }

  lemma SetLeafEntry(s: Memory, r: nat, v: nat, e: Pte, n: Role, i: nat)
    requires CanSetLeaf(s, r, v, e) && n.Node? && n in s.where && i < ENTRIES
    ensures Backed(SetLeaf(s, r, v, e)) && n in SetLeaf(s, r, v, e).where
    ensures SetLeaf(s, r, v, e).where[n] == s.where[n] && s.where[n] in SetLeaf(s, r, v, e).mem
    ensures Entry(SetLeaf(s, r, v, e), n, i) == if n == Bottom(r, v) && i == Ix(v) then e else Entry(s, n, i)
  {
    SetLeafBacked(s, r, v, e);
    RoleInMemory(s, n);
    OtherEntries(s, Bottom(r, v), Ix(v), e, n, i);
    hide Closed, Ix, Bottom, Bijection;
  }

  lemma SetLeafSlot(s: Memory, r: nat, v: nat, e: Pte, r': nat, l: nat, c: nat)
    requires CanSetLeaf(s, r, v, e) && SlotOk(s, r', l, c)
    ensures Backed(SetLeaf(s, r, v, e)) && SlotOk(SetLeaf(s, r, v, e), r', l, c)
  {
    SetLeafBacked(s, r, v, e);
    hide Closed, Ix, Bottom, Bijection, Sized, Entry, Above;
    if l < 2 && Above(r', l, c) in s.where { SetLeafEntry(s, r, v, e, Above(r', l, c), Ix(c)); }
  }

  lemma SetLeafLeaf(s: Memory, r: nat, v: nat, e: Pte, r': nat, v': nat)
    requires CanSetLeaf(s, r, v, e) && LeafOk(s, r', v')
    ensures Backed(SetLeaf(s, r, v, e)) && LeafOk(SetLeaf(s, r, v, e), r', v')
    ensures Translate(SetLeaf(s, r, v, e), r', v')
            == if (r', v') == (r, v) then Some(e) else Translate(s, r', v')
  {
    SetLeafBacked(s, r, v, e);
    hide Closed, Ix, Bottom, Bijection, Sized, Entry;
    if Bottom(r', v') in s.where {
      SetLeafEntry(s, r, v, e, Bottom(r', v'), Ix(v'));
      if Bottom(r', v') == Bottom(r, v) && Ix(v') == Ix(v) { BottomIx(r, v, r', v'); }
    }
  }

  lemma SetLeafKeeps(s: Memory, r: nat, v: nat, e: Pte)
    requires Shape(s, {}) && CanSetLeaf(s, r, v, e)
    ensures Shape(SetLeaf(s, r, v, e), {})
    ensures forall r': nat, v': nat :: Translate(SetLeaf(s, r, v, e), r', v')
                             == if (r', v') == (r, v) then Some(e) else Translate(s, r', v')
  {
    hide SlotOk, LeafOk, Translate, SetLeaf, CanSetLeaf, Bijection, Closed, Sized;
    var s' := SetLeaf(s, r, v, e);
    SetLeafBacked(s, r, v, e);
    forall r': nat, l: nat, c: nat ensures SlotOk(s', r', l, c) {
      assert SlotOk(s, r', l, c);
      SetLeafSlot(s, r, v, e, r', l, c);
    }
    forall r': nat, v': nat
      ensures LeafOk(s', r', v')
      ensures Translate(s', r', v') == if (r', v') == (r, v) then Some(e) else Translate(s, r', v')
    {
      assert LeafOk(s, r', v');
      SetLeafLeaf(s, r, v, e, r', v');
    }
  }

  function Forget(s: Memory, t: Role): Memory
    requires t in s.where
  {
    s.(where := s.where - {t}, owner := s.owner - {s.where[t]})
  }

  lemma ForgetBijection(s: Memory, t: Role)
    requires Bijection(s.where, s.owner) && t in s.where
    ensures Bijection(Forget(s, t).where, Forget(s, t).owner)
  {
  }

  /** The bottom entry of v is zeroed; below TRAPFRAME the tree gives its page up. */
  ghost function ClearLeaf(s: Memory, r: nat, v: nat): Memory
    requires Backed(s) && Bottom(r, v) in s.where
  {
    var s1 := SetEntry(s, Bottom(r, v), Ix(v), Zero());
    if User(r, v) in s.where then Forget(s1, User(r, v)) else s1
  }

  lemma ForgetClosed(where: map<Role, nat>, t: Role)
    requires Closed(where) && t.User?
    ensures Closed(where - {t})
  {
  }

  lemma ClearLeafBacked(s: Memory, r: nat, v: nat)
    requires Backed(s) && Bottom(r, v) in s.where
    ensures Backed(ClearLeaf(s, r, v))
  {
    hide Ix, Bottom;
    if User(r, v) in s.where {
      ForgetBijection(s, User(r, v));
      ForgetClosed(s.where, User(r, v));
    }
    hide Closed, GoodRole;
  }

  lemma ClearLeafEntry(s: Memory, r: nat, v: nat, n: Role, i: nat)
    requires Backed(s) && Bottom(r, v) in s.where && n.Node? && n in s.where && i < ENTRIES
    ensures Backed(ClearLeaf(s, r, v)) && n in ClearLeaf(s, r, v).where
    ensures ClearLeaf(s, r, v).where[n] == s.where[n] && s.where[n] in ClearLeaf(s, r, v).mem
    ensures Entry(ClearLeaf(s, r, v), n, i) == if n == Bottom(r, v) && i == Ix(v) then Zero() else Entry(s, n, i)
  {
    ClearLeafBacked(s, r, v);
    RoleInMemory(s, n);
    OtherEntries(s, Bottom(r, v), Ix(v), Zero(), n, i);
    hide Closed, Ix, Bottom, Bijection;
  }

  lemma ClearLeafSlot(s: Memory, r: nat, v: nat, r': nat, l: nat, c: nat)
    requires Backed(s) && Bottom(r, v) in s.where && SlotOk(s, r', l, c)
    ensures Backed(ClearLeaf(s, r, v)) && SlotOk(ClearLeaf(s, r, v), r', l, c)
  {
    ClearLeafBacked(s, r, v);
    hide Closed, Ix, Bottom, Bijection, Sized, Entry, Above;
    if l < 2 && Above(r', l, c) in s.where { ClearLeafEntry(s, r, v, Above(r', l, c), Ix(c)); }
  }

  lemma ClearLeafLeaf(s: Memory, r: nat, v: nat, r': nat, v': nat)
    requires Backed(s) && Bottom(r, v) in s.where && LeafOk(s, r', v')
    ensures Backed(ClearLeaf(s, r, v)) && LeafOk(ClearLeaf(s, r, v), r', v')
    ensures Translate(ClearLeaf(s, r, v), r', v') == if (r', v') == (r, v) then None else Translate(s, r', v')
  {
    ClearLeafBacked(s, r, v);
    hide Closed, Ix, Bottom, Bijection, Sized, Entry;
    if Bottom(r', v') in s.where {
      ClearLeafEntry(s, r, v, Bottom(r', v'), Ix(v'));
      if Bottom(r', v') == Bottom(r, v) && Ix(v') == Ix(v) { BottomIx(r, v, r', v'); }
    }
  }

  lemma ClearLeafKeeps(s: Memory, r: nat, v: nat)
    requires Shape(s, {}) && Bottom(r, v) in s.where
    ensures Shape(ClearLeaf(s, r, v), {})
    ensures forall r': nat, v': nat :: Translate(ClearLeaf(s, r, v), r', v')
                             == if (r', v') == (r, v) then None else Translate(s, r', v')
  {
    hide SlotOk, LeafOk, Translate, ClearLeaf, Bijection, Closed, Sized;
    var s' := ClearLeaf(s, r, v);
    ClearLeafBacked(s, r, v);
    forall r': nat, l: nat, c: nat ensures SlotOk(s', r', l, c) {
      assert SlotOk(s, r', l, c);
      ClearLeafSlot(s, r, v, r', l, c);
    }
    forall r': nat, v': nat
      ensures LeafOk(s', r', v')
      ensures Translate(s', r', v') == if (r', v') == (r, v) then None else Translate(s, r', v')
    {
      assert LeafOk(s, r', v');
      ClearLeafLeaf(s, r, v, r', v');
    }
  }

  // ---- data pages, and pages without a role ----

  lemma DataSlot(s: Memory, p: nat, data: Page, r: nat, l: nat, c: nat)
    requires Backed(s) && SlotOk(s, r, l, c) && |data| == ENTRIES && p in s.mem
    requires p in s.owner ==> s.owner[p].User?
    ensures Backed(s.(mem := s.mem[p := data])) && SlotOk(s.(mem := s.mem[p := data]), r, l, c)
  {
    hide Closed, Above, Ix;
  }

  lemma DataLeaf(s: Memory, p: nat, data: Page, r: nat, v: nat)
    requires Backed(s) && LeafOk(s, r, v) && |data| == ENTRIES && p in s.mem
    requires p in s.owner ==> s.owner[p].User?
    ensures Backed(s.(mem := s.mem[p := data])) && LeafOk(s.(mem := s.mem[p := data]), r, v)
    ensures Translate(s.(mem := s.mem[p := data]), r, v) == Translate(s, r, v)
  {
    hide Closed, Bottom, Ix;
  }

  /** What is written to a page that is no node of a tree cannot disturb one. */
  lemma DataKeeps(s: Memory, p: nat, data: Page, gone: set<Role>)
    requires Shape(s, gone) && |data| == ENTRIES && p in s.mem
    requires p in s.owner ==> s.owner[p].User?
    ensures Shape(s.(mem := s.mem[p := data]), gone)
    ensures forall r: nat, v: nat :: Translate(s.(mem := s.mem[p := data]), r, v) == Translate(s, r, v)
  {
    hide SlotOk, LeafOk, Translate, Closed;
    var s' := s.(mem := s.mem[p := data]);
    forall r: nat, l: nat, c: nat | Node(r, l, c) !in gone ensures SlotOk(s', r, l, c) {
      assert SlotOk(s, r, l, c);
      DataSlot(s, p, data, r, l, c);
    }
    forall r: nat, v: nat ensures LeafOk(s', r, v) && Translate(s', r, v) == Translate(s, r, v) {
      assert LeafOk(s, r, v);
      DataLeaf(s, p, data, r, v);
    }
  }

  // ---- taking a tree down ----

  /** Clearing the entry above a node that is already gone. */
  lemma ClearSlotSlot(s: Memory, t: Role, r: nat, l: nat, c: nat)
    requires Backed(s) && t.Node? && t.level < 2 && Parent(t) in s.where && t !in s.where
    requires Node(r, l, c) == t || SlotOk(s, r, l, c)
    ensures Backed(SetEntry(s, Parent(t), Ix(t.c), Zero()))
    ensures SlotOk(SetEntry(s, Parent(t), Ix(t.c), Zero()), r, l, c)
  {
    hide Closed, Ix, Above;
    if l < 2 && Above(r, l, c) in s.where {
      OtherEntries(s, Parent(t), Ix(t.c), Zero(), Above(r, l, c), Ix(c));
      if Above(r, l, c) == Parent(t) && Ix(c) == Ix(t.c) { AboveIx(r, l, c, t.root, t.level, t.c); }
    }
  }

  lemma ClearSlotLeaf(s: Memory, t: Role, r: nat, v: nat)
    requires Backed(s) && t.Node? && t.level < 2 && Parent(t) in s.where && LeafOk(s, r, v)
    ensures Backed(SetEntry(s, Parent(t), Ix(t.c), Zero()))
    ensures LeafOk(SetEntry(s, Parent(t), Ix(t.c), Zero()), r, v)
    ensures Translate(SetEntry(s, Parent(t), Ix(t.c), Zero()), r, v) == Translate(s, r, v)
  {
    hide Closed, Ix, Bottom, Above;
    if Bottom(r, v) in s.where {
      OtherEntries(s, Parent(t), Ix(t.c), Zero(), Bottom(r, v), Ix(v));
    }
  }

  lemma ClearSlotBacked(s: Memory, t: Role)
    requires Backed(s) && t.Node? && t.level < 2 && Parent(t) in s.where
    ensures Backed(SetEntry(s, Parent(t), Ix(t.c), Zero()))
  {
    hide Closed, Ix, Above;
  }

  lemma ClearSlotKeeps(s: Memory, t: Role, gone: set<Role>)
    requires Shape(s, gone + {t}) && t.Node? && t.level < 2 && Parent(t) in s.where && t !in s.where
    ensures Shape(SetEntry(s, Parent(t), Ix(t.c), Zero()), gone)
    ensures forall r: nat, v: nat ::
              Translate(SetEntry(s, Parent(t), Ix(t.c), Zero()), r, v) == Translate(s, r, v)
  {
    ClearSlotBacked(s, t);
    RoleInMemory(s, Parent(t));
    hide SlotOk, LeafOk, Translate, Closed, Bijection, SetEntry, Sized;
    var s' := SetEntry(s, Parent(t), Ix(t.c), Zero());
    forall r: nat, l: nat, c: nat | Node(r, l, c) !in gone ensures Backed(s') && SlotOk(s', r, l, c) {
      if Node(r, l, c) != t { assert SlotOk(s, r, l, c); }
      ClearSlotSlot(s, t, r, l, c);
    }
    forall r: nat, v: nat ensures Backed(s') && LeafOk(s', r, v) && Translate(s', r, v) == Translate(s, r, v) {
      assert LeafOk(s, r, v);
      ClearSlotLeaf(s, t, r, v);
    }
  }

  /** Node t is childless and the entry above it is accounted for: its page may go. */
  ghost predicate CanForget(s: Memory, t: Role) {
    && Backed(s) && t in s.where && t.Node?
    && forall x {:trigger Parent(x)} :: x in s.where && (x.Node? ==> x.level < 2) ==> Parent(x) != t
  }

  lemma ForgetBacked(s: Memory, t: Role)
    requires CanForget(s, t)
    ensures Backed(Forget(s, t))
  {
    hide GoodRole, Parent;
    ForgetBijection(s, t);
  }

  lemma ForgetSlot(s: Memory, t: Role, r: nat, l: nat, c: nat)
    requires CanForget(s, t) && SlotOk(s, r, l, c) && Node(r, l, c) != t
    ensures Backed(Forget(s, t)) && SlotOk(Forget(s, t), r, l, c)
  {
    ForgetBacked(s, t);
    hide Closed, Ix, Above, CanForget;
  }

  lemma ForgetLeaf(s: Memory, t: Role, r: nat, v: nat)
    requires CanForget(s, t) && LeafOk(s, r, v)
    requires forall u: nat :: Bottom(r, u) == t ==> Translate(s, r, u) == None
    ensures Backed(Forget(s, t)) && LeafOk(Forget(s, t), r, v)
    ensures Translate(Forget(s, t), r, v) == Translate(s, r, v)
  {
    ForgetBacked(s, t);
    hide Closed, Ix, Bottom, CanForget;
  }

  lemma ForgetKeeps(s: Memory, t: Role, gone: set<Role>)
    requires Shape(s, gone) && CanForget(s, t) && t in gone
    requires forall u: nat :: Translate(s, t.root, u) == None
    ensures Shape(Forget(s, t), gone)
    ensures forall r: nat, v: nat :: Translate(Forget(s, t), r, v) == Translate(s, r, v)
  {
    ForgetBacked(s, t);
    hide SlotOk, LeafOk, Translate, Closed, Bijection, Forget, CanForget;
    var s' := Forget(s, t);
    forall r: nat, l: nat, c: nat | Node(r, l, c) !in gone ensures SlotOk(s', r, l, c) {
      assert SlotOk(s, r, l, c);
      ForgetSlot(s, t, r, l, c);
    }
    forall r: nat, v: nat ensures LeafOk(s', r, v) && Translate(s', r, v) == Translate(s, r, v) {
      assert LeafOk(s, r, v);
      ForgetLeaf(s, t, r, v);
    }
  }

  // ---- the frame: what other address spaces can see ----

  /** No page of another address space changed hands or contents. */
  ghost predicate Frame(s: Memory, s': Memory, root: nat) {
    && (forall t :: t in s.where && t.root != root ==>
          t in s'.where && s'.where[t] == s.where[t]
          && s.where[t] in s.mem && s.where[t] in s'.mem && s'.mem[s.where[t]] == s.mem[s.where[t]])
    && (forall t :: t in s'.where && t.root != root ==> t in s.where)
  }

  lemma FrameTranslate(s: Memory, s': Memory, root: nat, r: nat, v: nat)
    requires Backed(s) && Backed(s') && Frame(s, s', root) && r != root
    ensures Translate(s', r, v) == Translate(s, r, v)
  {
    hide Closed, Bottom, Ix;
  }

  lemma FrameTrans(s: Memory, s1: Memory, s2: Memory, root: nat)
    requires Frame(s, s1, root) && Frame(s1, s2, root)
    ensures Frame(s, s2, root)
  {
  }

  /** The tree of root may have grown; it lost nothing, and every user page kept its contents. */
  ghost predicate Grown(s: Memory, s': Memory, root: nat) {
    && Frame(s, s', root)
    && (forall t :: t in s.where ==> t in s'.where && s'.where[t] == s.where[t])
    && (forall t :: t in s'.where ==> t in s.where || (t.Node? && t.root == root))
    && (forall t :: t in s.where && t.User? ==>
          s.where[t] in s.mem && s.where[t] in s'.mem && s'.mem[s.where[t]] == s.mem[s.where[t]])
  }

  lemma GrownTrans(s: Memory, s1: Memory, s2: Memory, root: nat)
    requires Grown(s, s1, root) && Grown(s1, s2, root)
    ensures Grown(s, s2, root)
  {
  }

  lemma AddNodeGrown(s: Memory, t: Role, p: nat)
    requires CanAddNode(s, t, p)
    ensures Grown(s, AddNode(s, t, p), t.root)
  {
    hide Closed, Ix, Above;
  }

  lemma DataFrame(s: Memory, p: nat, data: Page, root: nat)
    requires Backed(s) && p in s.mem && p !in s.owner
    ensures Grown(s, s.(mem := s.mem[p := data]), root)
  {
    hide Closed;
  }
}
