/** Bytes across the boundary between kernel and user: walkaddr, copyout, copyin and copyinstr
    of Lab3/xv6-riscv/kernel/vm.c, over page tables that the kernel has built and a physical
    memory of bytes. The bytes of a user page are kept apart from the entries of page tables;
    AwayFromTables says that the two never share a page. */
module UserBytes {
  import opened Wrappers
  import opened PageTable
  import opened Vm
  import P = Process
  import opened Sequences

  const PGSIZE := 4096

  /** PGROUNDDOWN */
  function PageStart(a: nat): (p: nat)
    ensures p <= a < p + PGSIZE
  {
    a / PGSIZE * PGSIZE
  }

  /** Address a of root's space is one that walkaddr accepts. */
  ghost predicate Reachable(s: Memory, root: nat, a: nat)
    requires Backed(s)
  {
    a / PGSIZE < MAXPAGE && Translate(s, root, a / PGSIZE).Some? && Translate(s, root, a / PGSIZE).value.f.u
  }

  ghost function PhysicalOf(s: Memory, root: nat, a: nat): nat
    requires Backed(s) && Reachable(s, root, a)
  {
    Translate(s, root, a / PGSIZE).value.ppn * PGSIZE + a % PGSIZE
  }

  /** The two top pages of a space are not for the user. */
  ghost predicate NoUserTop(s: Memory)
    requires Backed(s)
  {
    forall r: nat, v: nat :: v >= TRAPFRAME && Translate(s, r, v).Some? ==> !Translate(s, r, v).value.f.u
  }

  ghost predicate InRam(s: Memory, n: nat) { forall p :: p in s.owner ==> (p + 1) * PGSIZE <= n }

  /** Page tables over n bytes of memory. */
  ghost predicate Ready(s: Memory, n: nat) { Shape(s, {}) && NoUserTop(s) && InRam(s, n) }

  lemma ReadyBacked(s: Memory, n: nat)
    requires Ready(s, n)
    ensures Backed(s)
  {
  }

  /** The page behind a user address belongs to that address's page number alone. */
  lemma UserPage(s: Memory, n: nat, root: nat, a: nat)
    requires Ready(s, n) && Reachable(s, root, a)
    ensures var v := a / PGSIZE;
            && v < TRAPFRAME && User(root, v) in s.where && Translate(s, root, v).value.ppn == s.where[User(root, v)]
            && s.where[User(root, v)] in s.owner && s.owner[s.where[User(root, v)]] == User(root, v)
            && PhysicalOf(s, root, a) / PGSIZE == s.where[User(root, v)]
            && PhysicalOf(s, root, a) - a % PGSIZE + PGSIZE <= n
  {
    UserRole(s, root, a / PGSIZE);
    PageOf(Translate(s, root, a / PGSIZE).value.ppn, a % PGSIZE);
  }

  lemma PageOf(p: nat, r: nat)
    requires r < PGSIZE
    ensures (p * PGSIZE + r) / PGSIZE == p && (p * PGSIZE + r) % PGSIZE == r
  {
  }

  /** Different addresses, of one space or of two, have different bytes. */
  lemma BytesApart(s: Memory, n: nat, r: nat, a: nat, r': nat, a': nat)
    requires Ready(s, n) && Reachable(s, r, a) && Reachable(s, r', a') && PhysicalOf(s, r, a) == PhysicalOf(s, r', a')
    ensures r == r' && a == a'
  {
    UserPage(s, n, r, a);
    UserPage(s, n, r', a');
    PageOf(Translate(s, r, a / PGSIZE).value.ppn, a % PGSIZE);
    PageOf(Translate(s, r', a' / PGSIZE).value.ppn, a' % PGSIZE);
  }

  /** User bytes are in no page of any page table. */
  lemma AwayFromTables(s: Memory, n: nat, root: nat, a: nat, t: Role)
    requires Ready(s, n) && Reachable(s, root, a) && t.Node? && t in s.where
    ensures PhysicalOf(s, root, a) / PGSIZE != s.where[t]
  {
    UserPage(s, n, root, a);
  }

  /** What a program in root's space reads at address a. */
  ghost function Sees(s: Memory, ram: seq<bv8>, root: nat, a: nat): Option<bv8>
    requires Ready(s, |ram|)
  {
    if Reachable(s, root, a) then UserPage(s, |ram|, root, a); Some(ram[PhysicalOf(s, root, a)]) else None
  }

  /** Addresses a..a + n, in one page, are a run of bytes in memory. */
  lemma OnePage(s: Memory, ram: seq<bv8>, root: nat, a: nat, d: nat)
    requires Ready(s, |ram|) && Reachable(s, root, a) && a % PGSIZE + d < PGSIZE
    ensures Reachable(s, root, a + d) && PhysicalOf(s, root, a + d) == PhysicalOf(s, root, a) + d
    ensures PhysicalOf(s, root, a) + d < |ram| && Sees(s, ram, root, a + d) == Some(ram[PhysicalOf(s, root, a) + d])
  {
    assert (a + d) / PGSIZE == a / PGSIZE && (a + d) % PGSIZE == a % PGSIZE + d;
    UserPage(s, |ram|, root, a);
    UserPage(s, |ram|, root, a + d);
  }

  /** Bytes w stored at the physical address of a are seen at a.., and nowhere else by anybody. */
  lemma Stored(s: Memory, ram: seq<bv8>, root: nat, a: nat, w: seq<bv8>, r: nat, x: nat)
    requires Ready(s, |ram|) && Reachable(s, root, a) && 0 < |w| && a % PGSIZE + |w| <= PGSIZE
    ensures PhysicalOf(s, root, a) + |w| <= |ram|
    ensures var ram' := Patched(ram, PhysicalOf(s, root, a), w);
            && |ram'| == |ram|
            && Sees(s, ram', r, x) == if r == root && a <= x < a + |w| then Some(w[x - a]) else Sees(s, ram, r, x)
  {
    OnePage(s, ram, root, a, |w| - 1);
    if r == root && a <= x < a + |w| {
      OnePage(s, ram, root, a, x - a);
    } else if Reachable(s, r, x) {
      OutsideRun(s, ram, root, a, |w|, r, x);
    }
  }

  lemma OutsideRun(s: Memory, ram: seq<bv8>, root: nat, a: nat, n: nat, r: nat, x: nat)
    requires Ready(s, |ram|) && Reachable(s, root, a) && 0 < n && a % PGSIZE + n <= PGSIZE
    requires Reachable(s, r, x) && !(r == root && a <= x < a + n)
    ensures PhysicalOf(s, r, x) < |ram| && !(PhysicalOf(s, root, a) <= PhysicalOf(s, r, x) < PhysicalOf(s, root, a) + n)
  {
    UserPage(s, |ram|, r, x);
    var p, q := PhysicalOf(s, root, a), PhysicalOf(s, r, x);
    hide Shape, NoUserTop, InRam, Translate;
    if p <= q < p + n {
      OnePage(s, ram, root, a, q - p);
      BytesApart(s, |ram|, root, a + (q - p), r, x);
    }
  }

  /** The first `done` bytes of w have gone to address a of root's space, and nothing else has happened. */
  ghost predicate Written(s: Memory, ram0: seq<bv8>, ram: seq<bv8>, root: nat, a: nat, w: seq<bv8>, done: nat) {
    && Ready(s, |ram0|) && |ram| == |ram0| && done <= |w|
    && forall r: nat, x: nat :: WrittenAt(s, ram0, ram, root, a, w, done, r, x)
  }

  ghost predicate WrittenAt(s: Memory, ram0: seq<bv8>, ram: seq<bv8>, root: nat, a: nat, w: seq<bv8>, done: nat, r: nat, x: nat)
    requires Ready(s, |ram0|) && |ram| == |ram0| && done <= |w|
  {
    Sees(s, ram, r, x) == if r == root && a <= x < a + done then Some(w[x - a]) else Sees(s, ram0, r, x)
  }

  lemma WrittenMore(s: Memory, ram0: seq<bv8>, ram: seq<bv8>, root: nat, a: nat, w: seq<bv8>, done: nat, n: nat)
    requires Written(s, ram0, ram, root, a, w, done) && 0 < n && done + n <= |w|
    requires Reachable(s, root, a + done) && a + done + n <= PageStart(a + done) + PGSIZE
    ensures PhysicalOf(s, root, a + done) + n <= |ram|
    ensures Written(s, ram0, Patched(ram, PhysicalOf(s, root, a + done), w[done..done + n]), root, a, w, done + n)
  {
    var piece := w[done..done + n];
    OnePage(s, ram, root, a + done, n - 1);
    var ram' := Patched(ram, PhysicalOf(s, root, a + done), piece);
    var m := done + n;
    forall r: nat, x: nat ensures WrittenAt(s, ram0, ram', root, a, w, m, r, x) {
      assert WrittenAt(s, ram0, ram, root, a, w, done, r, x);
      Stored(s, ram, root, a + done, piece, r, x);
    }
  }

  /** All of a..a + n is reachable. */
  ghost predicate AllReachable(s: Memory, root: nat, a: nat, n: nat)
    requires Backed(s)
  {
    forall x: nat :: a <= x < a + n ==> Reachable(s, root, x)
  }

  lemma ReachPage(s: Memory, root: nat, a: nat, done: nat, n: nat)
    requires Backed(s) && AllReachable(s, root, a, done) && Reachable(s, root, a + done)
    requires a + done + n <= PageStart(a + done) + PGSIZE
    ensures AllReachable(s, root, a, done + n)
  {
    forall x: nat | a <= x < a + done + n ensures Reachable(s, root, x) {
      if x >= a + done { assert x / PGSIZE == (a + done) / PGSIZE; }
    }
  }

  /** Copying stops at the first unreachable page: at its first byte, or before any byte. */
  ghost predicate StopsAt(s: Memory, root: nat, a: nat, done: nat)
    requires Backed(s)
  {
    AllReachable(s, root, a, done) && !Reachable(s, root, a + done) && (done > 0 ==> PageStart(a + done) == a + done)
  }

  lemma Stopped(s: Memory, root: nat, a: nat, done: nat, n: nat)
    requires Backed(s) && AllReachable(s, root, a, done) && !Reachable(s, root, a + done) && done < n
    requires done > 0 ==> PageStart(a + done) == a + done
    ensures StopsAt(s, root, a, done) && !AllReachable(s, root, a, n)
  {
  }

  /** w is what root's program reads from a on. */
  ghost predicate Shows(s: Memory, ram: seq<bv8>, root: nat, a: nat, w: seq<bv8>) {
    Ready(s, |ram|) && forall j: nat :: j < |w| ==> ShowsAt(s, ram, root, a, w, j)
  }

  ghost predicate ShowsAt(s: Memory, ram: seq<bv8>, root: nat, a: nat, w: seq<bv8>, j: nat)
    requires Ready(s, |ram|) && j < |w|
  {
    Sees(s, ram, root, a + j) == Some(w[j])
  }

  lemma ShowsBoth(s: Memory, ram: seq<bv8>, root: nat, a: nat, w: seq<bv8>, u: seq<bv8>)
    requires Shows(s, ram, root, a, w) && Shows(s, ram, root, a + |w|, u)
    ensures Shows(s, ram, root, a, w + u)
  {
    forall j: nat | j < |w + u| ensures ShowsAt(s, ram, root, a, w + u, j) {
      if j < |w| { assert ShowsAt(s, ram, root, a, w, j); } else { assert ShowsAt(s, ram, root, a + |w|, u, j - |w|); }
    }
  }

  lemma ShowsPage(s: Memory, ram: seq<bv8>, root: nat, a: nat, n: nat)
    requires Ready(s, |ram|) && Reachable(s, root, a) && 0 < n && a + n <= PageStart(a) + PGSIZE
    ensures PhysicalOf(s, root, a) + n <= |ram|
    ensures Shows(s, ram, root, a, ram[PhysicalOf(s, root, a)..PhysicalOf(s, root, a) + n])
  {
    OnePage(s, ram, root, a, n - 1);
    var at := PhysicalOf(s, root, a);
    var w := ram[at..at + n];
    forall j: nat | j < n ensures ShowsAt(s, ram, root, a, w, j) { OnePage(s, ram, root, a, j); }
  }

  lemma ShowsPrefix(s: Memory, ram: seq<bv8>, root: nat, a: nat, w: seq<bv8>, u: seq<bv8>)
    requires Shows(s, ram, root, a, w) && u <= w
    ensures Shows(s, ram, root, a, u)
  {
    forall j: nat | j < |u| ensures ShowsAt(s, ram, root, a, u, j) { assert ShowsAt(s, ram, root, a, w, j); }
  }

  /** A string of n bytes, and then a NUL, is there for root's program at a. */
  ghost predicate StringOf(s: Memory, ram: seq<bv8>, root: nat, a: nat, n: nat)
    requires Ready(s, |ram|)
  {
    (forall j: nat :: j < n ==> CharAt(s, ram, root, a, j)) && Sees(s, ram, root, a + n) == Some(0)
  }

  ghost predicate CharAt(s: Memory, ram: seq<bv8>, root: nat, a: nat, j: nat)
    requires Ready(s, |ram|)
  {
    Sees(s, ram, root, a + j).Some? && Sees(s, ram, root, a + j) != Some(0)
  }

  lemma IsString(s: Memory, ram: seq<bv8>, root: nat, a: nat, w: seq<bv8>)
    requires Shows(s, ram, root, a, w) && w != [] && w[|w| - 1] == 0 && 0 !in w[..|w| - 1]
    ensures StringOf(s, ram, root, a, |w| - 1)
  {
    forall j: nat | j < |w| - 1 ensures CharAt(s, ram, root, a, j) {
      assert ShowsAt(s, ram, root, a, w, j) && w[j] == w[..|w| - 1][j];
    }
    assert ShowsAt(s, ram, root, a, w, |w| - 1);
  }

  /** No string ends among bytes that are not NUL, or goes on past a missing page. */
  lemma NoString(s: Memory, ram: seq<bv8>, root: nat, a: nat, w: seq<bv8>, max: nat)
    requires Shows(s, ram, root, a, w) && 0 !in w && |w| <= max && (|w| < max ==> !Reachable(s, root, a + |w|))
    ensures !exists n: nat :: n < max && StringOf(s, ram, root, a, n)
  {
    forall n: nat | n < max ensures !StringOf(s, ram, root, a, n) {
      if n < |w| {
        assert ShowsAt(s, ram, root, a, w, n) && w[n] in w;
      } else {
        assert Sees(s, ram, root, a + |w|) == None;
        assert n == |w| || !CharAt(s, ram, root, a, |w|);
      }
    }
  }

  /** The inner loop of copyinstr. */
  method UpToNul(w: seq<bv8>) returns (nul: bool, piece: seq<bv8>)
    ensures piece <= w && (nul <==> 0 in w) && (!nul ==> piece == w)
    ensures nul ==> piece != [] && piece[|piece| - 1] == 0 && 0 !in piece[..|piece| - 1]
  {
    var n := 0;
    while n < |w|
      invariant 0 <= n <= |w| && 0 !in w[..n]
    {
      if w[n] == 0 {
        assert w[..n + 1][..n] == w[..n];
        return true, w[..n + 1];
      }
      assert w[..n + 1] == w[..n] + [w[n]];
      n := n + 1;
    }
    assert w[..n] == w;
    return false, w;
  }

  class UserMemory {
    const k: Kernel
    const ram: array<bv8>

    constructor (kernel: Kernel, memory: array<bv8>)
      requires kernel.Valid() && Ready(kernel.S(), memory.Length)
      ensures k == kernel && ram == memory && Valid()
    {
      k, ram := kernel, memory;
    }

    ghost predicate Valid()
      reads k
    {
      k.Valid() && Ready(k.S(), ram.Length)
    }

    /** walkaddr, which tells a missing page by 0. */
    method WalkAddr(root: nat, va: nat) returns (pa: Option<nat>)
      requires Valid() && Node(root, 2, 0) in k.where
      modifies k
      ensures Valid() && k.S() == old(k.S()) && k.held == old(k.held) && k.freelist == old(k.freelist)
      ensures pa.Some? <==> Reachable(k.S(), root, va)
      ensures pa.Some? ==> pa.value + (va - PageStart(va)) == PhysicalOf(k.S(), root, va)
    {
      if va / PGSIZE >= MAXPAGE { return None; }
      var pte := k.Walk(root, va / PGSIZE, false);
      if pte == Null {
        UnmappedWithout(k.S(), root, va / PGSIZE);
        return None;
      }
      PteAt(k.S(), root, va / PGSIZE);
      var e := k.mem[pte.page][pte.i];
      if !e.f.v { return None; }
      if !e.f.u { return None; }
      return Some(e.ppn * PGSIZE);
    }

    /** memmove to memory */
    method Store(at: nat, w: seq<bv8>)
      requires at + |w| <= ram.Length
      modifies ram
      ensures ram[..] == Patched(old(ram[..]), at, w)
    {
      forall i | 0 <= i < |w| { ram[at + i] := w[i]; }
      assert |ram[..]| == |Patched(old(ram[..]), at, w)|;
    }

    /** memmove from memory */
    method Load(at: nat, n: nat) returns (w: seq<bv8>)
      requires at + n <= ram.Length
      ensures |w| == n && w == ram[..][at..at + n]
    {
      w := ram[at..at + n];
    }

    /** One round of copyout: n bytes of src from i on, as far as the page and src go; 0 without a page. */
    method StorePage(root: nat, dstva: nat, src: seq<bv8>, i: nat, ghost dstva0: nat, ghost ram0: seq<bv8>) returns (n: nat)
      requires Valid() && Node(root, 2, 0) in k.where && i < |src| && dstva == dstva0 + i
      requires Written(k.S(), ram0, ram[..], root, dstva0, src, i)
      modifies k, ram
      ensures Valid() && k.S() == old(k.S()) && k.held == old(k.held) && k.freelist == old(k.freelist)
      ensures n > 0 <==> Reachable(k.S(), root, dstva)
      ensures n > 0 ==> n == if dstva + |src| - i <= PageStart(dstva) + PGSIZE then |src| - i else PageStart(dstva) + PGSIZE - dstva
      ensures i + n <= |src| && Written(k.S(), ram0, ram[..], root, dstva0, src, i + n)
    {
      ghost var s := k.S();
      ReadyBacked(s, ram.Length);
      hide *;
      var va0 := PageStart(dstva);
      var pa0 := WalkAddr(root, va0);
      SamePage(s, root, dstva);
      if pa0 == None { return 0; }
      n := PGSIZE - (dstva - va0);
      if n > |src| - i { n := |src| - i; }
      WrittenMore(s, ram0, ram[..], root, dstva0, src, i, n);
      Store(pa0.value + (dstva - va0), src[i..i + n]);
    }

    /** copyout; `done` bytes reached the user. */
    method CopyOut(root: nat, dstva0: nat, src: seq<bv8>) returns (ok: bool, ghost done: nat)
      requires Valid() && Node(root, 2, 0) in k.where
      modifies k, ram
      ensures Valid() && k.S() == old(k.S()) && k.held == old(k.held) && k.freelist == old(k.freelist)
      ensures Written(k.S(), old(ram[..]), ram[..], root, dstva0, src, done)
      ensures ok <==> AllReachable(k.S(), root, dstva0, |src|)
      ensures if ok then done == |src| else done < |src| && StopsAt(k.S(), root, dstva0, done)
    {
      ghost var s, ram0 := k.S(), ram[..];
      ReadyBacked(s, ram.Length);
      Unwritten(s, ram0, root, dstva0, src);
      NoneReachable(s, root, dstva0);
      hide *;
      var i, dstva := 0, dstva0;
      while i < |src|
        invariant 0 <= i <= |src| && (i < |src| ==> dstva == dstva0 + i && (i > 0 ==> PageStart(dstva) == dstva))
        invariant Valid() && k.S() == s && k.held == old(k.held) && k.freelist == old(k.freelist)
        invariant Written(s, ram0, ram[..], root, dstva0, src, i) && AllReachable(s, root, dstva0, i)
      {
        var n := StorePage(root, dstva, src, i, dstva0, ram0);
        SamePage(s, root, dstva);
        if n == 0 {
          Stopped(s, root, dstva0, i, |src|);
          return false, i;
        }
        ReachPage(s, root, dstva0, i, n);
        i, dstva := i + n, PageStart(dstva) + PGSIZE;
      }
      return true, i;
    }

    /** One round of copyin: what is left of a page, but no more than len bytes. */
    method FetchPage(root: nat, srcva: nat, len: nat) returns (w: Option<seq<bv8>>)
      requires Valid() && Node(root, 2, 0) in k.where && len > 0
      modifies k
      ensures Valid() && k.S() == old(k.S()) && k.held == old(k.held) && k.freelist == old(k.freelist)
      ensures w.Some? <==> Reachable(k.S(), root, srcva)
      ensures w.Some? ==>
                && |w.value| == (if srcva + len <= PageStart(srcva) + PGSIZE then len else PageStart(srcva) + PGSIZE - srcva)
                && Shows(k.S(), ram[..], root, srcva, w.value)
    {
      ghost var s, bytes := k.S(), ram[..];
      ReadyBacked(s, ram.Length);
      hide Shape, Ready, Translate;
      var va0 := PageStart(srcva);
      var pa0 := WalkAddr(root, va0);
      SamePage(s, root, srcva);
      if pa0 == None { return None; }
      var n := PGSIZE - (srcva - va0);
      if n > len { n := len; }
      ShowsPage(s, bytes, root, srcva, n);
      var piece := Load(pa0.value + (srcva - va0), n);
      return Some(piece);
    }

    /** copyin: the bytes delivered before it ended. */
    method CopyIn(root: nat, srcva0: nat, len0: nat) returns (ok: bool, dst: seq<bv8>)
      requires Valid() && Node(root, 2, 0) in k.where
      modifies k
      ensures Valid() && k.S() == old(k.S()) && k.held == old(k.held) && k.freelist == old(k.freelist)
      ensures Shows(k.S(), ram[..], root, srcva0, dst)
      ensures ok <==> AllReachable(k.S(), root, srcva0, len0)
      ensures if ok then |dst| == len0 else |dst| < len0 && StopsAt(k.S(), root, srcva0, |dst|)
    {
      ghost var s, bytes := k.S(), ram[..];
      ReadyBacked(s, ram.Length);
      NoneReachable(s, root, srcva0);
      var len, srcva := len0, srcva0;
      dst := [];
      assert Shows(s, bytes, root, srcva0, dst);
      hide *;
      while len > 0
        invariant 0 <= len && len + |dst| == len0
        invariant len > 0 ==> srcva == srcva0 + |dst| && (dst != [] ==> PageStart(srcva) == srcva)
        invariant Valid() && k.S() == s && k.held == old(k.held) && k.freelist == old(k.freelist)
        invariant AllReachable(s, root, srcva0, |dst|) && Shows(s, bytes, root, srcva0, dst)
      {
        var w := FetchPage(root, srcva, len);
        SamePage(s, root, srcva);
        if w == None {
          Stopped(s, root, srcva0, |dst|, len0);
          return false, dst;
        }
        ReachPage(s, root, srcva0, |dst|, |w.value|);
        ShowsBoth(s, bytes, root, srcva0, dst, w.value);
        dst := dst + w.value;
        len, srcva := len - |w.value|, PageStart(srcva) + PGSIZE;
      }
      return true, dst;
    }

    /** copyinstr: the string with its NUL, or the bytes before it failed. */
    method CopyInStr(root: nat, srcva0: nat, max0: nat) returns (ok: bool, dst: seq<bv8>)
      requires Valid() && Node(root, 2, 0) in k.where
      modifies k
      ensures Valid() && k.S() == old(k.S()) && k.held == old(k.held) && k.freelist == old(k.freelist)
      ensures Shows(k.S(), ram[..], root, srcva0, dst)
      ensures ok <==> exists n: nat :: n < max0 && StringOf(k.S(), ram[..], root, srcva0, n)
      ensures ok ==> dst != [] && |dst| <= max0 && StringOf(k.S(), ram[..], root, srcva0, |dst| - 1)
      ensures !ok ==> 0 !in dst
      ensures !ok ==> |dst| == max0 || (|dst| < max0 && !Reachable(k.S(), root, srcva0 + |dst|))
    {
      ghost var s, bytes := k.S(), ram[..];
      ReadyBacked(s, ram.Length);
      var max, srcva := max0, srcva0;
      dst := [];
      assert Shows(s, bytes, root, srcva0, dst);
      hide *;
      while max > 0
        invariant 0 <= max && max + |dst| == max0 && 0 !in dst
        invariant max > 0 ==> srcva == srcva0 + |dst|
        invariant Valid() && k.S() == s && k.held == old(k.held) && k.freelist == old(k.freelist)
        invariant Shows(s, bytes, root, srcva0, dst)
      {
        var w := FetchPage(root, srcva, max);
        if w == None {
          NoString(s, bytes, root, srcva0, dst, max0);
          return false, dst;
        }
        var nul, piece := UpToNul(w.value);
        ShowsBoth(s, bytes, root, srcva0, dst, w.value);
        ShowsPrefix(s, bytes, root, srcva0, dst + w.value, dst + piece);
        ghost var before := dst;
        dst := dst + piece;
        if nul {
          assert dst[..|dst| - 1] == before + piece[..|piece| - 1];
          IsString(s, bytes, root, srcva0, dst);
          return true, dst;
        }
        max, srcva := max - |w.value|, PageStart(srcva) + PGSIZE;
      }
      NoString(s, bytes, root, srcva0, dst, max0);
      return false, dst;
    }

    /** What copyout has put there is what copyin fetches. */
    method OutThenIn(root: nat, va: nat, src: seq<bv8>) returns (back: seq<bv8>, ok: bool)
      requires Valid() && Node(root, 2, 0) in k.where
      modifies k, ram
      ensures Valid() && k.S() == old(k.S())
      ensures ok <==> AllReachable(k.S(), root, va, |src|)
      ensures ok ==> back == src
    {
      ghost var done;
      ghost var ram0 := ram[..];
      ok, done := CopyOut(root, va, src);
      if !ok { return [], false; }
      ghost var s := k.S();
      ok, back := CopyIn(root, va, |src|);
      hide Ready, Reachable, AllReachable, Sees;
      forall j | 0 <= j < |src| ensures back[j] == src[j] {
        assert WrittenAt(s, ram0, ram[..], root, va, src, done, root, va + j);
        assert ShowsAt(s, ram[..], root, va, back, j);
      }
    }
  }

  lemma NoneReachable(s: Memory, root: nat, a: nat)
    requires Backed(s)
    ensures AllReachable(s, root, a, 0)
  {
  }

  lemma Unwritten(s: Memory, ram: seq<bv8>, root: nat, a: nat, w: seq<bv8>)
    requires Ready(s, |ram|)
    ensures Written(s, ram, ram, root, a, w, 0)
  {
    forall r: nat, x: nat ensures WrittenAt(s, ram, ram, root, a, w, 0, r, x) {}
  }

  /** walkaddr of a page's address speaks for all its bytes. */
  lemma SamePage(s: Memory, root: nat, a: nat)
    requires Backed(s)
    ensures var p := PageStart(a);
            && (Reachable(s, root, p) <==> Reachable(s, root, a)) && PageStart(p) == p && PageStart(p + PGSIZE) == p + PGSIZE
            && (Reachable(s, root, a) ==> PhysicalOf(s, root, p) + (a - p) == PhysicalOf(s, root, a))
  {
    assert PageStart(a) / PGSIZE == a / PGSIZE;
  }

  /** The spaces of the process table are fit for copying to and from. */
  lemma ProcessSpacesReady(s: Memory, proc: seq<P.Slot>, text: nat, n: nat)
    requires Shape(s, {}) && P.Spaces(s, proc, text) && P.AllRooted(s, proc) && InRam(s, n)
    ensures Ready(s, n)
  {
    forall r: nat, v: nat | v >= TRAPFRAME && Translate(s, r, v).Some? ensures !Translate(s, r, v).value.f.u {
      assert Bottom(r, v) in s.where && P.HasRoot(proc, r);
      assert GoodRole(Bottom(r, v), s.where[Bottom(r, v)]);
      var i :| 0 <= i < |proc| && proc[i].Used? && proc[i].pagetable == r;
      assert P.UserSpace(s, proc[i], text);
    }
  }
}
