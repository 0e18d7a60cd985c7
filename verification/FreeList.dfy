/** The free list of Lab3/xv6-riscv/user/umalloc.c as a sequence of blocks: what freeing and
    carving do to it, to its order and to the units it covers. Addresses and sizes count
    units of sizeof(Header). */
module FreeList {

  datatype Block = Block(addr: nat, size: nat)

  /** A header in memory: the address of the next free block and this block's size. */
  datatype Header = Header(ptr: nat, size: nat)

  function End(b: Block): nat { b.addr + b.size }

  predicate InOrder(fl: seq<Block>, i: nat)
    requires i + 1 < |fl|
  {
    End(fl[i]) <= fl[i + 1].addr
  }

  predicate Sized(fl: seq<Block>, i: nat)
    requires i < |fl|
  {
    i > 0 ==> fl[i].size > 0
  }

  /** One block after the other, with base, which is empty, as the lowest. */
  ghost predicate Sorted(fl: seq<Block>, base: nat) {
    && fl != [] && fl[0] == Block(base, 0)
    && (forall i :: 0 <= i < |fl| ==> Sized(fl, i))
    && (forall i {:trigger InOrder(fl, i)} :: 0 <= i && i + 1 < |fl| ==> InOrder(fl, i))
    && (|fl| > 1 ==> base < fl[1].addr)
  }

  lemma {:induction false} Upwards(fl: seq<Block>, base: nat, i: nat, j: nat)
    requires Sorted(fl, base) && i < j < |fl|
    ensures End(fl[i]) <= fl[j].addr
    decreases j
  {
    assert InOrder(fl, j - 1);
    if i < j - 1 { Upwards(fl, base, i, j - 1); }
  }

  predicate Touch(fl: seq<Block>, k: nat) {
    k + 1 < |fl| && End(fl[k]) == fl[k + 1].addr
  }

  /** Blocks touch at most at lo..hi. */
  ghost predicate TouchOnly(fl: seq<Block>, base: nat, lo: nat, hi: nat) {
    Sorted(fl, base) && forall k: nat :: Touch(fl, k) ==> lo <= k < hi
  }

  /** Sorted, and no two free blocks touch. */
  ghost predicate Coalesced(fl: seq<Block>, base: nat) {
    TouchOnly(fl, base, 0, 0)
  }

  /** The blocks form one cycle through their headers. */
  ghost predicate Cycle(hdr: map<nat, Header>, fl: seq<Block>) {
    forall i :: 0 <= i < |fl| ==> Linked(hdr, fl, i)
  }

  function After(i: nat, n: nat): (k: nat) { if i + 1 >= n then 0 else i + 1 }

  ghost predicate Linked(hdr: map<nat, Header>, fl: seq<Block>, i: nat)
    requires i < |fl|
  {
    fl[i].addr in hdr && hdr[fl[i].addr] == Header(fl[After(i, |fl|)].addr, fl[i].size)
  }

  ghost predicate InBlock(b: Block, u: nat) { b.addr <= u < End(b) }

  ghost predicate InFree(fl: seq<Block>, u: nat) {
    exists i :: 0 <= i < |fl| && InBlock(fl[i], u)
  }

  // ---- putting a block back ----

  /** Block b may go after entry i: it lies between entries i and i + 1 and overlaps no block. */
  ghost predicate Place(fl: seq<Block>, i: nat, b: Block) {
    && i < |fl| && b.size > 0
    && (forall j :: 0 <= j <= i ==> End(fl[j]) <= b.addr)
    && (forall j :: i < j < |fl| ==> End(b) <= fl[j].addr)
  }

  function Insert(fl: seq<Block>, i: nat, b: Block): seq<Block>
    requires i < |fl|
  {
    fl[..i + 1] + [b] + fl[i + 1..]
  }

  /** Entries k and k + 1 become one when they touch. */
  function Merge(fl: seq<Block>, k: nat): seq<Block> {
    if Touch(fl, k) then fl[..k] + [Block(fl[k].addr, fl[k].size + fl[k + 1].size)] + fl[k + 2..] else fl
  }

  /** What free makes of the list: the block goes in and coalesces upwards, then downwards. */
  function Released(fl: seq<Block>, i: nat, b: Block): seq<Block>
    requires i < |fl|
  {
    Merge(Merge(Insert(fl, i, b), i + 1), i)
  }

  lemma InsertSorted(fl: seq<Block>, base: nat, i: nat, b: Block)
    requires Coalesced(fl, base) && Place(fl, i, b) && b.addr > base
    ensures TouchOnly(Insert(fl, i, b), base, i, i + 2)
  {
    var g := Insert(fl, i, b);
    forall j | 0 <= j < |g| ensures Sized(g, j) {
      assert Sized(fl, if j <= i then j else j - 1);
    }
    forall j: nat | j + 1 < |g| ensures InOrder(g, j) && (Touch(g, j) ==> i <= j < i + 2) {
      if j < i {
        assert InOrder(fl, j) && !Touch(fl, j);
      } else if j > i + 1 {
        assert InOrder(fl, j - 1) && !Touch(fl, j - 1);
      }
    }
  }

  lemma MergeSorted(fl: seq<Block>, base: nat, k: nat, lo: nat)
    requires TouchOnly(fl, base, lo, k + 1) && lo <= k && (k == 0 ==> !Touch(fl, 0))
    ensures TouchOnly(Merge(fl, k), base, lo, k)
  {
    if Touch(fl, k) {
      var g := Merge(fl, k);
      forall j | 0 <= j < |g| ensures Sized(g, j) {
        assert Sized(fl, if j <= k then j else j + 1);
      }
      forall j: nat | j + 1 < |g| ensures InOrder(g, j) && (Touch(g, j) ==> lo <= j < k) {
        if j < k {
          assert InOrder(fl, j) && g[j] == fl[j] && g[j + 1].addr == fl[j + 1].addr;
          assert Touch(g, j) <==> Touch(fl, j);
        } else {
          assert InOrder(fl, j + 1) && !Touch(fl, j + 1) && g[j + 1] == fl[j + 2] && End(g[j]) == End(fl[j + 1]);
        }
      }
      assert k > 1 ==> g[1] == fl[1];
    }
  }

  /** Freeing a block keeps the list sorted and leaves no two blocks touching. */
  lemma ReleasedCoalesced(fl: seq<Block>, base: nat, i: nat, b: Block)
    requires Coalesced(fl, base) && Place(fl, i, b) && b.addr > base
    ensures Coalesced(Released(fl, i, b), base)
  {
    InsertSorted(fl, base, i, b);
    var g := Insert(fl, i, b);
    MergeSorted(g, base, i + 1, i);
    assert i == 0 ==> Merge(g, 1)[..1] == [Block(base, 0)] && Merge(g, 1)[1].addr == b.addr;
    hide Insert, Merge, Place, Sorted;
    MergeSorted(Merge(g, i + 1), base, i, i);
  }

  lemma InsertUnits(fl: seq<Block>, i: nat, b: Block, u: nat)
    requires i < |fl|
    ensures InFree(Insert(fl, i, b), u) <==> InFree(fl, u) || InBlock(b, u)
  {
    var g := Insert(fl, i, b);
    if InFree(fl, u) {
      var j :| 0 <= j < |fl| && InBlock(fl[j], u);
      assert g[if j <= i then j else j + 1] == fl[j];
    }
    assert g[i + 1] == b;
    if InFree(g, u) {
      var j :| 0 <= j < |g| && InBlock(g[j], u);
      assert g[j] == if j <= i then fl[j] else if j == i + 1 then b else fl[j - 1];
    }
  }

  lemma MergeUnits(fl: seq<Block>, k: nat, u: nat)
    ensures InFree(Merge(fl, k), u) <==> InFree(fl, u)
  {
    if Touch(fl, k) {
      var g := Merge(fl, k);
      assert g[k] == Block(fl[k].addr, fl[k].size + fl[k + 1].size);
      if InFree(fl, u) {
        var j :| 0 <= j < |fl| && InBlock(fl[j], u);
        assert j < k ==> g[j] == fl[j];
        assert j > k + 1 ==> g[j - 1] == fl[j];
        assert j == k || j == k + 1 ==> InBlock(g[k], u);
      }
      if InFree(g, u) {
        var j :| 0 <= j < |g| && InBlock(g[j], u);
        assert j < k ==> g[j] == fl[j];
        assert j > k ==> g[j] == fl[j + 1];
        assert j == k ==> InBlock(fl[k], u) || InBlock(fl[k + 1], u);
      }
    }
  }

  /** Freeing a block adds exactly its units. */
  lemma ReleasedUnits(fl: seq<Block>, i: nat, b: Block, u: nat)
    requires i < |fl|
    ensures InFree(Released(fl, i, b), u) <==> InFree(fl, u) || InBlock(b, u)
  {
    InsertUnits(fl, i, b, u);
    MergeUnits(Insert(fl, i, b), i + 1, u);
    MergeUnits(Merge(Insert(fl, i, b), i + 1), i, u);
  }

  /** Where a block that overlaps nothing goes: exactly one place. */
  function PlaceOf(fl: seq<Block>, addr: nat, n: nat): (i: nat)
    requires 0 < n <= |fl|
    ensures i < n
  {
    if n == 1 || fl[n - 1].addr <= addr then n - 1 else PlaceOf(fl, addr, n - 1)
  }

  lemma {:induction false} PlaceOfSplits(fl: seq<Block>, base: nat, addr: nat, n: nat)
    requires Sorted(fl, base) && 0 < n <= |fl| && addr > base
    ensures var i := PlaceOf(fl, addr, n);
            && fl[i].addr <= addr && forall j :: i < j < n ==> addr < fl[j].addr
  {
    if n > 1 && fl[n - 1].addr > addr { PlaceOfSplits(fl, base, addr, n - 1); }
  }

  // ---- carving a block off ----

  /** What malloc leaves: entry i is unlinked, or loses its last n units. */
  function Carved(fl: seq<Block>, i: nat, n: nat): seq<Block>
    requires i < |fl| && n <= fl[i].size
  {
    if fl[i].size == n then fl[..i] + fl[i + 1..] else fl[i := Block(fl[i].addr, fl[i].size - n)]
  }

  function Tail(b: Block, n: nat): Block
    requires n <= b.size
  {
    Block(End(b) - n, n)
  }

  lemma CarvedCoalesced(fl: seq<Block>, base: nat, i: nat, n: nat)
    requires Coalesced(fl, base) && i < |fl| && 0 < n <= fl[i].size
    ensures Coalesced(Carved(fl, i, n), base)
  {
    var g := Carved(fl, i, n);
    assert i > 0 by { assert Sized(fl, i); }
    if fl[i].size == n {
      forall j | 0 <= j < |g| ensures Sized(g, j) { assert Sized(fl, if j < i then j else j + 1); }
      forall j: nat | j + 1 < |g| ensures InOrder(g, j) && !Touch(g, j) {
        assert InOrder(fl, if j < i then j else j + 1) && !Touch(fl, if j < i then j else j + 1);
        if j == i - 1 { Upwards(fl, base, j, j + 2); assert InOrder(fl, i) && !Touch(fl, i) && Sized(fl, i); }
      }
      assert i > 1 ==> g[1] == fl[1];
      if i == 1 && |g| > 1 { Upwards(fl, base, 1, 2); }
    } else {
      forall j | 0 <= j < |g| ensures Sized(g, j) { assert Sized(fl, j); }
      forall j: nat | j + 1 < |g| ensures InOrder(g, j) && !Touch(g, j) { assert InOrder(fl, j) && !Touch(fl, j); }
    }
  }

  /** Carving takes exactly the units of the block it hands out. */
  lemma CarvedUnits(fl: seq<Block>, base: nat, i: nat, n: nat, u: nat)
    requires Coalesced(fl, base) && i < |fl| && 0 < n <= fl[i].size
    ensures InFree(Carved(fl, i, n), u) <==> InFree(fl, u) && !InBlock(Tail(fl[i], n), u)
  {
    var g := Carved(fl, i, n);
    if InFree(fl, u) && !InBlock(Tail(fl[i], n), u) {
      var j :| 0 <= j < |fl| && InBlock(fl[j], u);
      if fl[i].size == n {
        assert j < i ==> g[j] == fl[j];
        assert j > i ==> g[j - 1] == fl[j];
      } else {
        assert InBlock(g[j], u);
      }
    }
    if InFree(g, u) {
      var j :| 0 <= j < |g| && InBlock(g[j], u);
      var j' := if fl[i].size == n && j >= i then j + 1 else j;
      assert InBlock(fl[j'], u);
      if j' < i { Upwards(fl, base, j', i); } else if j' > i { Upwards(fl, base, i, j'); }
    }
  }

  // ---- one list for one set of units ----

  ghost predicate SameUnits(f: seq<Block>, g: seq<Block>) {
    forall u: nat :: InFree(f, u) <==> InFree(g, u)
  }

  /** Entry i of f starts no earlier than entry i of g, when the entries before are the same. */
  lemma NotEarlier(f: seq<Block>, g: seq<Block>, base: nat, i: nat)
    requires Coalesced(f, base) && Coalesced(g, base) && SameUnits(f, g)
    requires 0 < i < |f| && i <= |g| && f[..i] == g[..i]
    ensures i < |g| && g[i].addr <= f[i].addr
  {
    var u := f[i].addr;
    assert Sized(f, i) && InBlock(f[i], u);
    assert InFree(g, u);
    var j :| 0 <= j < |g| && InBlock(g[j], u);
    if j < i {
      assert f[..i][j] == g[..i][j];
      Upwards(f, base, j, i);
    } else if j > i {
      Upwards(g, base, i, j);
    }
  }

  lemma NotLonger(f: seq<Block>, g: seq<Block>, base: nat, i: nat)
    requires Coalesced(f, base) && Coalesced(g, base) && SameUnits(f, g)
    requires i < |f| && i < |g| && f[i].addr == g[i].addr
    ensures End(g[i]) <= End(f[i])
  {
    var u := End(f[i]);
    if u < End(g[i]) {
      assert InBlock(g[i], u) && InFree(f, u);
      var j :| 0 <= j < |f| && InBlock(f[j], u);
      if j < i {
        Upwards(f, base, j, i);
      } else if j > i {
        Upwards(f, base, i, j);
        assert InOrder(f, i) && !Touch(f, i) && Sized(f, i + 1);
        if j > i + 1 { Upwards(f, base, i + 1, j); }
      }
    }
  }

  lemma {:induction false} SamePrefix(f: seq<Block>, g: seq<Block>, base: nat, i: nat)
    requires Coalesced(f, base) && Coalesced(g, base) && SameUnits(f, g) && i <= |f|
    ensures i <= |g| && f[..i] == g[..i]
  {
    if i == 1 {
      assert f[0] == g[0];
    } else if i > 1 {
      SamePrefix(f, g, base, i - 1);
      NotEarlier(f, g, base, i - 1);
      NotEarlier(g, f, base, i - 1);
      NotLonger(f, g, base, i - 1);
      NotLonger(g, f, base, i - 1);
      hide *;
      assert f[i - 1] == g[i - 1];
      assert f[..i] == f[..i - 1] + [f[i - 1]] && g[..i] == g[..i - 1] + [g[i - 1]];
    }
  }

  /** A coalesced list is determined by the units that are free. */
  lemma Canonical(f: seq<Block>, g: seq<Block>, base: nat)
    requires Coalesced(f, base) && Coalesced(g, base) && SameUnits(f, g)
    ensures f == g
  {
    SamePrefix(f, g, base, |f|);
    SamePrefix(g, f, base, |g|);
    assert f == f[..|f|] && g == g[..|g|];
  }
}
