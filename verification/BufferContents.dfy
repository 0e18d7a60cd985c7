/** What is in the buffers of Lab3/xv6-riscv/kernel/bio.c, over the machine of BufferCache:
    bread, bwrite, the sleep-locks of the buffers, and what their holders do to the contents. */
module BufferContents {
  import opened BufferCache

  type Data = seq<int>
  type Disk = (int, int) -> Data     // of a device and a block number

  /** How far the holder of a buffer's sleep-lock is: bget has just given it the lock; the
      block has come from the disk; bread has returned. */
  datatype Hold = Free | Locked | Fetched | Ready

  /** `entering` users of a buffer wait for its sleep-lock, and `leaving` ones have dropped it
      and wait for bcache.lock. */
  datatype Store = Store(c: Cache, data: seq<Data>, disk: Disk, hold: seq<Hold>, entering: seq<int>, leaving: seq<int>)

  datatype Action =
    | Bget(dev: int, blockno: int)
    | Lock(b: int)
    | Fetch(b: int)           // virtio_disk_rw(b, 0) of bread
    | Mark(b: int)            // b->valid = 1
    | Return(b: int)          // bread finds b->valid
    | Edit(b: int, x: Data)
    | Bwrite(b: int)
    | Unlock(b: int)
    | Brelse(b: int)          // the rest of brelse, from acquire(&bcache.lock) on
    | Bpin(b: int)
    | Bunpin(b: int)

  // ---- the invariant ----

  ghost predicate BufOk(s: Store, b: int)
    requires Sized(s.c) && |s.data| == |s.hold| == |s.entering| == |s.leaving| == NBUF
  {
    IsBuf(b) ==>
      && s.entering[b] >= 0 && s.leaving[b] >= 0
      && s.c.users[b] == s.entering[b] + s.leaving[b] + (if s.hold[b].Free? then 0 else 1)
      && (s.hold[b].Ready? ==> s.c.bufs[b].valid)
      && (s.hold[b].Fetched? ==> !s.c.bufs[b].valid && s.data[b] == s.disk(s.c.bufs[b].dev, s.c.bufs[b].blockno))
  }

  ghost predicate Good(s: Store) {
    && Inv(s.c) && |s.data| == |s.hold| == |s.entering| == |s.leaving| == NBUF
    && forall b :: BufOk(s, b)
  }

  // ---- the steps ----

  ghost predicate Can(s: Store, a: Action)
    requires Good(s)
  {
    match a
    case Bget(dev, blockno) => Pick(s.c, dev, blockno) >= 0
    case Lock(b) => IsBuf(b) && s.entering[b] > 0 && s.hold[b].Free?
    case Fetch(b) => IsBuf(b) && s.hold[b].Locked? && !s.c.bufs[b].valid
    case Mark(b) => IsBuf(b) && s.hold[b].Fetched?
    case Return(b) => IsBuf(b) && s.hold[b].Locked? && s.c.bufs[b].valid
    case Edit(b, x) => IsBuf(b) && s.hold[b].Ready?
    case Bwrite(b) => IsBuf(b) && s.hold[b].Ready?
    case Unlock(b) => IsBuf(b) && s.hold[b].Ready?
    case Brelse(b) => IsBuf(b) && s.leaving[b] > 0
    case Bpin(b) => IsBuf(b) && s.hold[b].Ready?
    case Bunpin(b) => IsBuf(b) && s.c.pins[b] > 0
  }

  /** The step of the cache in an action, if it is one. */
  function CacheStep(a: Action): Event
    requires a.Bget? || a.Mark? || a.Brelse? || a.Bpin? || a.Bunpin?
  {
    match a
    case Bget(dev, blockno) => Get(dev, blockno)
    case Mark(b) => Read(b)
    case Brelse(b) => Release(b)
    case Bpin(b) => Pin(b)
    case Bunpin(b) => Unpin(b)
  }

  predicate StepsCache(a: Action) { a.Bget? || a.Mark? || a.Brelse? || a.Bpin? || a.Bunpin? }

  lemma CacheEnabled(s: Store, a: Action)
    requires Good(s) && Can(s, a) && StepsCache(a)
    ensures Enabled(s.c, CacheStep(a))
  {
    if !a.Bget? { assert BufOk(s, a.b); }
  }

  function Written(disk: Disk, dev: int, blockno: int, x: Data): Disk {
    (d, n) => if d == dev && n == blockno then x else disk(d, n)
  }

  ghost function After(s: Store, a: Action): Store
    requires Good(s) && Can(s, a)
  {
    var c := if StepsCache(a) then CacheEnabled(s, a); Next(s.c, CacheStep(a)) else s.c;
    match a
    case Bget(dev, blockno) =>
      var b := Pick(s.c, dev, blockno);
      s.(c := c, entering := s.entering[b := s.entering[b] + 1])
    case Lock(b) => s.(entering := s.entering[b := s.entering[b] - 1], hold := s.hold[b := Locked])
    case Fetch(b) => s.(data := s.data[b := s.disk(s.c.bufs[b].dev, s.c.bufs[b].blockno)], hold := s.hold[b := Fetched])
    case Mark(b) => s.(c := c, hold := s.hold[b := Ready])
    case Return(b) => s.(hold := s.hold[b := Ready])
    case Edit(b, x) => s.(data := s.data[b := x])
    case Bwrite(b) => s.(disk := Written(s.disk, s.c.bufs[b].dev, s.c.bufs[b].blockno, s.data[b]))
    case Unlock(b) => s.(hold := s.hold[b := Free], leaving := s.leaving[b := s.leaving[b] + 1])
    case Brelse(b) => s.(c := c, leaving := s.leaving[b := s.leaving[b] - 1])
    case Bpin(b) => s.(c := c)
    case Bunpin(b) => s.(c := c)
  }

  /** bget leaves all buffers but the one it gives, and that one too if it holds the block. */
  lemma GetOnlyPicked(c: Cache, dev: int, blockno: int)
    requires Inv(c) && Pick(c, dev, blockno) >= 0
    ensures var v, c' := Pick(c, dev, blockno), Next(c, Get(dev, blockno));
            && IsBuf(v) && c'.users == c.users[v := c.users[v] + 1] && |c'.bufs| == NBUF
            && (forall b :: IsBuf(b) && b != v ==> c'.bufs[b] == c.bufs[b])
            && Holds(c'.bufs[v], dev, blockno)
            && (Holds(c.bufs[v], dev, blockno) ==> c'.bufs[v].valid == c.bufs[v].valid)
            && (!Holds(c.bufs[v], dev, blockno) ==> !c'.bufs[v].valid && c.users[v] == 0 && c.pins[v] == 0)
            && (!Holds(c.bufs[v], dev, blockno) ==> forall u :: IsBuf(u) ==> !Holds(c.bufs[u], dev, blockno))
  {
    Recycles(c, dev, blockno);
    if Find(c, dev, blockno, 0) == NBUF { MissedEverywhere(c, dev, blockno); }
    hide Recent, LiveFirst, Single;
  }

  /** What the cache's own steps do to the buffers of an action other than bget. */
  lemma OthersStay(s: Store, a: Action, b: int)
    requires Good(s) && Can(s, a) && !a.Bget? && IsBuf(b)
    ensures var (c, c') := (s.c, After(s, a).c);
            && Sized(c') && Holds(c'.bufs[b], c.bufs[b].dev, c.bufs[b].blockno)
            && c'.bufs[b].valid == (c.bufs[b].valid || a == Mark(b))
            && c'.users[b] == c.users[b] - (if a == Brelse(b) then 1 else 0)
  {
    if StepsCache(a) { CacheEnabled(s, a); }
    hide Recent, LiveFirst, Single, Placed;
  }

  /** Two users' buffers hold different blocks. */
  lemma UsedApart(c: Cache, a: int, b: int)
    requires Inv(c) && Live(c, a) && Live(c, b) && Holds(c.bufs[a], c.bufs[b].dev, c.bufs[b].blockno)
    ensures a == b
  {
    assert LiveFirst(c, a, b);
  }

  lemma AfterGood(s: Store, a: Action)
    requires Good(s) && Can(s, a)
    ensures Good(After(s, a))
  {
    hide Inv, Next, Enabled;
    var s' := After(s, a);
    if StepsCache(a) { CacheEnabled(s, a); NextKeepsInv(s.c, CacheStep(a)); }
    GoodSized(s);
    assert Inv(s'.c);
    InvSized(s'.c);
    forall b ensures BufOk(s', b) {
      if IsBuf(b) { if a.Bget? { GetBuf(s, a, b); } else { OtherBuf(s, a, b); } }
    }
  }

  lemma InvSized(c: Cache)
    requires Inv(c)
    ensures Sized(c)
  {
  }

  lemma GoodSized(s: Store)
    requires Good(s)
    ensures Sized(s.c)
  {
  }

  lemma GetBuf(s: Store, a: Action, b: int)
    requires Good(s) && Can(s, a) && a.Bget? && IsBuf(b)
    ensures Sized(After(s, a).c) && BufOk(After(s, a), b)
  {
    CacheEnabled(s, a);
    NextKeepsInv(s.c, CacheStep(a));
    assert BufOk(s, b);
    GetOnlyPicked(s.c, a.dev, a.blockno);
    hide Inv, Next, Pick;
    InvSized(After(s, a).c);
  }

  lemma OtherBuf(s: Store, a: Action, b: int)
    requires Good(s) && Can(s, a) && !a.Bget? && IsBuf(b)
    ensures Sized(After(s, a).c) && BufOk(After(s, a), b)
  {
    assert BufOk(s, b);
    OthersStay(s, a, b);
    if a.Bwrite? && s.hold[b].Fetched? && Holds(s.c.bufs[a.b], s.c.bufs[b].dev, s.c.bufs[b].blockno) {
      assert BufOk(s, a.b);
      UsedApart(s.c, a.b, b);
    }
    hide Inv, Next;
  }

  /** bget gives a buffer whenever some buffer holds the block or is in no use. */
  lemma GetsExactly(s: Store, dev: int, blockno: int)
    requires Good(s)
    ensures Can(s, Bget(dev, blockno)) <==>
              exists u :: IsBuf(u) && (Holds(s.c.bufs[u], dev, blockno) || s.c.bufs[u].refcnt == 0)
  {
    Recycles(s.c, dev, blockno);
  }

  /** Whoever uses a buffer can go on, or waits for another that can. */
  lemma UsersGoOn(s: Store, b: int)
    requires Good(s) && IsBuf(b) && s.c.users[b] > 0
    ensures Can(s, Lock(b)) || Can(s, Fetch(b)) || Can(s, Return(b)) || Can(s, Mark(b)) || Can(s, Unlock(b)) || Can(s, Brelse(b))
    ensures s.hold[b].Ready? ==> Can(s, Edit(b, [])) && Can(s, Bwrite(b)) && Can(s, Bpin(b))
  {
    assert BufOk(s, b);
  }

  /** The turns of bread and brelse: the lock, then the block from the disk if the buffer is not valid,
      then the caller's; and back. */
  lemma Turns(s: Store, b: int)
    requires Good(s) && IsBuf(b)
    ensures Can(s, Lock(b)) ==>
              After(s, Lock(b)).hold[b].Locked? && After(s, Lock(b)).entering == s.entering[b := s.entering[b] - 1]
    ensures Can(s, Fetch(b)) ==>
              && After(s, Fetch(b)).hold[b].Fetched?
              && After(s, Fetch(b)).data == s.data[b := s.disk(s.c.bufs[b].dev, s.c.bufs[b].blockno)]
    ensures Can(s, Mark(b)) ==> After(s, Mark(b)).hold[b].Ready?
    ensures Can(s, Return(b)) ==> After(s, Return(b)).hold[b].Ready?
    ensures Can(s, Unlock(b)) ==> After(s, Unlock(b)).hold[b].Free? && After(s, Unlock(b)).leaving[b] > 0
    ensures Can(s, Brelse(b)) ==> After(s, Brelse(b)).leaving[b] == s.leaving[b] - 1
  {
    hide Next;
    assert BufOk(s, b);
  }

  /** The disk changes by bwrite only, and then in the block of the buffer. */
  lemma DiskStep(s: Store, a: Action, dev: int, blockno: int)
    requires Good(s) && Can(s, a)
    ensures After(s, a).disk(dev, blockno) ==
              if a.Bwrite? && Holds(s.c.bufs[a.b], dev, blockno) then s.data[a.b] else s.disk(dev, blockno)
  {
  }

  // ---- the contents of a block ----

  /** Buffer b has the contents of the block. */
  predicate Caches(s: Store, b: int, dev: int, blockno: int)
    requires Sized(s.c)
  {
    IsBuf(b) && s.c.bufs[b].valid && Holds(s.c.bufs[b], dev, blockno)
  }

  ghost predicate Cached(s: Store, dev: int, blockno: int)
    requires Sized(s.c)
  {
    exists b :: Caches(s, b, dev, blockno)
  }

  /** What a block holds for those who use the cache. */
  ghost function Contents(s: Store, dev: int, blockno: int): Data
    requires Sized(s.c) && |s.data| == NBUF
  {
    if Cached(s, dev, blockno) then var b :| Caches(s, b, dev, blockno); s.data[b] else s.disk(dev, blockno)
  }

  lemma ContentsAt(s: Store, b: int, dev: int, blockno: int)
    requires Good(s) && Caches(s, b, dev, blockno)
    ensures Contents(s, dev, blockno) == s.data[b]
  {
    var u :| Caches(s, u, dev, blockno) && Contents(s, dev, blockno) == s.data[u];
    assert Caches(s, u, dev, blockno);
    UsedApart(s.c, u, b);
  }

  /** The buffer that bget is about to take from the block it holds. */
  ghost predicate Evicts(s: Store, a: Action, dev: int, blockno: int)
    requires Good(s) && Can(s, a)
  {
    a.Bget? && Caches(s, Pick(s.c, a.dev, a.blockno), dev, blockno)
    && !Holds(s.c.bufs[Pick(s.c, a.dev, a.blockno)], a.dev, a.blockno)
  }

  /** One step changes the contents of a block in two ways only: its holder edits it, or the
      buffer is recycled, which leaves what the disk has. */
  lemma ContentsStep(s: Store, a: Action, dev: int, blockno: int)
    requires Good(s) && Can(s, a)
    ensures Good(After(s, a)) && Sized(s.c) && Sized(After(s, a).c)
    ensures Contents(After(s, a), dev, blockno) ==
              if a.Edit? && Holds(s.c.bufs[a.b], dev, blockno) then a.x
              else if Evicts(s, a, dev, blockno) then s.disk(dev, blockno)
              else Contents(s, dev, blockno)
  {
    AfterGood(s, a);
    GoodSized(s);
    GoodSized(After(s, a));
    if a.Bget? { ContentsGet(s, a, dev, blockno); } else { ContentsOther(s, a, dev, blockno); }
  }

  lemma ContentsGet(s: Store, a: Action, dev: int, blockno: int)
    requires Good(s) && Can(s, a) && a.Bget? && Good(After(s, a))
    ensures Sized(s.c) && Sized(After(s, a).c)
    ensures Contents(After(s, a), dev, blockno) ==
              if Evicts(s, a, dev, blockno) then s.disk(dev, blockno) else Contents(s, dev, blockno)
  {
    var s' := After(s, a);
    GoodSized(s);
    GoodSized(s');
    GetOnlyPicked(s.c, a.dev, a.blockno);
    var v := Pick(s.c, a.dev, a.blockno);
    hide Inv, Next, Pick, Contents;
    if b :| Caches(s', b, dev, blockno) {
      assert Caches(s, b, dev, blockno);
      ContentsAt(s, b, dev, blockno);
      ContentsAt(s', b, dev, blockno);
      if Evicts(s, a, dev, blockno) { UsedApart(s.c, b, v); }
    } else if b :| Caches(s, b, dev, blockno) {
      assert !Caches(s', b, dev, blockno) && b == v;
      NotCached(s', dev, blockno);
    } else {
      NotCached(s, dev, blockno);
      NotCached(s', dev, blockno);
    }
  }

  lemma NotCached(s: Store, dev: int, blockno: int)
    requires Sized(s.c) && |s.data| == NBUF && !Cached(s, dev, blockno)
    ensures Contents(s, dev, blockno) == s.disk(dev, blockno)
  {
  }

  lemma ContentsOther(s: Store, a: Action, dev: int, blockno: int)
    requires Good(s) && Can(s, a) && !a.Bget? && Good(After(s, a))
    ensures Sized(s.c) && Sized(After(s, a).c)
    ensures Contents(After(s, a), dev, blockno) ==
              if a.Edit? && Holds(s.c.bufs[a.b], dev, blockno) then a.x else Contents(s, dev, blockno)
  {
    var s' := After(s, a);
    GoodSized(s);
    GoodSized(s');
    hide Inv, Next, Contents;
    if b :| Caches(s', b, dev, blockno) {
      OthersStay(s, a, b);
      ContentsAt(s', b, dev, blockno);
      if a == Mark(b) {
        OwnBlock(s, b, dev, blockno);
      } else {
        ContentsAt(s, b, dev, blockno);
        assert BufOk(s, b);
        if a.Edit? && Holds(s.c.bufs[a.b], dev, blockno) { assert BufOk(s, a.b); UsedApart(s.c, a.b, b); }
        if a.Fetch? { assert BufOk(s, a.b); }
      }
    } else {
      NotCached(s', dev, blockno);
      forall b ensures !Caches(s, b, dev, blockno) {
        assert !Caches(s', b, dev, blockno);
        if IsBuf(b) { OthersStay(s, a, b); }
      }
      NotCached(s, dev, blockno);
      if a.Edit? || a.Bwrite? { assert BufOk(s, a.b) && !Caches(s, a.b, dev, blockno); }
    }
  }

  /** The block of a buffer just fetched is in no other. */
  lemma OwnBlock(s: Store, b: int, dev: int, blockno: int)
    requires Good(s) && IsBuf(b) && s.hold[b].Fetched? && Holds(s.c.bufs[b], dev, blockno)
    ensures Contents(s, dev, blockno) == s.data[b]
  {
    assert BufOk(s, b);
    if u :| Caches(s, u, dev, blockno) { UsedApart(s.c, u, b); } else { NotCached(s, dev, blockno); }
  }

  /** bread goes to the disk only for a block that is in no buffer. */
  lemma FetchesUncached(s: Store, b: int)
    requires Good(s) && Can(s, Fetch(b))
    ensures Sized(s.c) && !Cached(s, s.c.bufs[b].dev, s.c.bufs[b].blockno)
  {
    assert BufOk(s, b);
    if u :| Caches(s, u, s.c.bufs[b].dev, s.c.bufs[b].blockno) {
      assert Caches(s, u, s.c.bufs[b].dev, s.c.bufs[b].blockno);
      UsedApart(s.c, u, b);
    }
  }

  /** A block that bread has returned stays in the cache until its buffer is recycled. */
  lemma StaysCached(s: Store, a: Action, dev: int, blockno: int)
    requires Good(s) && Can(s, a) && Good(After(s, a))
    ensures Sized(s.c) && Sized(After(s, a).c)
    ensures Cached(After(s, a), dev, blockno) <==>
              (Cached(s, dev, blockno) && !Evicts(s, a, dev, blockno))
              || (a.Mark? && Holds(s.c.bufs[a.b], dev, blockno))
  {
    var s' := After(s, a);
    GoodSized(s);
    GoodSized(s');
    hide Inv, Next, Pick;
    if a.Bget? {
      GetOnlyPicked(s.c, a.dev, a.blockno);
      if b :| Caches(s, b, dev, blockno) {
        assert Caches(s, b, dev, blockno);
        if !Evicts(s, a, dev, blockno) { assert Caches(s', b, dev, blockno); } else { OnlyCopy(s, a, b, dev, blockno); }
      }
      if b :| Caches(s', b, dev, blockno) { assert Caches(s, b, dev, blockno); }
    } else {
      if b :| Caches(s', b, dev, blockno) {
        OthersStay(s, a, b);
        assert a == Mark(b) || Caches(s, b, dev, blockno);
      }
      if b :| Caches(s, b, dev, blockno) { OthersStay(s, a, b); assert Caches(s', b, dev, blockno); }
      if a.Mark? && Holds(s.c.bufs[a.b], dev, blockno) { OthersStay(s, a, a.b); assert Caches(s', a.b, dev, blockno); }
    }
  }

  /** A block that is evicted is in no buffer afterwards. */
  lemma OnlyCopy(s: Store, a: Action, b: int, dev: int, blockno: int)
    requires Good(s) && Can(s, a) && Good(After(s, a)) && Sized(s.c) && Sized(After(s, a).c)
    requires Evicts(s, a, dev, blockno) && Caches(s, b, dev, blockno)
    ensures !Cached(After(s, a), dev, blockno)
  {
    GetOnlyPicked(s.c, a.dev, a.blockno);
    var v, s' := Pick(s.c, a.dev, a.blockno), After(s, a);
    hide Inv, Next, Pick;
    forall u ensures !Caches(s', u, dev, blockno) {
      if Caches(s', u, dev, blockno) {
        assert Caches(s, u, dev, blockno);
        UsedApart(s.c, u, v);
      }
    }
  }

  // ---- the cache as a memory ----

  /** The holder of a buffer has written it, or pinned it, by the time that nobody is left to. */
  ghost predicate Careful(s: Store, a: Action)
    requires Good(s) && Can(s, a)
  {
    match a
    case Unlock(b) => Clean(s, b) || s.c.pins[b] > 0
    case Bunpin(b) => Clean(s, b) || s.c.pins[b] > 1 || s.hold[b].Ready?
    case _ => true
  }

  /** The disk has what the buffer has. */
  ghost predicate Clean(s: Store, b: int)
    requires Sized(s.c) && |s.data| == NBUF && IsBuf(b)
  {
    s.data[b] == s.disk(s.c.bufs[b].dev, s.c.bufs[b].blockno)
  }

  ghost predicate CleanOk(s: Store, b: int)
    requires Sized(s.c) && |s.data| == |s.hold| == NBUF
  {
    IsBuf(b) && s.c.bufs[b].valid && s.c.pins[b] == 0 && !s.hold[b].Ready? ==> Clean(s, b)
  }

  ghost predicate Kept(s: Store) {
    Good(s) && forall b :: CleanOk(s, b)
  }

  lemma CleanStep(s: Store, a: Action, b: int)
    requires Kept(s) && Can(s, a) && Careful(s, a) && Good(After(s, a)) && IsBuf(b)
    ensures Sized(After(s, a).c) && CleanOk(After(s, a), b)
  {
    var s' := After(s, a);
    GoodSized(s);
    GoodSized(s');
    assert CleanOk(s, b) && BufOk(s, b);
    if a.Bget? {
      GetOnlyPicked(s.c, a.dev, a.blockno);
    } else {
      OthersStay(s, a, b);
      if a.Bwrite? && Caches(s', b, s.c.bufs[a.b].dev, s.c.bufs[a.b].blockno) {
        assert BufOk(s, a.b);
        UsedApart(s.c, a.b, b);
      }
    }
    PinsAfter(s, a, b);
    hide Inv, Next, Pick;
  }

  lemma PinsAfter(s: Store, a: Action, b: int)
    requires Good(s) && Can(s, a) && Sized(After(s, a).c) && IsBuf(b)
    ensures After(s, a).c.pins[b] == s.c.pins[b] + if a == Bpin(b) then 1 else if a == Bunpin(b) then -1 else 0
  {
    if StepsCache(a) { CacheEnabled(s, a); }
    hide Recent, LiveFirst, Single, Placed;
  }

  /** A buffer that bget takes for another block holds what the disk has. */
  lemma EvictedClean(s: Store, a: Action)
    requires Kept(s) && Can(s, a) && a.Bget?
    ensures var v := Pick(s.c, a.dev, a.blockno);
            && IsBuf(v) && Sized(s.c)
            && (s.c.bufs[v].valid && !Holds(s.c.bufs[v], a.dev, a.blockno) ==>
                  s.data[v] == s.disk(s.c.bufs[v].dev, s.c.bufs[v].blockno))
  {
    var v := Pick(s.c, a.dev, a.blockno);
    GetOnlyPicked(s.c, a.dev, a.blockno);
    assert BufOk(s, v) && CleanOk(s, v);
    hide Inv, Next, Pick;
  }

  /** With holders like that, the blocks are a memory: nothing but an edit changes one. */
  lemma MemoryStep(s: Store, a: Action, dev: int, blockno: int)
    requires Kept(s) && Can(s, a) && Careful(s, a)
    ensures Kept(After(s, a)) && Sized(s.c) && Sized(After(s, a).c)
    ensures Contents(After(s, a), dev, blockno) ==
              if a.Edit? && Holds(s.c.bufs[a.b], dev, blockno) then a.x else Contents(s, dev, blockno)
  {
    hide Inv, Next, Pick, Contents, BufOk, Clean;
    ContentsStep(s, a, dev, blockno);
    forall b ensures CleanOk(After(s, a), b) { if IsBuf(b) { CleanStep(s, a, b); } }
    if Evicts(s, a, dev, blockno) {
      var v := Pick(s.c, a.dev, a.blockno);
      EvictedClean(s, a);
      ContentsAt(s, v, dev, blockno);
    }
  }

  // ---- whole runs ----

  /** After binit: no buffer is in use, and the disk holds anything. */
  ghost predicate Booted(s: Store) {
    && Init(s.c) && |s.data| == |s.hold| == |s.entering| == |s.leaving| == NBUF
    && forall b :: 0 <= b < NBUF ==> s.hold[b].Free? && s.entering[b] == s.leaving[b] == 0
  }

  lemma BootedKept(s: Store)
    requires Booted(s)
    ensures Kept(s)
  {
    InitInv(s.c);
  }

  /** A run of any processes, all of them careful. */
  ghost predicate Goes(s: Store, acts: seq<Action>)
    decreases |acts|, 0
  {
    && Booted(s)
    && (acts != [] ==>
          var n := |acts| - 1;
          Goes(s, acts[..n]) && Can(End(s, acts[..n]), acts[n]) && Careful(End(s, acts[..n]), acts[n]))
  }

  ghost function End(s: Store, acts: seq<Action>): (t: Store)
    requires Goes(s, acts)
    ensures Kept(t)
    decreases |acts|, 1
  {
    if acts == [] then BootedKept(s); s
    else
      var n := |acts| - 1;
      MemoryStep(End(s, acts[..n]), acts[n], 0, 0);
      After(End(s, acts[..n]), acts[n])
  }

  /** What the last holder that edited the block has put there; what the disk had if there is none. */
  ghost function LastLeft(s: Store, acts: seq<Action>, dev: int, blockno: int): Data
    requires Goes(s, acts)
    decreases |acts|
  {
    if acts == [] then s.disk(dev, blockno)
    else
      var n, a := |acts| - 1, acts[|acts| - 1];
      GoodSized(End(s, acts[..n]));
      if a.Edit? && Holds(End(s, acts[..n]).c.bufs[a.b], dev, blockno) then a.x else LastLeft(s, acts[..n], dev, blockno)
  }

  lemma {:induction false} IsMemory(s: Store, acts: seq<Action>, dev: int, blockno: int)
    requires Goes(s, acts)
    ensures Sized(End(s, acts).c) && Contents(End(s, acts), dev, blockno) == LastLeft(s, acts, dev, blockno)
    decreases |acts|
  {
    hide Inv, Next, Contents;
    if acts == [] {
      BootedKept(s);
      GoodSized(s);
      NothingCached(s, dev, blockno);
    } else {
      var n := |acts| - 1;
      IsMemory(s, acts[..n], dev, blockno);
      MemoryStep(End(s, acts[..n]), acts[n], dev, blockno);
    }
  }

  lemma NothingCached(s: Store, dev: int, blockno: int)
    requires Booted(s) && Sized(s.c)
    ensures Contents(s, dev, blockno) == s.disk(dev, blockno)
  {
    NotCached(s, dev, blockno);
  }

  /** What bread promises, in any run: the buffer is valid and holds what the last holder of the
      block left, or what the disk had if nobody has edited it. */
  lemma BreadGivesLast(s: Store, acts: seq<Action>, b: int)
    requires Goes(s, acts) && IsBuf(b) && |End(s, acts).hold| == NBUF && End(s, acts).hold[b].Ready?
    ensures var t := End(s, acts);
            && Sized(t.c) && t.c.bufs[b].valid && |t.data| == NBUF
            && t.data[b] == LastLeft(s, acts, t.c.bufs[b].dev, t.c.bufs[b].blockno)
  {
    var t := End(s, acts);
    GoodSized(t);
    assert BufOk(t, b);
    IsMemory(s, acts, t.c.bufs[b].dev, t.c.bufs[b].blockno);
    ContentsAt(t, b, t.c.bufs[b].dev, t.c.bufs[b].blockno);
  }
}
