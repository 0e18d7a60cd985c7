/** The code of Lab3/xv6-riscv/kernel/log.c over the disk and the buffer cache.

    Every `bwrite` is recorded, in order, in the ghost field `writes`; the methods say
    exactly which writes they issue, so that the crash lemmas of DiskLog apply to every
    instant between two of them. The cache may drop any unpinned buffer at any read. */
module LogDevice {
  import opened DiskLog
  import opened Sequences

  ghost function Elements(s: seq<int>): set<int> {
    set i | 0 <= i < |s| :: s[i]
  }

  class Log {
    const layout: Layout
    var disk: Disk
    ghost var writes: seq<Write>
    var cache: map<int, Block>   // the valid buffers
    var pinned: set<int>         // blocks whose buffer bpin holds in the cache
    var lh: seq<int>             // lh.block[..lh.n]
    var outstanding: int
    var committing: bool

    /** Pinned buffers are cached; every other cached buffer agrees with the disk. */
    ghost predicate CacheOk()
      reads this
    {
      && 2 <= layout.size <= LOGSIZE && layout.start + layout.size <= |disk|
      && (forall a :: a in pinned ==> a in cache && IsHome(layout, disk, a))
      && (forall a :: a in cache && a !in pinned ==> 0 <= a < |disk| && cache[a] == disk[a])
    }

    /** The contents the file system sees: a pinned buffer hides the disk. */
    ghost function View(a: int): Block
      reads this
      requires CacheOk() && 0 <= a < |disk|
    {
      if a in pinned then cache[a] else disk[a]
    }

    /** The pinned buffers hold what `v` says. */
    ghost predicate Holds(v: map<int, Block>)
      reads this
    {
      forall a :: a in pinned ==> a in cache && a in v && cache[a] == v[a]
    }

    /** The invariant that holds while no commit is in progress. */
    ghost predicate Valid()
      reads this
    {
      && CacheOk()
      && GoodTargets(layout, disk, lh) && Distinct(lh) && pinned == Elements(lh)
      && IsHead(disk[layout.start]) && HeadCount(disk[layout.start]) == 0
      && 0 <= outstanding
    }

    /** A system that has just booted: nothing cached. */
    constructor (l: Layout, d: Disk)
      requires GoodDisk(l, d)
      ensures layout == l && disk == d && writes == [] && pinned == {} && CacheOk()
      ensures outstanding == 0 && !committing
    {
      layout, disk, writes, cache, pinned := l, d, [], map[], {};
      lh, outstanding, committing := [], 0, false;
    }

    method Bread(b: nat, ghost v: map<int, Block>) returns (data: Block)
      requires CacheOk() && Holds(v) && b < |disk|
      modifies `cache
      ensures CacheOk() && Holds(v)
      ensures data == if b in pinned then v[b] else disk[b]
    {
      if b !in cache {
        var victim: int := *;
        if victim !in pinned { cache := cache - {victim}; }
        cache := cache[b := disk[b]];
      }
      data := cache[b];
    }

    /** The buffer of b, already filled with `data`, goes to the disk. */
    method Bwrite(b: nat, data: Block, ghost v: map<int, Block>)
      requires CacheOk() && Holds(v) && b < |disk|
      requires b in pinned ==> data == v[b]
      modifies `cache, `disk, `writes
      ensures CacheOk() && Holds(v) && b in cache && cache[b] == data
      ensures disk == old(disk)[b := data]
      ensures writes == old(writes) + [Write(b, data)]
    {
      cache := cache[b := data];
      disk := disk[b := data];
      writes := writes + [Write(b, data)];
    }

    method WriteHead(ghost v: map<int, Block>)
      requires CacheOk() && Holds(v) && |lh| < layout.size && IsHead(disk[layout.start])
      modifies `cache, `disk, `writes
      ensures CacheOk() && Holds(v)
      ensures disk == old(disk)[layout.start := EncodeHead(old(disk)[layout.start], lh)]
      ensures writes == old(writes) + [Write(layout.start, EncodeHead(old(disk)[layout.start], lh))]
    {
      assert !IsHome(layout, disk, layout.start);
      var head := Bread(layout.start, v);
      var b := FillHead(head, lh);
      Bwrite(layout.start, b, v);
    }

    /** Reads the header block into lh. */
    method ReadHead()
      requires CacheOk() && GoodDisk(layout, disk) && pinned == {}
      modifies `cache, `lh
      ensures CacheOk() && lh == DecodeHead(disk[layout.start])
    {
      var b := Bread(layout.start, map[]);
      var n := HeadCount(b);
      var blocks := [];
      for i := 0 to n
        invariant blocks == b.words[1..1 + i]
      {
        blocks := blocks + [b.words[1 + i]];
      }
      lh := blocks;
    }

    /** One round of write_log: a cached block goes to its log block. */
    method CopyToLog(tail: nat, ghost v: map<int, Block>)
      requires CacheOk() && Holds(v) && GoodTargets(layout, disk, lh) && tail < |lh|
      requires lh[tail] in pinned
      modifies `cache, `disk, `writes
      ensures CacheOk() && Holds(v)
      ensures disk == old(disk)[layout.start + tail + 1 := v[lh[tail]]]
      ensures writes == old(writes) + [Write(layout.start + tail + 1, v[lh[tail]])]
    {
      assert !IsHome(layout, disk, layout.start + tail + 1);
      var from := Bread(lh[tail], v);
      Bwrite(layout.start + tail + 1, from, v);
    }

    method WriteLog(ghost v: map<int, Block>)
      requires CacheOk() && Holds(v) && GoodTargets(layout, disk, lh)
      requires forall i :: 0 <= i < |lh| ==> lh[i] in pinned
      modifies `cache, `disk, `writes
      ensures CacheOk() && Holds(v)
      ensures forall i :: 0 <= i < |lh| ==> lh[i] in v
      ensures writes == old(writes) + LogWrites(layout, lh, v)
      ensures disk == Apply(old(disk), LogWrites(layout, lh, v))
    {
      ghost var ws := LogWrites(layout, lh, v);
      for tail := 0 to |lh|
        invariant CacheOk() && Holds(v) && |disk| == |old(disk)|
        invariant GoodTargets(layout, disk, lh)
        invariant writes == old(writes) + ws[..tail]
        invariant disk == Apply(old(disk), ws[..tail])
      {
        CopyToLog(tail, v);
        ApplyNext(old(disk), ws, tail);
      }
      assert ws[..|lh|] == ws;
    }

    /** One round of install_trans: a log block goes home, and a commit unpins its buffer. */
    method InstallOne(tail: nat, recovering: bool, ghost v: map<int, Block>, ghost d0: Disk, ghost w0: seq<Write>)
      requires CacheOk() && Holds(v) && tail < |lh|
      requires PinsAt(recovering, tail)
      requires Installing(layout, d0, w0, disk, writes, lh, tail)
      requires !recovering ==> InLog(layout, d0, lh, v)
      modifies `cache, `disk, `writes, `pinned
      ensures CacheOk() && Holds(v)
      ensures PinsAt(recovering, tail + 1)
      ensures Installing(layout, d0, w0, disk, writes, lh, tail + 1)
    {
      InstallStep(layout, d0, w0, disk, writes, lh, tail);
      assert !IsHome(layout, disk, layout.start + tail + 1);
      var lbuf := Bread(layout.start + tail + 1, v);
      var _ := Bread(lh[tail], v);
      Bwrite(lh[tail], lbuf, v);
      if !recovering {
        ElementsTail(lh, tail);
        pinned := pinned - {lh[tail]};
      }
    }

    /** Recovery pins nothing; a commit has yet to unpin the blocks from `tail` on. */
    ghost predicate PinsAt(recovering: bool, tail: nat)
      reads this
    {
      if recovering then pinned == {}
      else tail <= |lh| && Distinct(lh) && pinned == Elements(lh[tail..])
    }

    method InstallTrans(recovering: bool, ghost v: map<int, Block>)
      requires CacheOk() && Holds(v) && GoodTargets(layout, disk, lh)
      requires PinsAt(recovering, 0)
      requires !recovering ==> InLog(layout, disk, lh, v)
      modifies `cache, `disk, `writes, `pinned
      ensures CacheOk() && pinned == {}
      ensures writes == old(writes) + InstallWrites(layout, old(disk), lh)
      ensures disk == Apply(old(disk), InstallWrites(layout, old(disk), lh))
    {
      ghost var d0, w0 := disk, writes;
      for tail := 0 to |lh|
        invariant CacheOk() && Holds(v) && PinsAt(recovering, tail)
        invariant Installing(layout, d0, w0, disk, writes, lh, tail)
      {
        InstallOne(tail, recovering, v, d0, w0);
      }
      InstallEnd(layout, d0, w0, disk, writes, lh);
    }

    method RecoverFromLog()
      requires CacheOk() && GoodDisk(layout, disk) && pinned == {} && 0 <= outstanding
      modifies `cache, `disk, `writes, `pinned, `lh
      ensures Valid() && lh == []
      ensures writes == old(writes) + RecoverWrites(layout, old(disk))
      ensures disk == Recovered(layout, old(disk))
    {
      hide CacheOk, Apply, InstallWrites;
      ReadHead();
      ghost var d0 := disk;
      ghost var ws := InstallWrites(layout, d0, lh);
      InstallTrans(true, map[]);
      InstallKeepsHead(layout, d0, lh);
      lh := [];
      ApplyAppend(d0, ws, [ClearHead(layout, d0)]);
      ApplyOne(disk, ClearHead(layout, d0));
      WriteHead(map[]);
    }

    /** The first half of commit: the transaction reaches the log, then the header. */
    method WriteTransaction(ghost v: map<int, Block>)
      requires Valid() && lh != [] && v == cache
      modifies `cache, `disk, `writes
      ensures CacheOk() && Holds(v)
      ensures ReadyToCommit(layout, old(disk), lh, v)
      ensures writes == old(writes) + LogWrites(layout, lh, v)
                          + [Write(layout.start, EncodeHead(old(disk)[layout.start], lh))]
      ensures disk == Apply(old(disk), LogWrites(layout, lh, v))
                          [layout.start := EncodeHead(old(disk)[layout.start], lh)]
    {
      WriteLog(v);
      ApplyUntouched(old(disk), LogWrites(layout, lh, v), layout.start);
      WriteHead(v);
    }

    /** commit when there is something to commit. */
    method CommitBlocks()
      requires Valid() && lh != []
      modifies `cache, `disk, `writes, `pinned, `lh
      ensures CacheOk() && pinned == {} && lh == []
      ensures ReadyToCommit(layout, old(disk), old(lh), old(cache))
      ensures writes == old(writes) + CommitWrites(layout, old(disk), old(lh), old(cache))
      ensures disk == Apply(old(disk), CommitWrites(layout, old(disk), old(lh), old(cache)))
    {
      ghost var d0, w0, v, l0 := disk, writes, cache, lh;
      WriteTransaction(v);
      ghost var d1 := disk;
      CommitParts(layout, d0, l0, v, d1);
      assert lh[0..] == lh;
      InstallTrans(false, v);
      CommitTotal(layout, d0, l0, v, d1, disk, w0);
      lh := [];
      WriteHead(map[]);
    }

    method Commit()
      requires Valid()
      modifies `cache, `disk, `writes, `pinned, `lh
      ensures Valid() && lh == []
      ensures ReadyToCommit(layout, old(disk), old(lh), old(cache))
      ensures writes == old(writes) + CommitWrites(layout, old(disk), old(lh), old(cache))
      ensures disk == Apply(old(disk), CommitWrites(layout, old(disk), old(lh), old(cache)))
      ensures forall a :: IsHome(layout, disk, a) ==> View(a) == old(View(a)) == disk[a]
    {
      CommitDone(layout, disk, lh, cache);
      if |lh| > 0 {
        CommitBlocks();
      }
    }

    /** begin_op: one pass of its loop. The caller sleeps when it is not admitted. */
    method BeginOp() returns (admitted: bool)
      modifies `outstanding
      ensures admitted <==> !committing && |lh| + (old(outstanding) + 1) * MAXOPBLOCKS <= LOGSIZE
      ensures outstanding == old(outstanding) + if admitted then 1 else 0
    {
      if committing {
        admitted := false;
      } else if |lh| + (outstanding + 1) * MAXOPBLOCKS > LOGSIZE {
        admitted := false;
      } else {
        outstanding := outstanding + 1;
        admitted := true;
      }
    }

    /** log_write of a held buffer that the caller has filled with `data`; false is a panic. */
    method LogWrite(b: int, data: Block) returns (ok: bool)
      requires Valid() && IsHome(layout, disk, b)
      modifies `cache, `pinned, `lh
      ensures ok <==> old(|lh|) < LOGSIZE && old(|lh|) < layout.size - 1 && outstanding >= 1
      ensures !ok ==> lh == old(lh) && pinned == old(pinned) && cache == old(cache)
      ensures ok ==> Valid() && lh == if b in old(lh) then old(lh) else old(lh) + [b]
      ensures ok ==> forall a :: 0 <= a < |disk| ==> View(a) == if a == b then data else old(View(a))
    {
      if |lh| >= LOGSIZE || |lh| >= layout.size - 1 || outstanding < 1 {
        return false;
      }
      var i := 0;
      while i < |lh| && lh[i] != b
        invariant 0 <= i <= |lh|
        invariant forall j :: 0 <= j < i ==> lh[j] != b
      {
        i := i + 1;
      }
      cache := cache[b := data];
      ElementsAppend(lh, b);
      if i == |lh| {
        pinned := pinned + {b};
        lh := lh + [b];
      } else {
        lh := lh[i := b];
        assert lh == old(lh);
      }
      return true;
    }

    /** end_op; false is its panic. The last operation out commits. */
    method EndOp() returns (ok: bool)
      requires Valid() && outstanding >= 1
      modifies `cache, `disk, `writes, `pinned, `lh, `outstanding, `committing
      ensures outstanding == old(outstanding) - 1 && |disk| == |old(disk)|
      ensures ok <==> !old(committing)
      ensures ok ==> Valid() && !committing
      ensures ok && outstanding == 0 ==>
                && lh == [] && ReadyToCommit(layout, old(disk), old(lh), old(cache))
                && writes == old(writes) + CommitWrites(layout, old(disk), old(lh), old(cache))
                && forall a :: IsHome(layout, disk, a) ==> disk[a] == old(View(a))
      ensures ok ==> forall a :: IsHome(layout, disk, a) ==> View(a) == old(View(a))
      ensures !ok || outstanding > 0 ==>
                writes == old(writes) && disk == old(disk) && lh == old(lh) && cache == old(cache)
    {
      outstanding := outstanding - 1;
      if committing { return false; }
      if outstanding == 0 {
        committing := true;
        Commit();
        committing := false;
      }
      return true;
    }
  }

  /** The copy loop of write_head. */
  method FillHead(head: Block, lh: seq<int>) returns (b: Block)
    requires IsHead(head) && |lh| < WORDS
    ensures b == EncodeHead(head, lh)
  {
    var hb := head.words[0 := |lh|];
    for i := 0 to |lh|
      invariant |hb| == WORDS && hb[0] == |lh|
      invariant forall j :: 0 <= j < i ==> hb[1 + j] == lh[j]
      invariant forall j :: i < j < WORDS ==> hb[j] == head.words[j]
    {
      hb := hb[1 + i := lh[i]];
    }
    b := Block(hb);
    assert hb == EncodeHead(head, lh).words;
  }

  lemma ElementsTail(s: seq<int>, i: nat)
    requires i < |s| && Distinct(s)
    ensures Elements(s[i + 1..]) == Elements(s[i..]) - {s[i]}
  {
    forall x ensures x in Elements(s[i + 1..]) <==> x in Elements(s[i..]) - {s[i]} {
      if x in Elements(s[i + 1..]) {
        var k :| 0 <= k < |s[i + 1..]| && s[i + 1..][k] == x;
        assert s[i..][k + 1] == x;
      }
      if x in Elements(s[i..]) - {s[i]} {
        var k :| 0 <= k < |s[i..]| && s[i..][k] == x;
        assert s[i + 1..][k - 1] == x;
      }
    }
  }

  lemma ApplyNext(d: Disk, ws: seq<Write>, k: nat)
    requires k < |ws| && ws[k].addr < |d|
    ensures ws[..k + 1] == ws[..k] + [ws[k]]
    ensures Apply(d, ws[..k + 1]) == Apply(d, ws[..k])[ws[k].addr := ws[k].data]
  {
    assert ws[..k + 1][..k] == ws[..k];
  }

  /** The first `tail` blocks of the log are installed: `d` and `w` have become of `d0` and `w0`. */
  ghost predicate Installing(l: Layout, d0: Disk, w0: seq<Write>, d: Disk, w: seq<Write>, lh: seq<int>, tail: nat) {
    && 2 <= l.size <= LOGSIZE && l.start + l.size <= |d0| && GoodTargets(l, d0, lh) && tail <= |lh|
    && d == Apply(d0, InstallWrites(l, d0, lh)[..tail])
    && w == w0 + InstallWrites(l, d0, lh)[..tail]
  }

  /** The log holds what `v` says of the blocks named in lh. */
  ghost predicate InLog(l: Layout, d: Disk, lh: seq<int>, v: map<int, Block>) {
    l.start + |lh| < |d| && forall i :: 0 <= i < |lh| ==> lh[i] in v && d[l.start + i + 1] == v[lh[i]]
  }

  lemma InstallStep(l: Layout, d0: Disk, w0: seq<Write>, d: Disk, w: seq<Write>, lh: seq<int>, tail: nat)
    requires Installing(l, d0, w0, d, w, lh, tail) && tail < |lh|
    ensures IsHome(l, d, lh[tail]) && d[l.start + tail + 1] == d0[l.start + tail + 1]
    ensures Installing(l, d0, w0, d[lh[tail] := d0[l.start + tail + 1]],
                       w + [Write(lh[tail], d0[l.start + tail + 1])], lh, tail + 1)
  {
    PartialInstall(l, d0, lh, tail);
    ApplyNext(d0, InstallWrites(l, d0, lh), tail);
  }

  lemma ApplyOne(d: Disk, w: Write)
    requires w.addr < |d|
    ensures Apply(d, [w]) == d[w.addr := w.data]
  {
    assert [w][..0] == [] && Apply(d, []) == d;
  }

  lemma InstallKeepsHead(l: Layout, d: Disk, lh: seq<int>)
    requires GoodDisk(l, d) && GoodTargets(l, d, lh)
    ensures Apply(d, InstallWrites(l, d, lh))[l.start] == d[l.start]
  {
    var ws := InstallWrites(l, d, lh);
    InstallKeepsLog(l, d, lh, |lh|, l.start);
    assert ws[..|lh|] == ws;
  }

  lemma InstallEnd(l: Layout, d0: Disk, w0: seq<Write>, d: Disk, w: seq<Write>, lh: seq<int>)
    requires Installing(l, d0, w0, d, w, lh, |lh|)
    ensures d == Apply(d0, InstallWrites(l, d0, lh)) && w == w0 + InstallWrites(l, d0, lh)
  {
    assert InstallWrites(l, d0, lh)[..|lh|] == InstallWrites(l, d0, lh);
  }

  lemma ElementsAppend(s: seq<int>, b: int)
    ensures Elements(s + [b]) == Elements(s) + {b}
  {
    forall x | x in Elements(s) + {b} ensures x in Elements(s + [b]) {
      assert (s + [b])[|s|] == b;
      if x in Elements(s) {
        var i :| 0 <= i < |s| && s[i] == x;
        assert (s + [b])[i] == x;
      }
    }
  }

  /** A commit is its four parts, and after the header write the log holds the blocks. */
  lemma CommitParts(l: Layout, d: Disk, lh: seq<int>, v: map<int, Block>, e: Disk)
    requires ReadyToCommit(l, d, lh, v) && lh != []
    requires e == Apply(d, LogWrites(l, lh, v))[l.start := EncodeHead(d[l.start], lh)]
    ensures |e| == |d| && e[l.start] == EncodeHead(d[l.start], lh)
    ensures InLog(l, e, lh, v)
    ensures InstallWrites(l, e, lh) == HomeWrites(lh, v)
    ensures GoodTargets(l, e, lh)
  {
    forall i | 0 <= i < |lh| ensures e[l.start + i + 1] == v[lh[i]] { LogHolds(l, d, lh, v, i); }
    assert InLog(l, e, lh, v) && GoodTargets(l, e, lh);
    hide *;
    LogIsHome(l, e, lh, v);
  }

  lemma LogIsHome(l: Layout, e: Disk, lh: seq<int>, v: map<int, Block>)
    requires InLog(l, e, lh, v) && GoodTargets(l, e, lh) && l.start + l.size <= |e|
    ensures InstallWrites(l, e, lh) == HomeWrites(lh, v)
  {
  }

  lemma LogHolds(l: Layout, d: Disk, lh: seq<int>, v: map<int, Block>, i: nat)
    requires ReadyToCommit(l, d, lh, v) && i < |lh|
    ensures Apply(d, LogWrites(l, lh, v))[l.start + i + 1] == v[lh[i]]
  {
    ApplyLast(d, LogWrites(l, lh, v), i);
  }

  lemma CommitTotal(l: Layout, d: Disk, lh: seq<int>, v: map<int, Block>, e: Disk, f: Disk, w: seq<Write>)
    requires ReadyToCommit(l, d, lh, v) && lh != []
    requires e == Apply(d, LogWrites(l, lh, v))[l.start := EncodeHead(d[l.start], lh)]
    requires f == Apply(e, HomeWrites(lh, v))
    ensures f[l.start] == e[l.start]
    ensures w + LogWrites(l, lh, v) + [Write(l.start, EncodeHead(d[l.start], lh))] + HomeWrites(lh, v)
            + [Write(l.start, EncodeHead(f[l.start], []))] == w + CommitWrites(l, d, lh, v)
    ensures f[l.start := EncodeHead(f[l.start], [])] == Apply(d, CommitWrites(l, d, lh, v))
  {
    var logw, headw := LogWrites(l, lh, v), Write(l.start, EncodeHead(d[l.start], lh));
    var homew, lastw := HomeWrites(lh, v), Write(l.start, EncodeHead(EncodeHead(d[l.start], lh), []));
    ApplyUntouched(e, homew, l.start);
    assert CommitWrites(l, d, lh, v) == logw + [headw] + homew + [lastw];
    assert e == Apply(d, logw)[headw.addr := headw.data] && EncodeHead(f[l.start], []) == lastw.data;
    assert headw.addr < |d| && lastw.addr < |d|;
    hide *;
    ApplyParts(d, logw, headw, homew, lastw);
    assert w + logw + [headw] + homew + [lastw] == w + (logw + [headw] + homew + [lastw]);
  }

  /** Some writes, one, some more, and another one. */
  lemma ApplyParts(d: Disk, us: seq<Write>, u: Write, ws: seq<Write>, w: Write)
    requires u.addr < |d| && w.addr < |d|
    ensures Apply(d, us + [u] + ws + [w]) == Apply(Apply(d, us)[u.addr := u.data], ws)[w.addr := w.data]
  {
    var two, three := us + [u], us + [u] + ws;
    assert two[..|us|] == us && (three + [w])[..|three|] == three;
    ApplyAppend(d, two, ws);
  }
}
