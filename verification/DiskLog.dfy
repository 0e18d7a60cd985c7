/** The on-disk redo log of Lab3/xv6-riscv/kernel/log.c: what each sequence of
    block writes does to the disk, and what recovery makes of any crash state.

    A disk is a sequence of blocks and one `bwrite` is one atomic step; a crash
    keeps a prefix of the writes that were going to happen. */
module DiskLog {

  const WORDS := 256         // BSIZE / sizeof(int)
  const MAXOPBLOCKS := 10
  const LOGSIZE := 30        // MAXOPBLOCKS * 3, and mkfs sets nlog to it

  /** A block read as ints; only the header block is ever looked into. */
  datatype Block = Block(words: seq<int>)

  type Disk = seq<Block>

  datatype Write = Write(addr: nat, data: Block)

  /** The log occupies `size` blocks from `start`: the header, then size - 1 data blocks. */
  datatype Layout = Layout(start: nat, size: nat)

  ghost predicate IsHome(l: Layout, d: Disk, a: int) {
    0 <= a < |d| && !(l.start <= a < l.start + l.size)
  }

  // ---- the header block ----

  predicate IsHead(b: Block) { |b.words| == WORDS }

  /** write_head stores n and the first n block numbers over what the header block held. */
  function EncodeHead(old_: Block, lh: seq<int>): (b: Block)
    requires IsHead(old_) && |lh| < WORDS
    ensures IsHead(b)
  {
    Block([|lh|] + lh + old_.words[1 + |lh|..])
  }

  function HeadCount(b: Block): int
    requires IsHead(b)
  {
    b.words[0]
  }

  function DecodeHead(b: Block): (lh: seq<int>)
    requires IsHead(b) && 0 <= HeadCount(b) < WORDS
    ensures |lh| == HeadCount(b)
  {
    b.words[1..1 + HeadCount(b)]
  }

  /** The header block begins with the count and the block numbers in order, and they are read
      back as they were stored. */
  lemma HeadRoundTrip(old_: Block, lh: seq<int>)
    requires IsHead(old_) && |lh| < WORDS
    ensures var b := EncodeHead(old_, lh).words;
            && b[0] == |lh| && (forall i :: 0 <= i < |lh| ==> b[1 + i] == lh[i])
            && forall i :: |lh| < i < WORDS ==> b[i] == old_.words[i]
    ensures HeadCount(EncodeHead(old_, lh)) == |lh|
    ensures DecodeHead(EncodeHead(old_, lh)) == lh
  {
    assert EncodeHead(old_, lh).words[1..1 + |lh|] == lh;
  }

  // ---- disks, writes and crashes ----

  /** A disk whose log header may be trusted by recovery. */
  ghost predicate GoodDisk(l: Layout, d: Disk) {
    && 2 <= l.size <= LOGSIZE
    && l.start + l.size <= |d|
    && IsHead(d[l.start]) && 0 <= HeadCount(d[l.start]) < l.size
    && GoodTargets(l, d, DecodeHead(d[l.start]))
  }

  ghost predicate GoodTargets(l: Layout, d: Disk, lh: seq<int>) {
    && |lh| < l.size
    && forall i :: 0 <= i < |lh| ==> IsHome(l, d, lh[i])
  }

  /** The disk after the writes `ws`, in order. A block number off the disk names nothing. */
  function Apply(d: Disk, ws: seq<Write>): (r: Disk)
    ensures |r| == |d|
    decreases |ws|
  {
    if ws == [] then d
    else
      var i := |ws| - 1;
      var e := Apply(d, ws[..i]);
      if ws[i].addr < |d| then e[ws[i].addr := ws[i].data] else e
  }

  lemma {:induction false} ApplyAppend(d: Disk, us: seq<Write>, ws: seq<Write>)
    ensures Apply(d, us + ws) == Apply(Apply(d, us), ws)
    decreases |ws|
  {
    if ws == [] {
      assert us + ws == us;
    } else {
      var n := |ws| - 1;
      ApplyAppend(d, us, ws[..n]);
      assert (us + ws)[..|us| + n] == us + ws[..n];
    }
  }

  /** A block no write names keeps its contents. */
  lemma {:induction false} ApplyUntouched(d: Disk, ws: seq<Write>, a: nat)
    requires a < |d|
    requires forall i :: 0 <= i < |ws| ==> ws[i].addr != a
    ensures Apply(d, ws)[a] == d[a]
    decreases |ws|
  {
    if ws != [] { ApplyUntouched(d, ws[..|ws| - 1], a); }
  }

  /** The last write that names a block decides its contents. */
  lemma {:induction false} ApplyLast(d: Disk, ws: seq<Write>, k: nat)
    requires k < |ws| && ws[k].addr < |d|
    requires forall i :: k < i < |ws| ==> ws[i].addr != ws[k].addr
    ensures Apply(d, ws)[ws[k].addr] == ws[k].data
    decreases |ws|
  {
    if k < |ws| - 1 { ApplyLast(d, ws[..|ws| - 1], k); }
  }

  /** Writes that all carry what `v` says about their address. */
  ghost predicate Carries(ws: seq<Write>, v: map<int, Block>) {
    forall i :: 0 <= i < |ws| ==> ws[i].addr in v && ws[i].data == v[ws[i].addr]
  }

  /** Consistent writes leave every block either untouched or as `v` says. */
  lemma {:induction false} ApplyCarries(d: Disk, ws: seq<Write>, v: map<int, Block>, a: nat)
    requires Carries(ws, v) && a < |d|
    ensures (exists i :: 0 <= i < |ws| && ws[i].addr == a) ==> a in v && Apply(d, ws)[a] == v[a]
    ensures (forall i :: 0 <= i < |ws| ==> ws[i].addr != a) ==> Apply(d, ws)[a] == d[a]
    decreases |ws|
  {
    if ws != [] {
      var n := |ws| - 1;
      ApplyCarries(d, ws[..n], v, a);
      if (exists i :: 0 <= i < |ws| && ws[i].addr == a) && ws[n].addr != a {
        var i :| 0 <= i < |ws| && ws[i].addr == a;
        assert ws[..n][i].addr == a;
      }
    }
  }

  // ---- recovery ----

  /** install_trans: log block i goes to its home block lh[i]. */
  function InstallWrites(l: Layout, d: Disk, lh: seq<int>): (ws: seq<Write>)
    requires l.start + l.size <= |d| && |lh| < l.size
    requires forall i :: 0 <= i < |lh| ==> 0 <= lh[i]
    ensures |ws| == |lh|
  {
    seq(|lh|, i requires 0 <= i < |lh| => Write(lh[i], d[l.start + i + 1]))
  }

  function ClearHead(l: Layout, d: Disk): Write
    requires l.start < |d| && IsHead(d[l.start])
  {
    Write(l.start, EncodeHead(d[l.start], []))
  }

  /** recover_from_log: install what the header names, then clear the header. */
  function RecoverWrites(l: Layout, d: Disk): (ws: seq<Write>)
    requires GoodDisk(l, d)
  {
    InstallWrites(l, d, DecodeHead(d[l.start])) + [ClearHead(l, d)]
  }

  function Recovered(l: Layout, d: Disk): Disk
    requires GoodDisk(l, d)
  {
    Apply(d, RecoverWrites(l, d))
  }

  /** What recovery promises about one home block: the last log block aimed at it. */
  ghost function RecoveredBlock(l: Layout, d: Disk, a: int): Block
    requires GoodDisk(l, d) && IsHome(l, d, a)
  {
    LastLogged(l, d, DecodeHead(d[l.start]), a)
  }

  ghost function LastLogged(l: Layout, d: Disk, lh: seq<int>, a: int): Block
    requires l.start + l.size <= |d| && |lh| < l.size && 0 <= a < |d|
    decreases |lh|
  {
    if lh == [] then d[a]
    else if lh[|lh| - 1] == a then d[l.start + |lh|]
    else LastLogged(l, d, lh[..|lh| - 1], a)
  }

  lemma {:induction false} InstallMeaning(l: Layout, d: Disk, lh: seq<int>, a: int)
    requires 2 <= l.size <= LOGSIZE && l.start + l.size <= |d|
    requires GoodTargets(l, d, lh) && IsHome(l, d, a)
    ensures Apply(d, InstallWrites(l, d, lh))[a] == LastLogged(l, d, lh, a)
    decreases |lh|
  {
    if lh != [] {
      var n := |lh| - 1;
      InstallMeaning(l, d, lh[..n], a);
      assert InstallWrites(l, d, lh)[..n] == InstallWrites(l, d, lh[..n]);
    }
  }

  /** Installing writes only home blocks, so the log area keeps its contents. */
  lemma InstallKeepsLog(l: Layout, d: Disk, lh: seq<int>, k: nat, a: int)
    requires 2 <= l.size <= LOGSIZE && l.start + l.size <= |d|
    requires GoodTargets(l, d, lh) && k <= |lh| && l.start <= a < l.start + l.size
    ensures Apply(d, InstallWrites(l, d, lh)[..k])[a] == d[a]
  {
    ApplyUntouched(d, InstallWrites(l, d, lh)[..k], a);
  }

  /** Recovery leaves an empty header, and each home block holds the last log block aimed at it. */
  lemma RecoveredMeaning(l: Layout, d: Disk)
    requires GoodDisk(l, d)
    ensures GoodDisk(l, Recovered(l, d)) && HeadCount(Recovered(l, d)[l.start]) == 0
    ensures forall a :: IsHome(l, d, a) ==> Recovered(l, d)[a] == RecoveredBlock(l, d, a)
  {
    var lh := DecodeHead(d[l.start]);
    var ws := InstallWrites(l, d, lh);
    var all := ws + [ClearHead(l, d)];
    assert all[..|ws|] == ws;
    forall a | IsHome(l, d, a)
      ensures Recovered(l, d)[a] == RecoveredBlock(l, d, a)
    {
      InstallMeaning(l, d, lh, a);
    }
  }

  /** The disk left by a crash after the first k writes of recovery. */
  function CrashedRecovery(l: Layout, d: Disk, k: nat): Disk
    requires GoodDisk(l, d) && k <= |RecoverWrites(l, d)|
  {
    Apply(d, RecoverWrites(l, d)[..k])
  }

  /** Replaying a partly replayed log changes nothing: home block contents written
      by install are the ones the log still holds. */
  lemma {:induction false} LastLoggedStable(l: Layout, d: Disk, e: Disk, lh: seq<int>, full: seq<int>, a: int)
    requires 2 <= l.size <= LOGSIZE && l.start + l.size <= |d| == |e|
    requires GoodTargets(l, d, lh) && GoodTargets(l, d, full) && IsHome(l, d, a)
    requires lh <= full
    requires forall b :: l.start <= b < l.start + l.size ==> e[b] == d[b]
    requires e[a] == d[a] || a in lh
    ensures LastLogged(l, e, lh, a) == LastLogged(l, d, lh, a)
    decreases |lh|
  {
    if lh != [] && lh[|lh| - 1] != a {
      var n := |lh| - 1;
      assert lh == lh[..n] + [lh[n]];
      LastLoggedStable(l, d, e, lh[..n], full, a);
    }
  }

  /** After k < n + 1 writes of recovery the log area is as before, and a home block
      that changed is one the header names. */
  lemma PartialInstall(l: Layout, d: Disk, lh: seq<int>, k: nat)
    requires 2 <= l.size <= LOGSIZE && l.start + l.size <= |d|
    requires GoodTargets(l, d, lh) && k <= |lh|
    ensures var e := Apply(d, InstallWrites(l, d, lh)[..k]);
            && (forall b :: l.start <= b < l.start + l.size ==> e[b] == d[b])
            && (forall a :: IsHome(l, d, a) && a !in lh ==> e[a] == d[a])
  {
    var ws := InstallWrites(l, d, lh)[..k];
    forall b | l.start <= b < l.start + l.size ensures Apply(d, ws)[b] == d[b] {
      InstallKeepsLog(l, d, lh, k, b);
    }
    forall a | IsHome(l, d, a) && a !in lh ensures Apply(d, ws)[a] == d[a] {
      ApplyUntouched(d, ws, a);
    }
  }

  lemma RecoveryPrefix(l: Layout, d: Disk, k: nat)
    requires GoodDisk(l, d) && k <= |RecoverWrites(l, d)|
    ensures k <= |DecodeHead(d[l.start])| ==>
              CrashedRecovery(l, d, k) == Apply(d, InstallWrites(l, d, DecodeHead(d[l.start]))[..k])
    ensures k > |DecodeHead(d[l.start])| ==> CrashedRecovery(l, d, k) == Recovered(l, d)
  {
    var lh := DecodeHead(d[l.start]);
    var ws := InstallWrites(l, d, lh);
    if k <= |lh| {
      PartialInstall(l, d, lh, k);
      assert RecoverWrites(l, d)[..k] == ws[..k];
    } else {
      assert RecoverWrites(l, d)[..k] == RecoverWrites(l, d);
    }
  }

  /** Crash anywhere inside recovery: a later recovery reaches the same home blocks. */
  lemma RecoveryIdempotent(l: Layout, d: Disk, k: nat)
    requires GoodDisk(l, d) && k <= |RecoverWrites(l, d)|
    ensures GoodDisk(l, CrashedRecovery(l, d, k))
    ensures forall a :: IsHome(l, d, a) ==>
              Recovered(l, CrashedRecovery(l, d, k))[a] == Recovered(l, d)[a]
  {
    var lh := DecodeHead(d[l.start]);
    var e := CrashedRecovery(l, d, k);
    RecoveredMeaning(l, d);
    RecoveryPrefix(l, d, k);
    if k <= |lh| {
      PartialInstall(l, d, lh, k);
      RecoveredMeaning(l, e);
      forall a | IsHome(l, d, a) ensures Recovered(l, e)[a] == Recovered(l, d)[a] {
        LastLoggedStable(l, d, e, lh, lh, a);
      }
    } else {
      RecoveredMeaning(l, e);
    }
  }

  /** Crashes during recovery, one after the other: crash i keeps ks[i] of its writes. */
  ghost predicate CanCrash(l: Layout, d: Disk, ks: seq<nat>)
    decreases |ks|
  {
    && GoodDisk(l, d)
    && (ks != [] ==> ks[0] <= |RecoverWrites(l, d)| && CanCrash(l, CrashedRecovery(l, d, ks[0]), ks[1..]))
  }

  ghost function AfterCrashes(l: Layout, d: Disk, ks: seq<nat>): (r: Disk)
    requires CanCrash(l, d, ks)
    ensures |r| == |d|
    decreases |ks|
  {
    if ks == [] then d else AfterCrashes(l, CrashedRecovery(l, d, ks[0]), ks[1..])
  }

  lemma {:induction false} RecoverySurvivesCrashes(l: Layout, d: Disk, ks: seq<nat>)
    requires CanCrash(l, d, ks)
    ensures GoodDisk(l, AfterCrashes(l, d, ks))
    ensures forall a :: IsHome(l, d, a) ==>
              Recovered(l, AfterCrashes(l, d, ks))[a] == Recovered(l, d)[a]
    decreases |ks|
  {
    if ks != [] {
      var e := CrashedRecovery(l, d, ks[0]);
      RecoveryIdempotent(l, d, ks[0]);
      RecoverySurvivesCrashes(l, e, ks[1..]);
      forall a | IsHome(l, d, a)
        ensures Recovered(l, AfterCrashes(l, d, ks))[a] == Recovered(l, d)[a]
      {
        assert IsHome(l, e, a);
      }
    }
  }

  // ---- commit ----

  /** What commit may rely on: an empty header on disk, and a cached copy of every logged block. */
  ghost predicate ReadyToCommit(l: Layout, d: Disk, lh: seq<int>, v: map<int, Block>) {
    && GoodDisk(l, d) && HeadCount(d[l.start]) == 0
    && GoodTargets(l, d, lh)
    && forall i :: 0 <= i < |lh| ==> lh[i] in v
  }

  function LogWrites(l: Layout, lh: seq<int>, v: map<int, Block>): (ws: seq<Write>)
    requires forall i :: 0 <= i < |lh| ==> lh[i] in v
    ensures |ws| == |lh|
  {
    seq(|lh|, i requires 0 <= i < |lh| => Write(l.start + i + 1, v[lh[i]]))
  }

  function HomeWrites(lh: seq<int>, v: map<int, Block>): (ws: seq<Write>)
    requires forall i :: 0 <= i < |lh| ==> lh[i] in v && 0 <= lh[i]
    ensures |ws| == |lh|
  {
    seq(|lh|, i requires 0 <= i < |lh| => Write(lh[i], v[lh[i]]))
  }

  /** commit: the log blocks, the header, the home blocks, the empty header. */
  function CommitWrites(l: Layout, d: Disk, lh: seq<int>, v: map<int, Block>): (ws: seq<Write>)
    requires ReadyToCommit(l, d, lh, v)
    ensures |ws| == if lh == [] then 0 else 2 * |lh| + 2
  {
    if lh == [] then []
    else
      LogWrites(l, lh, v) + [Write(l.start, EncodeHead(d[l.start], lh))]
      + HomeWrites(lh, v) + [Write(l.start, EncodeHead(EncodeHead(d[l.start], lh), []))]
  }

  /** The home block after the transaction. */
  function Committed(l: Layout, d: Disk, lh: seq<int>, v: map<int, Block>, a: int): Block
    requires ReadyToCommit(l, d, lh, v) && 0 <= a < |d|
  {
    if a in lh then v[a] else d[a]
  }

  function CrashedCommit(l: Layout, d: Disk, lh: seq<int>, v: map<int, Block>, k: nat): Disk
    requires ReadyToCommit(l, d, lh, v) && k <= |CommitWrites(l, d, lh, v)|
  {
    Apply(d, CommitWrites(l, d, lh, v)[..k])
  }

  lemma {:induction false} LastLoggedOfLog(l: Layout, d: Disk, e: Disk, lh: seq<int>, v: map<int, Block>, a: int)
    requires 2 <= l.size <= LOGSIZE && l.start + l.size <= |e| == |d|
    requires GoodTargets(l, d, lh) && IsHome(l, d, a)
    requires forall i :: 0 <= i < |lh| ==> lh[i] in v && e[l.start + 1 + i] == v[lh[i]]
    ensures LastLogged(l, e, lh, a) == if a in lh then v[a] else e[a]
    decreases |lh|
  {
    if lh != [] && lh[|lh| - 1] != a {
      var n := |lh| - 1;
      assert lh == lh[..n] + [lh[n]];
      LastLoggedOfLog(l, d, e, lh[..n], v, a);
    }
  }

  /** Before the header write no home block and no header word has changed. */
  lemma BeforeCommitPoint(l: Layout, d: Disk, lh: seq<int>, v: map<int, Block>, k: nat)
    requires ReadyToCommit(l, d, lh, v) && k <= |lh|
    ensures k <= |CommitWrites(l, d, lh, v)|
    ensures CrashedCommit(l, d, lh, v, k)[l.start] == d[l.start]
    ensures forall a :: IsHome(l, d, a) ==> CrashedCommit(l, d, lh, v, k)[a] == d[a]
    ensures GoodDisk(l, CrashedCommit(l, d, lh, v, k))
  {
    var ws := CommitWrites(l, d, lh, v)[..k];
    assert lh != [] ==> ws == LogWrites(l, lh, v)[..k];
    forall a | a == l.start || IsHome(l, d, a)
      ensures CrashedCommit(l, d, lh, v, k)[a] == d[a]
    {
      ApplyUntouched(d, ws, a);
    }
  }

  /** The write at position i of a commit. */
  lemma CommitWriteAt(l: Layout, d: Disk, lh: seq<int>, v: map<int, Block>, i: nat)
    requires ReadyToCommit(l, d, lh, v) && lh != [] && i <= 2 * |lh|
    ensures i < |CommitWrites(l, d, lh, v)|
    ensures CommitWrites(l, d, lh, v)[i] ==
            (if i < |lh| then Write(l.start + i + 1, v[lh[i]])
             else if i == |lh| then Write(l.start, EncodeHead(d[l.start], lh))
             else Write(lh[i - |lh| - 1], v[lh[i - |lh| - 1]]))
  {
  }

  /** A prefix of a commit that reaches past the header write, seen write by write. */
  ghost predicate PastHeader(l: Layout, d: Disk, lh: seq<int>, v: map<int, Block>, ws: seq<Write>) {
    && l.start < |d| && IsHead(d[l.start]) && |lh| < WORDS && |lh| < |ws| <= 2 * |lh| + 1
    && (forall i :: 0 <= i < |lh| ==> lh[i] in v)
    && (forall i :: 0 <= i < |lh| ==> ws[i].addr == l.start + i + 1 && ws[i].data == v[lh[i]])
    && ws[|lh|] == Write(l.start, EncodeHead(d[l.start], lh))
    && (forall i :: |lh| < i < |ws| ==> ws[i].addr == lh[i - |lh| - 1])
  }

  lemma PastHeaderLog(l: Layout, d: Disk, lh: seq<int>, v: map<int, Block>, ws: seq<Write>)
    requires PastHeader(l, d, lh, v, ws)
    requires l.start + l.size <= |d| && GoodTargets(l, d, lh)
    ensures Apply(d, ws)[l.start] == EncodeHead(d[l.start], lh)
    ensures forall i :: 0 <= i < |lh| ==> Apply(d, ws)[l.start + 1 + i] == v[lh[i]]
  {
    ApplyLast(d, ws, |lh|);
    forall i | 0 <= i < |lh| ensures Apply(d, ws)[l.start + 1 + i] == v[lh[i]] {
      ApplyLast(d, ws, i);
    }
  }

  lemma PastHeaderOthers(l: Layout, d: Disk, lh: seq<int>, v: map<int, Block>, ws: seq<Write>)
    requires PastHeader(l, d, lh, v, ws)
    requires l.start + l.size <= |d| && GoodTargets(l, d, lh)
    ensures forall a :: IsHome(l, d, a) && a !in lh ==> Apply(d, ws)[a] == d[a]
  {
    forall a | IsHome(l, d, a) && a !in lh ensures Apply(d, ws)[a] == d[a] {
      ApplyUntouched(d, ws, a);
    }
  }

  /** From the header write on, the log holds the whole transaction until it is installed. */
  lemma AfterCommitPoint(l: Layout, d: Disk, lh: seq<int>, v: map<int, Block>, k: nat)
    requires ReadyToCommit(l, d, lh, v) && lh != [] && |lh| < k <= 2 * |lh| + 1
    ensures k <= |CommitWrites(l, d, lh, v)|
    ensures var e := CrashedCommit(l, d, lh, v, k);
            && e[l.start] == EncodeHead(d[l.start], lh)
            && (forall i :: 0 <= i < |lh| ==> e[l.start + 1 + i] == v[lh[i]])
            && (forall a :: IsHome(l, d, a) && a !in lh ==> e[a] == d[a])
  {
    var ws := CommitWrites(l, d, lh, v)[..k];
    assert PastHeader(l, d, lh, v, ws) by {
      forall i: nat | i < k
        ensures ws[i] == CommitWrites(l, d, lh, v)[i]
        ensures i < |lh| ==> ws[i] == Write(l.start + i + 1, v[lh[i]])
        ensures i == |lh| ==> ws[i] == Write(l.start, EncodeHead(d[l.start], lh))
        ensures i > |lh| ==> ws[i].addr == lh[i - |lh| - 1]
      {
        CommitWriteAt(l, d, lh, v, i);
      }
    }
    PastHeaderLog(l, d, lh, v, ws);
    PastHeaderOthers(l, d, lh, v, ws);
  }

  /** With the last home write every home block holds its committed contents. */
  lemma AllInstalled(l: Layout, d: Disk, lh: seq<int>, v: map<int, Block>)
    requires ReadyToCommit(l, d, lh, v) && lh != []
    ensures forall a :: IsHome(l, d, a) ==>
              CrashedCommit(l, d, lh, v, 2 * |lh| + 1)[a] == Committed(l, d, lh, v, a)
  {
    var n := |lh|;
    var ws := CommitWrites(l, d, lh, v);
    var us, homew := ws[..n + 1], HomeWrites(lh, v);
    assert ws[..2 * n + 1] == us + homew;
    ApplyAppend(d, us, homew);
    AfterCommitPoint(l, d, lh, v, n + 1);
    var e := Apply(d, us);
    forall a | IsHome(l, d, a)
      ensures Apply(e, homew)[a] == Committed(l, d, lh, v, a)
    {
      if a in lh {
        var i :| 0 <= i < n && lh[i] == a;
        assert homew[i].addr == a;
      }
      ApplyCarries(e, homew, v, a);
    }
  }

  lemma CommitDone(l: Layout, d: Disk, lh: seq<int>, v: map<int, Block>)
    requires ReadyToCommit(l, d, lh, v)
    ensures var e := Apply(d, CommitWrites(l, d, lh, v));
            && GoodDisk(l, e) && HeadCount(e[l.start]) == 0
            && forall a :: IsHome(l, d, a) ==> e[a] == Committed(l, d, lh, v, a)
  {
    if lh != [] {
      var k := 2 * |lh| + 1;
      var ws := CommitWrites(l, d, lh, v);
      AllInstalled(l, d, lh, v);
      assert ws[..k] + [ws[k]] == ws;
    }
  }

  /** A crash between the header write and its erasure: recovery finishes the transaction. */
  lemma RecoverCommitted(l: Layout, d: Disk, lh: seq<int>, v: map<int, Block>, k: nat)
    requires ReadyToCommit(l, d, lh, v) && lh != [] && |lh| < k <= 2 * |lh| + 1
    ensures k <= |CommitWrites(l, d, lh, v)|
    ensures GoodDisk(l, CrashedCommit(l, d, lh, v, k))
    ensures forall a :: IsHome(l, d, a) ==>
              Recovered(l, CrashedCommit(l, d, lh, v, k))[a] == Committed(l, d, lh, v, a)
  {
    AfterCommitPoint(l, d, lh, v, k);
    HeadRoundTrip(d[l.start], lh);
    RecoverLogged(l, d, CrashedCommit(l, d, lh, v, k), lh, v);
  }

  /** Recovery of a disk whose header and log blocks hold the transaction. */
  lemma RecoverLogged(l: Layout, d: Disk, e: Disk, lh: seq<int>, v: map<int, Block>)
    requires ReadyToCommit(l, d, lh, v) && |e| == |d| && IsHead(e[l.start])
    requires HeadCount(e[l.start]) == |lh| && DecodeHead(e[l.start]) == lh
    requires forall i :: 0 <= i < |lh| ==> e[l.start + 1 + i] == v[lh[i]]
    requires forall a :: IsHome(l, d, a) && a !in lh ==> e[a] == d[a]
    ensures GoodDisk(l, e)
    ensures forall a :: IsHome(l, d, a) ==> Recovered(l, e)[a] == Committed(l, d, lh, v, a)
  {
    RecoveredMeaning(l, e);
    forall a | IsHome(l, d, a)
      ensures Recovered(l, e)[a] == Committed(l, d, lh, v, a)
    {
      LastLoggedOfLog(l, d, e, lh, v, a);
    }
  }

  /** Recovery of a disk with an empty header leaves the home blocks alone. */
  lemma RecoverEmpty(l: Layout, d: Disk)
    requires GoodDisk(l, d) && HeadCount(d[l.start]) == 0
    ensures forall a :: IsHome(l, d, a) ==> Recovered(l, d)[a] == d[a]
  {
    RecoveredMeaning(l, d);
  }

  /** Whatever prefix of a commit reached the disk, recovery yields all of the old
      home blocks when the header write is missing and all of the new ones otherwise. */
  lemma CommitAtomic(l: Layout, d: Disk, lh: seq<int>, v: map<int, Block>, k: nat)
    requires ReadyToCommit(l, d, lh, v) && k <= |CommitWrites(l, d, lh, v)|
    ensures GoodDisk(l, CrashedCommit(l, d, lh, v, k))
    ensures forall a :: IsHome(l, d, a) ==>
              Recovered(l, CrashedCommit(l, d, lh, v, k))[a]
                == if k <= |lh| then d[a] else Committed(l, d, lh, v, a)
  {
    var e := CrashedCommit(l, d, lh, v, k);
    assert forall a :: IsHome(l, d, a) ==> IsHome(l, e, a);
    if k <= |lh| {
      BeforeCommitPoint(l, d, lh, v, k);
      RecoverEmpty(l, e);
    } else if k <= 2 * |lh| + 1 {
      RecoverCommitted(l, d, lh, v, k);
    } else {
      assert CommitWrites(l, d, lh, v)[..k] == CommitWrites(l, d, lh, v);
      CommitDone(l, d, lh, v);
      RecoverEmpty(l, e);
    }
  }

  /** Crash atomicity. A crash after any k writes of commit, then any number of crashes
      inside recovery, then one recovery that completes. */
  lemma CrashAtomicity(l: Layout, d: Disk, lh: seq<int>, v: map<int, Block>, k: nat, ks: seq<nat>)
    requires ReadyToCommit(l, d, lh, v) && k <= |CommitWrites(l, d, lh, v)|
    requires CanCrash(l, CrashedCommit(l, d, lh, v, k), ks)
    ensures GoodDisk(l, AfterCrashes(l, CrashedCommit(l, d, lh, v, k), ks))
    ensures var final := Recovered(l, AfterCrashes(l, CrashedCommit(l, d, lh, v, k), ks));
            && HeadCount(final[l.start]) == 0
            && (k <= |lh| ==> forall a :: IsHome(l, d, a) ==> final[a] == d[a])
            && (k > |lh| ==> forall a :: IsHome(l, d, a) ==> final[a] == Committed(l, d, lh, v, a))
  {
    var e := CrashedCommit(l, d, lh, v, k);
    CommitAtomic(l, d, lh, v, k);
    RecoverySurvivesCrashes(l, e, ks);
    RecoveredMeaning(l, AfterCrashes(l, e, ks));
    assert forall a :: IsHome(l, d, a) ==> IsHome(l, e, a);
  }
}
