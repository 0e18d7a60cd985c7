/** filewrite of Lab3/xv6-riscv/kernel/file.c:148-174 over the log of log.c: what a crash leaves of a
    file that is being written. Each chunk is one operation of the log, and all that it has changed
    is in the blocks that it has logged. */
module FsCrash {
  import opened Inodes
  import opened InodeSteps
  import opened FsCode
  import DL = DiskLog
  import LD = LogDevice
  import LS = LogSystem

  // ---- the blocks of a file system ----

  /** mkfs.c: the log lies between the superblock and the inodes. */
  function LayoutOf(sb: Super): DL.Layout { DL.Layout(sb.logstart, sb.nlog) }

  const WPI := 14       // size and NDIRECT + 1 addresses

  function InodeWord(inodes: seq<Inode>, j: int, x: int): int {
    if 0 <= j < |inodes| && 0 < x <= |inodes[j].addrs| then inodes[j].addrs[x - 1]
    else if 0 <= j < |inodes| && x == 0 then inodes[j].size else 0
  }

  /** Inode block m, with IPB inodes. */
  function InodeWords(inodes: seq<Inode>, m: int): (w: seq<int>)
    ensures |w| == IPB * WPI && forall x :: 0 <= x < IPB * WPI ==> w[x] == InodeWord(inodes, IPB * m + x / WPI, x % WPI)
  {
    seq(IPB * WPI, x requires 0 <= x < IPB * WPI => InodeWord(inodes, IPB * m + x / WPI, x % WPI))
  }

  function BlockAt(sb: Super, st: Stage, a: int): DL.Block
    requires 0 <= a < |st.disk|
  {
    if sb.inodestart <= a < sb.bmapstart then DL.Block(InodeWords(st.inodes, a - sb.inodestart)) else DL.Block(st.disk[a])
  }

  predicate InLog(sb: Super, a: int) { sb.logstart <= a < sb.logstart + sb.nlog }

  /** All blocks but those of the log. */
  ghost function Image(sb: Super, st: Stage): map<int, DL.Block> {
    map a | 0 <= a < |st.disk| && !InLog(sb, a) :: BlockAt(sb, st, a)
  }

  /** A block that an operation has not logged is the same after it. */
  lemma Unlogged(sb: Super, s: Stage, t: Stage, o: set<int>, a: int)
    requires Transaction(sb, s, t, o) && 0 <= a < |s.disk| && a !in o
    ensures BlockAt(sb, t, a) == BlockAt(sb, s, a)
  {
    assert SameBlockAt(s.disk, t.disk, a);
    if sb.inodestart <= a < sb.bmapstart {
      var m := a - sb.inodestart;
      forall x | 0 <= x < IPB * WPI ensures InodeWords(t.inodes, m)[x] == InodeWords(s.inodes, m)[x] {
        var j := IPB * m + x / WPI;
        assert IBlock(sb, j) == a;
      }
      assert InodeWords(t.inodes, m) == InodeWords(s.inodes, m);
    }
  }

  /** The blocks tell the inodes. */
  lemma InodesOf(sb: Super, s: Stage, t: Stage)
    requires StageOk(sb, s) && StageOk(sb, t) && Image(sb, s) == Image(sb, t)
    ensures s.inodes == t.inodes
  {
    forall j | 0 <= j < |s.inodes| ensures s.inodes[j] == t.inodes[j] {
      var a, m, q := IBlock(sb, j), j / IPB, j % IPB;
      assert sb.inodestart <= a < sb.bmapstart && !InLog(sb, a);
      assert Image(sb, s)[a] == BlockAt(sb, s, a) && Image(sb, t)[a] == BlockAt(sb, t, a);
      assert InodeWords(s.inodes, m) == InodeWords(t.inodes, m);
      SameWord(s.inodes, t.inodes, j, 0);
      forall x | 0 <= x <= NDIRECT ensures s.inodes[j].addrs[x] == t.inodes[j].addrs[x] { SameWord(s.inodes, t.inodes, j, x + 1); }
      assert s.inodes[j].addrs == t.inodes[j].addrs;
    }
  }

  lemma SameWord(s: seq<Inode>, t: seq<Inode>, j: int, x: int)
    requires 0 <= j && 0 <= x < WPI && InodeWords(s, j / IPB) == InodeWords(t, j / IPB)
    ensures InodeWord(s, j, x) == InodeWord(t, j, x)
  {
    var y := WPI * (j % IPB) + x;
    assert y / WPI == j % IPB && y % WPI == x;
    assert InodeWords(s, j / IPB)[y] == InodeWord(s, j, x) && InodeWords(t, j / IPB)[y] == InodeWord(t, j, x);
  }

  /** The blocks tell the files. */
  lemma FilesOf(sb: Super, s: Stage, t: Stage)
    requires StageOk(sb, s) && StageOk(sb, t) && Image(sb, s) == Image(sb, t)
    ensures s.files == t.files
  {
    InodesOf(sb, s, t);
    forall j | 0 <= j < |s.files| ensures s.files[j] == t.files[j] {
      forall n ensures KeepOk(StageView(s), StageView(t), j, n) { SamePlace(sb, s, t, j, n); }
      KeptFile(StageView(s), StageView(t), j, s.files[j]);
      SameBytes(StageView(t), j, s.files[j], t.files[j]);
    }
  }

  lemma SamePlace(sb: Super, s: Stage, t: Stage, j: int, n: int)
    requires StageOk(sb, s) && StageOk(sb, t) && Image(sb, s) == Image(sb, t) && s.inodes == t.inodes
    ensures KeepOk(StageView(s), StageView(t), j, n)
  {
    var v := StageView(s);
    if 0 <= n < MAXFILE && IsSlot(v, j, DataSlot(n)) {
      assert SlotOk(v, j, DataSlot(n)) && SlotOk(v, j, NDIRECT);
      var a, ind := Addr(v.disk, v.inodes[j], DataSlot(n)), v.inodes[j].addrs[NDIRECT];
      assert OwnerOk(sb, v, a) && OwnerOk(sb, v, ind);
      if a != 0 { SameData(sb, s, t, a); }
      if ind != 0 { SameData(sb, s, t, ind); }
    }
  }

  lemma SameData(sb: Super, s: Stage, t: Stage, a: int)
    requires StageOk(sb, s) && StageOk(sb, t) && Image(sb, s) == Image(sb, t) && DataStart(sb) <= a < sb.size
    ensures |s.disk| == |t.disk| == sb.size && s.disk[a] == t.disk[a]
  {
    assert Image(sb, s)[a] == BlockAt(sb, s, a) && Image(sb, t)[a] == BlockAt(sb, t, a);
  }

  lemma SameBytes(v: View, j: int, c: seq<int>, d: seq<int>)
    requires FileIs(v, j, c) && FileIs(v, j, d) && |c| == |d|
    ensures c == d
  {
    forall k | 0 <= k < |c| ensures c[k] == d[k] { assert ByteIs(v, j, c, k) && ByteIs(v, j, d, k); }
  }

  // ---- runs of the log that are a filewrite ----

  function Ended(es: seq<LS.Event>): nat {
    if es == [] then 0 else Ended(es[..|es| - 1]) + if es[|es| - 1].End? then 1 else 0
  }

  predicate Crashed(es: seq<LS.Event>) {
    es != [] && (es[|es| - 1].Crash? || Crashed(es[..|es| - 1]))
  }

  /** What filewrite may do when k of its chunks have ended: begin_op for the next, log_write of a block
      of that chunk, and end_op when the cache holds what the chunk leaves in all its blocks. Disk
      writes and crashes may come at any time; after a crash filewrite is gone. */
  ghost predicate MayDo(sb: Super, t: LS.Sys, e: LS.Event, stages: seq<Stage>, ops: seq<set<int>>, k: nat, crashed: bool) {
    match e
    case Begin => !crashed && t.ops == [] && k < |ops|
    case LogWrite(_, b, _) => k < |ops| && b in ops[k]
    case End(_) =>
      && k < |ops| && k + 1 < |stages| && t.ops == [ops[k]]
      && forall b :: b in ops[k] && b in t.cache && 0 <= b < |stages[k + 1].disk| ==> t.cache[b] == BlockAt(sb, stages[k + 1], b)
    case _ => true
  }

  /** A run that starts with the blocks of the first stage. */
  ghost predicate Follows(sb: Super, s: LS.Sys, es: seq<LS.Event>, stages: seq<Stage>, ops: seq<set<int>>) {
    && LS.Runs(LayoutOf(sb), s, es) && stages != [] && LS.HomeBlocks(LayoutOf(sb), s.disk) == Image(sb, stages[0])
    && |s.disk| == sb.size
    && forall i :: 0 <= i < |es| ==> Did(sb, s, es, stages, ops, i)
  }

  ghost predicate Did(sb: Super, s: LS.Sys, es: seq<LS.Event>, stages: seq<Stage>, ops: seq<set<int>>, i: int)
    requires LS.Runs(LayoutOf(sb), s, es) && 0 <= i < |es|
  {
    RunsBefore(LayoutOf(sb), s, es, i);
    MayDo(sb, LS.Exec(LayoutOf(sb), s, es[..i]), es[i], stages, ops, Ended(es[..i]), Crashed(es[..i]))
  }

  lemma {:induction false} RunsBefore(l: DL.Layout, s: LS.Sys, es: seq<LS.Event>, i: int)
    requires LS.Runs(l, s, es) && 0 <= i <= |es|
    ensures LS.Runs(l, s, es[..i])
    decreases |es|
  {
    if i < |es| {
      RunsBefore(l, s, es[..|es| - 1], i);
      assert es[..|es| - 1][..i] == es[..i];
    } else {
      assert es[..i] == es;
    }
  }

  /** One transaction after the other, on a disk with mkfs's log. */
  ghost predicate Steps(sb: Super, stages: seq<Stage>, ops: seq<set<int>>) {
    && sb.nlog == DL.LOGSIZE && |stages| == |ops| + 1
    && (forall k :: 0 <= k < |stages| ==> |stages[k].disk| == sb.size)
    && (forall k :: 0 <= k < |ops| ==> Transaction(sb, stages[k], stages[k + 1], ops[k]))
  }

  /** The durable copy is that after k chunks, or the one before. */
  ghost predicate Behind(sb: Super, t: LS.Sys, stages: seq<Stage>, k: nat)
    requires LS.Inv(LayoutOf(sb), t) && k < |stages|
  {
    || LS.Durable(LayoutOf(sb), t) == Image(sb, stages[k])
    || (k > 0 && LS.Durable(LayoutOf(sb), t) == Image(sb, stages[k - 1]))
  }

  /** Where a run is when k chunks have ended. */
  ghost predicate Along(sb: Super, t: LS.Sys, stages: seq<Stage>, ops: seq<set<int>>, k: nat, crashed: bool) {
    && Steps(sb, stages, ops) && LS.Inv(LayoutOf(sb), t) && |t.disk| == sb.size && k <= |ops| && !t.panicked
    && (crashed ==> t.ops == [] && !t.phase.Committing? && Behind(sb, t, stages, k))
    && (!crashed ==>
          match t.phase
          case Running =>
            && LS.HomeBlocks(LayoutOf(sb), t.disk) == Image(sb, stages[k])
            && (t.ops != [] ==> |t.ops| == 1 && k < |ops| && t.ops[0] <= ops[k] && t.cache.Keys == t.ops[0])
          case Committing(_, _) => LS.Current(LayoutOf(sb), t) == Image(sb, stages[k]) && Behind(sb, t, stages, k)
          case Recovering(_, _) => false)
  }

  lemma {:induction false} Count(lh: seq<int>)
    requires forall i, j :: 0 <= i < j < |lh| ==> lh[i] != lh[j]
    ensures |LD.Elements(lh)| == |lh|
  {
    if lh != [] {
      var n := |lh| - 1;
      Count(lh[..n]);
      LD.ElementsAppend(lh[..n], lh[n]);
      assert lh == lh[..n] + [lh[n]] && lh[n] !in LD.Elements(lh[..n]);
    }
  }

  /** Nobody else is writing, so that no chunk makes log_write panic, whatever it logs. */
  lemma LogsOne(sb: Super, t: LS.Sys, e: LS.Event, stages: seq<Stage>, ops: seq<set<int>>, k: nat)
    requires Along(sb, t, stages, ops, k, false) && LS.Enabled(LayoutOf(sb), t, e) && e.LogWrite?
    requires MayDo(sb, t, e, stages, ops, k, false)
    ensures LS.Inv(LayoutOf(sb), LS.Next(LayoutOf(sb), t, e)) && Along(sb, LS.Next(LayoutOf(sb), t, e), stages, ops, k, false)
  {
    LS.NextKeepsInv(LayoutOf(sb), t, e);
    Count(t.lh);
    Fewer(t.ops[0], ops[k]);
    assert Transaction(sb, stages[k], stages[k + 1], ops[k]);
  }

  lemma Fewer(a: set<int>, b: set<int>)
    requires a <= b
    ensures |a| <= |b|
  {
    assert b == a + (b - a);
  }

  /** When a chunk ends, the system calls see what it leaves. */
  lemma EndsOne(sb: Super, t: LS.Sys, e: LS.Event, stages: seq<Stage>, ops: seq<set<int>>, k: nat)
    requires Along(sb, t, stages, ops, k, false) && LS.Enabled(LayoutOf(sb), t, e) && e.End?
    requires MayDo(sb, t, e, stages, ops, k, false)
    ensures LS.Inv(LayoutOf(sb), LS.Next(LayoutOf(sb), t, e)) && Along(sb, LS.Next(LayoutOf(sb), t, e), stages, ops, k + 1, false)
  {
    var l := LayoutOf(sb);
    LS.NextKeepsInv(l, t, e);
    LS.EmptyHeadDurable(l, t.disk);
    LS.CallCopies(l, t, e);
    assert Transaction(sb, stages[k], stages[k + 1], ops[k]);
    forall a | 0 <= a < sb.size && !InLog(sb, a)
      ensures a in LS.Overlay(l, t.disk, t.cache) && LS.Overlay(l, t.disk, t.cache)[a] == BlockAt(sb, stages[k + 1], a)
    {
      if a !in ops[k] {
        Unlogged(sb, stages[k], stages[k + 1], ops[k], a);
        assert LS.HomeBlocks(l, t.disk)[a] == Image(sb, stages[k])[a];
      }
    }
    assert LS.Overlay(l, t.disk, t.cache) == Image(sb, stages[k + 1]);
  }

  /** Only the header write of a commit moves the durable copy, and then to the last stage. */
  lemma WritesOne(sb: Super, t: LS.Sys, stages: seq<Stage>, ops: seq<set<int>>, k: nat, crashed: bool)
    requires Along(sb, t, stages, ops, k, crashed) && LS.Enabled(LayoutOf(sb), t, LS.DiskWrite)
    ensures LS.Inv(LayoutOf(sb), LS.Next(LayoutOf(sb), t, LS.DiskWrite))
    ensures Along(sb, LS.Next(LayoutOf(sb), t, LS.DiskWrite), stages, ops, k, crashed)
  {
    var l := LayoutOf(sb);
    LS.OnlyHeaderWrites(l, t, LS.DiskWrite);
    if t.phase.Committing? { LS.CommitWriteRefines(l, t); }
  }

  /** When a commit is done, the durable copy is the last stage. */
  lemma FinishesOne(sb: Super, t: LS.Sys, stages: seq<Stage>, ops: seq<set<int>>, k: nat, crashed: bool)
    requires Along(sb, t, stages, ops, k, crashed) && LS.Enabled(LayoutOf(sb), t, LS.Finish)
    ensures LS.Inv(LayoutOf(sb), LS.Next(LayoutOf(sb), t, LS.Finish))
    ensures Along(sb, LS.Next(LayoutOf(sb), t, LS.Finish), stages, ops, k, crashed)
  {
    var l := LayoutOf(sb);
    LS.OnlyHeaderWrites(l, t, LS.Finish);
    LS.FinishRefines(l, t);
    var t' := LS.Next(l, t, LS.Finish);
    LS.QuietIsDurable(l, t');
    LS.EmptyHeadDurable(l, t'.disk);
  }

  lemma CrashesOne(sb: Super, t: LS.Sys, stages: seq<Stage>, ops: seq<set<int>>, k: nat, crashed: bool)
    requires Along(sb, t, stages, ops, k, crashed)
    ensures LS.Inv(LayoutOf(sb), LS.Next(LayoutOf(sb), t, LS.Crash))
    ensures Along(sb, LS.Next(LayoutOf(sb), t, LS.Crash), stages, ops, k, true)
  {
    var l := LayoutOf(sb);
    LS.OnlyHeaderWrites(l, t, LS.Crash);
    if !crashed && t.phase.Running? { LS.EmptyHeadDurable(l, t.disk); }
  }

  lemma OneStep(sb: Super, t: LS.Sys, e: LS.Event, stages: seq<Stage>, ops: seq<set<int>>, k: nat, crashed: bool)
    requires Along(sb, t, stages, ops, k, crashed) && LS.Enabled(LayoutOf(sb), t, e) && MayDo(sb, t, e, stages, ops, k, crashed)
    ensures LS.Inv(LayoutOf(sb), LS.Next(LayoutOf(sb), t, e))
    ensures Along(sb, LS.Next(LayoutOf(sb), t, e), stages, ops, if e.End? then k + 1 else k, crashed || e.Crash?)
  {
    match e
    case Begin => LS.NextKeepsInv(LayoutOf(sb), t, e);
    case LogWrite(_, _, _) => LogsOne(sb, t, e, stages, ops, k);
    case End(_) => EndsOne(sb, t, e, stages, ops, k);
    case DiskWrite => WritesOne(sb, t, stages, ops, k, crashed);
    case Finish => FinishesOne(sb, t, stages, ops, k, crashed);
    case Crash => CrashesOne(sb, t, stages, ops, k, crashed);
  }

  lemma {:induction false} AlongRun(sb: Super, s: LS.Sys, es: seq<LS.Event>, stages: seq<Stage>, ops: seq<set<int>>)
    requires Follows(sb, s, es, stages, ops) && Steps(sb, stages, ops)
    ensures Along(sb, LS.Exec(LayoutOf(sb), s, es), stages, ops, Ended(es), Crashed(es))
    decreases |es|
  {
    hide *;
    if es == [] {
      StartsAlong(sb, s, stages, ops);
      assert es == [];
    } else {
      var n := |es| - 1;
      Shorter(sb, s, es, stages, ops);
      AlongRun(sb, s, es[..n], stages, ops);
      OneStep(sb, LS.Exec(LayoutOf(sb), s, es[..n]), es[n], stages, ops, Ended(es[..n]), Crashed(es[..n]));
    }
  }

  lemma StartsAlong(sb: Super, s: LS.Sys, stages: seq<Stage>, ops: seq<set<int>>)
    requires Follows(sb, s, [], stages, ops) && Steps(sb, stages, ops)
    ensures Along(sb, LS.Exec(LayoutOf(sb), s, []), stages, ops, Ended([]), Crashed([]))
  {
    LS.InitIsDurable(LayoutOf(sb), s);
  }

  /** A run and its last step. */
  lemma Shorter(sb: Super, s: LS.Sys, es: seq<LS.Event>, stages: seq<Stage>, ops: seq<set<int>>)
    requires Follows(sb, s, es, stages, ops) && es != []
    ensures Follows(sb, s, es[..|es| - 1], stages, ops)
    ensures var l, n := LayoutOf(sb), |es| - 1;
            && LS.Runs(l, s, es[..n]) && LS.Enabled(l, LS.Exec(l, s, es[..n]), es[n])
            && MayDo(sb, LS.Exec(l, s, es[..n]), es[n], stages, ops, Ended(es[..n]), Crashed(es[..n]))
            && LS.Exec(l, s, es) == LS.Next(l, LS.Exec(l, s, es[..n]), es[n])
            && Ended(es) == (if es[n].End? then Ended(es[..n]) + 1 else Ended(es[..n]))
            && (Crashed(es) <==> Crashed(es[..n]) || es[n].Crash?)
  {
    hide MayDo, LS.Next, LS.Inv, LS.Enabled, LS.Init, Image;
    var n := |es| - 1;
    assert Did(sb, s, es, stages, ops, n);
    forall i | 0 <= i < n ensures Did(sb, s, es[..n], stages, ops, i) {
      assert Did(sb, s, es, stages, ops, i) && es[..n][..i] == es[..i];
    }
  }

  // ---- nothing keeps a chunk from ending ----

  ghost predicate Reaches(sb: Super, s: LS.Sys, es: seq<LS.Event>, stages: seq<Stage>, ops: seq<set<int>>, t: LS.Sys, k: nat) {
    && Follows(sb, s, es, stages, ops) && Steps(sb, stages, ops) && LS.Exec(LayoutOf(sb), s, es) == t
    && Ended(es) == k && !Crashed(es)
  }

  /** A run can do whatever its last state and filewrite allow. */
  lemma Longer(sb: Super, s: LS.Sys, es: seq<LS.Event>, stages: seq<Stage>, ops: seq<set<int>>, t: LS.Sys, k: nat, e: LS.Event)
    requires Reaches(sb, s, es, stages, ops, t, k) && LS.Inv(LayoutOf(sb), t) && LS.Enabled(LayoutOf(sb), t, e) && !e.Crash?
    requires MayDo(sb, t, e, stages, ops, k, false)
    ensures Reaches(sb, s, es + [e], stages, ops, LS.Next(LayoutOf(sb), t, e), if e.End? then k + 1 else k)
  {
    hide MayDo, LS.Next, LS.Inv, LS.Enabled, LS.Init, Image, Steps;
    var fs, n := es + [e], |es|;
    assert fs[..n] == es;
    forall i | 0 <= i < n + 1 ensures LS.Runs(LayoutOf(sb), s, fs) && Did(sb, s, fs, stages, ops, i) {
      if i < n { assert Did(sb, s, es, stages, ops, i) && fs[..i] == es[..i]; }
    }
  }

  lemma AlongNow(sb: Super, s: LS.Sys, es: seq<LS.Event>, stages: seq<Stage>, ops: seq<set<int>>, t: LS.Sys, k: nat)
    requires Reaches(sb, s, es, stages, ops, t, k)
    ensures Along(sb, t, stages, ops, k, false)
  {
    AlongRun(sb, s, es, stages, ops);
  }

  /** The chunk has logged a part of its blocks, each as it leaves it. */
  ghost predicate Midway(sb: Super, t: LS.Sys, stages: seq<Stage>, ops: seq<set<int>>, k: nat, left: set<int>) {
    && k < |ops| && |stages| == |ops| + 1 && |t.ops| == 1 && t.phase.Running? && left <= ops[k] && t.ops[0] == ops[k] - left
    && forall b :: b in t.ops[0] && 0 <= b < |stages[k + 1].disk| ==> b in t.cache && t.cache[b] == BlockAt(sb, stages[k + 1], b)
  }

  lemma {:induction false} LogsRest(sb: Super, s: LS.Sys, es: seq<LS.Event>, stages: seq<Stage>, ops: seq<set<int>>, t: LS.Sys, k: nat,
                                    left: set<int>)
      returns (es': seq<LS.Event>, t': LS.Sys)
    requires Reaches(sb, s, es, stages, ops, t, k) && Midway(sb, t, stages, ops, k, left) && sb.logstart + sb.nlog <= sb.inodestart
    ensures es <= es' && Reaches(sb, s, es', stages, ops, t', k) && Midway(sb, t', stages, ops, k, {})
    decreases |left|
  {
    hide Reaches, Midway, Along, MayDo, LS.Next, LS.Enabled, LS.Inv;
    if b :| b in left {
      AlongNow(sb, s, es, stages, ops, t, k);
      var e := LogsNext(sb, t, stages, ops, k, left, b);
      Longer(sb, s, es, stages, ops, t, k, e);
      es', t' := LogsRest(sb, s, es + [e], stages, ops, LS.Next(LayoutOf(sb), t, e), k, left - {b});
    } else {
      Emptied(left);
      es', t' := es, t;
    }
  }

  lemma Emptied(a: set<int>)
    requires forall b :: b !in a
    ensures a == {}
  {
    assert forall x :: x in a ==> x in {};
  }

  lemma LogsNext(sb: Super, t: LS.Sys, stages: seq<Stage>, ops: seq<set<int>>, k: nat, left: set<int>, b: int) returns (e: LS.Event)
    requires Along(sb, t, stages, ops, k, false) && Midway(sb, t, stages, ops, k, left) && b in left && sb.logstart + sb.nlog <= sb.inodestart
    ensures e.LogWrite? && LS.Inv(LayoutOf(sb), t) && LS.Enabled(LayoutOf(sb), t, e) && MayDo(sb, t, e, stages, ops, k, false)
    ensures Midway(sb, LS.Next(LayoutOf(sb), t, e), stages, ops, k, left - {b})
  {
    hide Along, LS.Inv, BlockAt;
    LogsHome(sb, t, stages, ops, k, left, b);
    e := LS.LogWrite(0, b, BlockAt(sb, stages[k + 1], b));
    assert ops[k] - (left - {b}) == t.ops[0] + {b};
  }

  lemma LogsHome(sb: Super, t: LS.Sys, stages: seq<Stage>, ops: seq<set<int>>, k: nat, left: set<int>, b: int)
    requires Along(sb, t, stages, ops, k, false) && Midway(sb, t, stages, ops, k, left) && b in left && sb.logstart + sb.nlog <= sb.inodestart
    ensures LS.Inv(LayoutOf(sb), t) && !t.panicked && DL.IsHome(LayoutOf(sb), t.disk, b) && 0 <= b < |stages[k + 1].disk|
    ensures !LS.LogWritePanics(LayoutOf(sb), t)
  {
    assert Transaction(sb, stages[k], stages[k + 1], ops[k]);
    Count(t.lh);
    Fewer(t.ops[0], ops[k]);
    hide BlockAt, SameBlockAt, Image;
  }

  lemma {:induction false} CommitsRest(sb: Super, s: LS.Sys, es: seq<LS.Event>, stages: seq<Stage>, ops: seq<set<int>>, t: LS.Sys, k: nat)
      returns (es': seq<LS.Event>, t': LS.Sys)
    requires Reaches(sb, s, es, stages, ops, t, k) && LS.Inv(LayoutOf(sb), t) && t.phase.Committing?
    ensures es <= es' && Reaches(sb, s, es', stages, ops, t', k) && t'.phase.Running? && t'.ops == []
    decreases |LS.Plan(LayoutOf(sb), t)| - t.phase.done
  {
    var l := LayoutOf(sb);
    if t.phase.done == |LS.Plan(l, t)| {
      Longer(sb, s, es, stages, ops, t, k, LS.Finish);
      es', t' := es + [LS.Finish], LS.Next(l, t, LS.Finish);
    } else {
      LS.NextKeepsInv(l, t, LS.DiskWrite);
      Longer(sb, s, es, stages, ops, t, k, LS.DiskWrite);
      hide Reaches;
      es', t' := CommitsRest(sb, s, es + [LS.DiskWrite], stages, ops, LS.Next(l, t, LS.DiskWrite), k);
    }
  }

  /** From every moment between two chunks, the next can be written, ended and committed. */
  lemma NextChunkCanEnd(sb: Super, s: LS.Sys, es: seq<LS.Event>, stages: seq<Stage>, ops: seq<set<int>>, t: LS.Sys, k: nat)
      returns (es': seq<LS.Event>, t': LS.Sys)
    requires Reaches(sb, s, es, stages, ops, t, k) && t.phase.Running? && t.ops == [] && k < |ops| && sb.logstart + sb.nlog <= sb.inodestart
    ensures es <= es' && Reaches(sb, s, es', stages, ops, t', k + 1) && t'.phase.Running? && t'.ops == []
  {
    var l := LayoutOf(sb);
    AlongNow(sb, s, es, stages, ops, t, k);
    Longer(sb, s, es, stages, ops, t, k, LS.Begin);
    var es1, t1 := es + [LS.Begin], LS.Next(l, t, LS.Begin);
    assert Midway(sb, t1, stages, ops, k, ops[k]);
    var es2, t2 := LogsRest(sb, s, es1, stages, ops, t1, k, ops[k]);
    EndsChunk(sb, s, es2, stages, ops, t2, k);
    var t3 := LS.Next(l, t2, LS.End(0));
    es', t' := CommitsRest(sb, s, es2 + [LS.End(0)], stages, ops, t3, k + 1);
  }

  lemma EndsChunk(sb: Super, s: LS.Sys, es: seq<LS.Event>, stages: seq<Stage>, ops: seq<set<int>>, t: LS.Sys, k: nat)
    requires Reaches(sb, s, es, stages, ops, t, k) && Midway(sb, t, stages, ops, k, {})
    ensures LS.Inv(LayoutOf(sb), t) && LS.Enabled(LayoutOf(sb), t, LS.End(0))
    ensures var t' := LS.Next(LayoutOf(sb), t, LS.End(0));
            LS.Inv(LayoutOf(sb), t') && t'.phase.Committing? && Reaches(sb, s, es + [LS.End(0)], stages, ops, t', k + 1)
  {
    AlongNow(sb, s, es, stages, ops, t, k);
    assert ops[k] - {} == ops[k];
    LS.NextKeepsInv(LayoutOf(sb), t, LS.End(0));
    Longer(sb, s, es, stages, ops, t, k, LS.End(0));
  }

  // ---- a crash while a file is written ----

  /** After any run of filewrite's chunks, commits and crashes among them, what recovery brings back is
      the file system after all the chunks that have ended, or all but the last of them; and it is all of
      them when the last end_op has returned. */
  lemma DurableChunks(sb: Super, s: LS.Sys, es: seq<LS.Event>, stages: seq<Stage>, ops: seq<set<int>>) returns (j: nat)
    requires Follows(sb, s, es, stages, ops) && Steps(sb, stages, ops)
    ensures Ended(es) - 1 <= j <= Ended(es) <= |ops| && !LS.Exec(LayoutOf(sb), s, es).panicked
    ensures LS.Durable(LayoutOf(sb), LS.Exec(LayoutOf(sb), s, es)) == Image(sb, stages[j])
    ensures LS.Exec(LayoutOf(sb), s, es).phase.Running? && !Crashed(es) ==> j == Ended(es)
  {
    var l := LayoutOf(sb);
    AlongRun(sb, s, es, stages, ops);
    hide *;
    j := DurableNow(sb, LS.Exec(l, s, es), stages, ops, Ended(es), Crashed(es));
  }

  lemma DurableNow(sb: Super, t: LS.Sys, stages: seq<Stage>, ops: seq<set<int>>, k: nat, crashed: bool) returns (j: nat)
    requires Along(sb, t, stages, ops, k, crashed)
    ensures LS.Inv(LayoutOf(sb), t) && k - 1 <= j <= k <= |ops| && |stages| == |ops| + 1 && !t.panicked
    ensures LS.Durable(LayoutOf(sb), t) == Image(sb, stages[j])
    ensures t.phase.Running? && !crashed ==> j == k
  {
    var l := LayoutOf(sb);
    if t.phase.Running? { LS.EmptyHeadDurable(l, t.disk); }
    j := if LS.Durable(l, t) == Image(sb, stages[k]) then k else k - 1;
  }

  /** Whatever file system has the blocks that recovery brings back, it has every file as it was, but
      for the one that is written: that has taken a whole number of chunks. */
  lemma CrashDuringFilewrite(sb: Super, s: LS.Sys, es: seq<LS.Event>, stages: seq<Stage>, ops: seq<set<int>>,
                             ip: int, off: int, src: seq<int>, done: int, st: Stage)
    requires Chunks(sb, stages, ops, ip, off, src, done) && sb.nlog == DL.LOGSIZE && Follows(sb, s, es, stages, ops)
    requires StageOk(sb, st) && Image(sb, st) == LS.Durable(LayoutOf(sb), LS.Exec(LayoutOf(sb), s, es))
    ensures exists j: nat :: Ended(es) - 1 <= j <= Ended(es) && AfterChunks(st.files, stages[0].files, ip, off, src, done, j)
  {
    forall k | 0 <= k < |stages| ensures |stages[k].disk| == sb.size { assert StageOk(sb, stages[k]); }
    var j := DurableChunks(sb, s, es, stages, ops);
    FilesOf(sb, st, stages[j]);
    assert AfterChunks(stages[j].files, stages[0].files, ip, off, src, done, j);
  }
}
