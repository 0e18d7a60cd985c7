/** Whole runs of the logging system of Lab3/xv6-riscv/kernel/log.c: any interleaving of
    begin_op, log_write and end_op by concurrent system calls, of the disk writes of commit
    and recovery, and of crashes. It is shown to refine a machine with two copies of the
    file system blocks, the current one and the durable one. */
module LogSystem {
  import opened DiskLog
  import opened Sequences
  import LD = LogDevice

  /** Committing and Recovering remember the disk they started from and how many of
      their writes have been done. */
  datatype Phase = Running | Committing(base: Disk, done: nat) | Recovering(base: Disk, done: nat)

  /** `ops` lists the outstanding operations, each by the set of blocks it has logged;
      log.outstanding is its length. `cache` holds the pinned buffers. */
  datatype Sys = Sys(disk: Disk, cache: map<int, Block>, lh: seq<int>, ops: seq<set<int>>,
                     phase: Phase, panicked: bool)

  datatype Event =
    | Begin
    | LogWrite(op: nat, b: int, data: Block)
    | End(op: nat)
    | DiskWrite
    | Finish
    | Crash

  ghost predicate Init(l: Layout, s: Sys) {
    && GoodDisk(l, s.disk) && HeadCount(s.disk[l.start]) == 0
    && s.cache == map[] && s.lh == [] && s.ops == [] && s.phase == Running && !s.panicked
  }

  ghost predicate Inv(l: Layout, s: Sys) {
    && GoodDisk(l, s.disk)
    && GoodTargets(l, s.disk, s.lh) && Distinct(s.lh)
    && s.cache.Keys == LD.Elements(s.lh)
    && (forall i :: 0 <= i < |s.ops| ==> s.ops[i] <= LD.Elements(s.lh))
    && (match s.phase
        case Running =>
          && HeadCount(s.disk[l.start]) == 0
          && (s.ops == [] ==> s.lh == [])
        case Committing(d, k) =>
          && s.ops == [] && |d| == |s.disk|
          && ReadyToCommit(l, d, s.lh, s.cache) && k <= |CommitWrites(l, d, s.lh, s.cache)|
          && s.disk == CrashedCommit(l, d, s.lh, s.cache, k)
        case Recovering(d, k) =>
          && s.ops == [] && s.lh == [] && |d| == |s.disk|
          && GoodDisk(l, d) && k <= |RecoverWrites(l, d)|
          && s.disk == CrashedRecovery(l, d, k))
  }

  /** The writes still to be done by a commit or a recovery. */
  ghost function Plan(l: Layout, s: Sys): seq<Write>
    requires Inv(l, s)
  {
    match s.phase
    case Running => []
    case Committing(d, _) => CommitWrites(l, d, s.lh, s.cache)
    case Recovering(d, _) => RecoverWrites(l, d)
  }

  ghost predicate Enabled(l: Layout, s: Sys, e: Event)
    requires Inv(l, s)
  {
    match e
    case Begin =>
      !s.panicked && s.phase.Running? && |s.lh| + (|s.ops| + 1) * MAXOPBLOCKS <= LOGSIZE
    case LogWrite(i, b, _) =>
      !s.panicked && s.phase.Running? && i < |s.ops| && IsHome(l, s.disk, b)
    case End(i) =>
      !s.panicked && i < |s.ops|
    case DiskWrite =>
      !s.phase.Running? && s.phase.done < |Plan(l, s)|
    case Finish =>
      !s.phase.Running? && s.phase.done == |Plan(l, s)|
    case Crash => true
  }

  /** The checks of log_write, in its order: full log first, absorption later. */
  predicate LogWritePanics(l: Layout, s: Sys) {
    |s.lh| >= LOGSIZE || |s.lh| >= l.size - 1 || |s.ops| < 1
  }

  ghost function Next(l: Layout, s: Sys, e: Event): Sys
    requires Inv(l, s) && Enabled(l, s, e)
  {
    match e
    case Begin => s.(ops := s.ops + [{}])
    case LogWrite(i, b, data) =>
      if LogWritePanics(l, s) then s.(panicked := true)
      else s.(cache := s.cache[b := data],
              lh := if b in s.lh then s.lh else s.lh + [b],
              ops := s.ops[i := s.ops[i] + {b}])
    case End(i) =>
      if s.phase.Committing? then s.(panicked := true)
      else
        var ops := s.ops[..i] + s.ops[i + 1..];
        if ops == [] then s.(ops := [], phase := Committing(s.disk, 0)) else s.(ops := ops)
    case DiskWrite =>
      var w := Plan(l, s)[s.phase.done];
      s.(disk := Apply(s.disk, [w]), phase := s.phase.(done := s.phase.done + 1))
    case Finish => s.(cache := map[], lh := [], phase := Running)
    case Crash => Sys(s.disk, map[], [], [], Recovering(s.disk, 0), false)
  }

  lemma LogWriteKeepsInv(l: Layout, s: Sys, e: Event)
    requires Inv(l, s) && Enabled(l, s, e) && e.LogWrite?
    ensures Inv(l, Next(l, s, e))
  {
    if !LogWritePanics(l, s) {
      LD.ElementsAppend(s.lh, e.b);
      assert e.b in s.lh ==> e.b in LD.Elements(s.lh);
    }
  }

  lemma EndKeepsInv(l: Layout, s: Sys, e: Event)
    requires Inv(l, s) && Enabled(l, s, e) && e.End?
    ensures Inv(l, Next(l, s, e))
  {
    var t := Next(l, s, e);
    if t.phase.Committing? && s.phase.Running? {
      assert forall i :: 0 <= i < |s.lh| ==> s.lh[i] in LD.Elements(s.lh);
      assert CommitWrites(l, s.disk, s.lh, s.cache)[..0] == [];
    }
  }

  lemma CommitWriteKeepsInv(l: Layout, s: Sys)
    requires Inv(l, s) && Enabled(l, s, DiskWrite) && s.phase.Committing?
    ensures Inv(l, Next(l, s, DiskWrite))
  {
    var ws, k := Plan(l, s), s.phase.done;
    CrashLonger(s.phase.base, ws, k);
    CommitAtomic(l, s.phase.base, s.lh, s.cache, k + 1);
  }

  lemma RecoverWriteKeepsInv(l: Layout, s: Sys)
    requires Inv(l, s) && Enabled(l, s, DiskWrite) && s.phase.Recovering?
    ensures Inv(l, Next(l, s, DiskWrite))
  {
    var ws, k := Plan(l, s), s.phase.done;
    CrashLonger(s.phase.base, ws, k);
    RecoveryIdempotent(l, s.phase.base, k + 1);
  }

  lemma CrashLonger(d: Disk, ws: seq<Write>, k: nat)
    requires k < |ws|
    ensures Apply(Apply(d, ws[..k]), [ws[k]]) == Apply(d, ws[..k + 1])
  {
    assert ws[..k + 1] == ws[..k] + [ws[k]];
    ApplyAppend(d, ws[..k], [ws[k]]);
  }

  lemma FinishKeepsInv(l: Layout, s: Sys)
    requires Inv(l, s) && Enabled(l, s, Finish)
    ensures Inv(l, Next(l, s, Finish))
  {
    var ws := Plan(l, s);
    assert ws[..|ws|] == ws;
    if s.phase.Committing? {
      CommitDone(l, s.phase.base, s.lh, s.cache);
    } else {
      RecoveredMeaning(l, s.phase.base);
    }
  }

  lemma NextKeepsInv(l: Layout, s: Sys, e: Event)
    requires Inv(l, s) && Enabled(l, s, e)
    ensures Inv(l, Next(l, s, e))
    ensures |Next(l, s, e).disk| == |s.disk|
  {
    match e
    case Begin =>
    case LogWrite(_, _, _) => LogWriteKeepsInv(l, s, e);
    case End(_) => EndKeepsInv(l, s, e);
    case DiskWrite => if s.phase.Committing? { CommitWriteKeepsInv(l, s); } else { RecoverWriteKeepsInv(l, s); }
    case Finish => FinishKeepsInv(l, s);
    case Crash => assert RecoverWrites(l, s.disk)[..0] == [];
  }

  /** The machine excludes nothing that can happen: a crash may come at any moment, a commit or a
      recovery can always go on, and so can the operations until one panics. */
  lemma CanHappen(l: Layout, s: Sys, b: int, data: Block)
    requires Inv(l, s)
    ensures Enabled(l, s, Crash) && Next(l, s, Crash).disk == s.disk
    ensures !s.phase.Running? ==> Enabled(l, s, DiskWrite) || Enabled(l, s, Finish)
    ensures s.ops != [] && !s.panicked ==> Enabled(l, s, End(0)) && (IsHome(l, s.disk, b) ==> Enabled(l, s, LogWrite(0, b, data)))
    ensures s.ops == [] && s.phase.Running? && !s.panicked ==> Enabled(l, s, Begin)
  {
    hide ReadyToCommit, GoodDisk, CrashedCommit, CrashedRecovery;
  }

  // ---- the two copies ----

  ghost function HomeBlocks(l: Layout, d: Disk): map<int, Block> {
    map a | 0 <= a < |d| && IsHome(l, d, a) :: d[a]
  }

  /** The home blocks of d under the buffers v. */
  ghost function Overlay(l: Layout, d: Disk, v: map<int, Block>): map<int, Block> {
    map a | 0 <= a < |d| && IsHome(l, d, a) :: if a in v then v[a] else d[a]
  }

  /** What recovery would bring back from the disk as it is now. */
  ghost function Durable(l: Layout, s: Sys): map<int, Block>
    requires Inv(l, s)
  {
    HomeBlocks(l, Recovered(l, s.disk))
  }

  /** What running system calls see: pinned buffers over the disk. */
  ghost function Current(l: Layout, s: Sys): map<int, Block>
    requires Inv(l, s)
  {
    if s.phase.Recovering? then Durable(l, s) else Overlay(l, s.disk, s.cache)
  }

  lemma EmptyHeadDurable(l: Layout, d: Disk)
    requires GoodDisk(l, d) && HeadCount(d[l.start]) == 0
    ensures HomeBlocks(l, Recovered(l, d)) == HomeBlocks(l, d)
  {
    RecoverEmpty(l, d);
  }

  /** With nothing outstanding and nothing in progress, all that was written is durable. */
  lemma QuietIsDurable(l: Layout, s: Sys)
    requires Inv(l, s) && s.phase.Running? && s.ops == []
    ensures s.lh == [] && Current(l, s) == Durable(l, s)
  {
    EmptyHeadDurable(l, s.disk);
    assert s.cache.Keys == {};
  }

  lemma CommitSizes(l: Layout, d: Disk, lh: seq<int>, v: map<int, Block>, k: nat)
    requires ReadyToCommit(l, d, lh, v) && k <= |CommitWrites(l, d, lh, v)|
    requires GoodDisk(l, CrashedCommit(l, d, lh, v, k))
    ensures |CrashedCommit(l, d, lh, v, k)| == |d| == |Recovered(l, CrashedCommit(l, d, lh, v, k))|
  {
  }

  /** A commit started from disk d, after k of its writes: the current copy has not moved,
      the durable copy is d's up to the header write and the current one from then on. */
  lemma CommitCopies(l: Layout, d: Disk, lh: seq<int>, v: map<int, Block>, k: nat)
    requires ReadyToCommit(l, d, lh, v) && k <= |CommitWrites(l, d, lh, v)|
    requires v.Keys == LD.Elements(lh)
    ensures GoodDisk(l, CrashedCommit(l, d, lh, v, k))
    ensures Overlay(l, CrashedCommit(l, d, lh, v, k), v) == Overlay(l, d, v)
    ensures HomeBlocks(l, Recovered(l, CrashedCommit(l, d, lh, v, k)))
            == if k <= |lh| then HomeBlocks(l, d) else Overlay(l, d, v)
  {
    hide CrashedCommit, Recovered, LD.Elements, CommitWrites;
    var e := CrashedCommit(l, d, lh, v, k);
    CommitAtomic(l, d, lh, v, k);
    CommitSizes(l, d, lh, v, k);
    LoggedAreCached(lh, v);
    forall a | IsHome(l, d, a) && a !in v ensures e[a] == d[a] { CommitTouchesLogged(l, d, lh, v, k, a); }
  }

  lemma LoggedAreCached(lh: seq<int>, v: map<int, Block>)
    requires v.Keys == LD.Elements(lh)
    ensures forall a :: a in v <==> a in lh
  {
    forall a ensures a in v <==> a in lh { assert a in v.Keys <==> a in LD.Elements(lh); }
  }

  lemma CommitTouchesLogged(l: Layout, d: Disk, lh: seq<int>, v: map<int, Block>, k: nat, a: int)
    requires ReadyToCommit(l, d, lh, v) && k <= |CommitWrites(l, d, lh, v)|
    requires IsHome(l, d, a) && a !in lh
    ensures CrashedCommit(l, d, lh, v, k)[a] == d[a]
  {
    if k <= |lh| {
      BeforeCommitPoint(l, d, lh, v, k);
    } else if k <= 2 * |lh| + 1 {
      AfterCommitPoint(l, d, lh, v, k);
    } else {
      assert CommitWrites(l, d, lh, v)[..k] == CommitWrites(l, d, lh, v);
      CommitDone(l, d, lh, v);
    }
  }

  lemma RecoverCopies(l: Layout, d: Disk, k: nat)
    requires GoodDisk(l, d) && k <= |RecoverWrites(l, d)|
    ensures GoodDisk(l, CrashedRecovery(l, d, k))
    ensures HomeBlocks(l, Recovered(l, CrashedRecovery(l, d, k))) == HomeBlocks(l, Recovered(l, d))
  {
    RecoveryIdempotent(l, d, k);
    assert forall a :: IsHome(l, d, a) <==> IsHome(l, CrashedRecovery(l, d, k), a);
  }

  /** The abstract machine: `cur` is changed by log_write only, `dur` becomes `cur` at a
      commit with no operation outstanding, and a crash replaces `cur` by `dur`. */
  ghost predicate AbstractStep(e: Event, quiet: bool, cur: map<int, Block>, dur: map<int, Block>,
                               cur': map<int, Block>, dur': map<int, Block>)
  {
    match e
    case LogWrite(_, b, data) => dur' == dur && (cur' == cur || cur' == cur[b := data])
    case DiskWrite => cur' == cur && (dur' == dur || (quiet && dur' == cur))
    case Crash => dur' == dur && cur' == dur
    case _ => cur' == cur && dur' == dur
  }

  /** The step e of the system is a step of the abstract machine. */
  ghost predicate StepRefines(l: Layout, s: Sys, e: Event) {
    && Inv(l, s) && Enabled(l, s, e) && Inv(l, Next(l, s, e))
    && AbstractStep(e, s.ops == [], Current(l, s), Durable(l, s),
                    Current(l, Next(l, s, e)), Durable(l, Next(l, s, e)))
  }

  lemma CallRefines(l: Layout, s: Sys, e: Event)
    requires Inv(l, s) && Enabled(l, s, e) && (e.Begin? || e.End? || e.Crash?)
    ensures StepRefines(l, s, e)
  {
    NextKeepsInv(l, s, e);
    CallCopies(l, s, e);
  }

  lemma CallCopies(l: Layout, s: Sys, e: Event)
    requires Inv(l, s) && Enabled(l, s, e) && (e.Begin? || e.End? || e.Crash?)
    requires Inv(l, Next(l, s, e)) && (s.phase.Recovering? ==> s.ops == [])
    ensures Durable(l, Next(l, s, e)) == Durable(l, s)
    ensures Current(l, Next(l, s, e)) == if e.Crash? then Durable(l, s) else Current(l, s)
  {
    hide Inv, GoodDisk, GoodTargets, IsHome, Recovered;
  }

  lemma LogWriteRefines(l: Layout, s: Sys, e: Event)
    requires Inv(l, s) && Enabled(l, s, e) && e.LogWrite?
    ensures StepRefines(l, s, e)
    ensures !Next(l, s, e).panicked ==>
              Current(l, Next(l, s, e)) == Current(l, s)[e.b := e.data]
  {
    NextKeepsInv(l, s, e);
    LogWriteCopies(l, s, e);
  }

  lemma LogWriteCopies(l: Layout, s: Sys, e: Event)
    requires Inv(l, s) && Enabled(l, s, e) && e.LogWrite?
    requires Inv(l, Next(l, s, e))
    ensures Durable(l, Next(l, s, e)) == Durable(l, s)
    ensures Current(l, Next(l, s, e))
            == if LogWritePanics(l, s) then Current(l, s) else Current(l, s)[e.b := e.data]
  {
    hide Inv, GoodDisk, GoodTargets, Recovered, LogWritePanics;
    OverlayUpdate(l, s.disk, s.cache, e.b, e.data);
  }

  lemma OverlayUpdate(l: Layout, d: Disk, v: map<int, Block>, b: int, data: Block)
    requires IsHome(l, d, b)
    ensures Overlay(l, d, v[b := data]) == Overlay(l, d, v)[b := data]
  {
  }

  lemma CommitWriteRefines(l: Layout, s: Sys)
    requires Inv(l, s) && Enabled(l, s, DiskWrite) && s.phase.Committing?
    ensures StepRefines(l, s, DiskWrite)
    ensures s.phase.done == |s.lh| ==> Durable(l, Next(l, s, DiskWrite)) == Current(l, s)
    ensures s.phase.done != |s.lh| ==> Durable(l, Next(l, s, DiskWrite)) == Durable(l, s)
  {
    NextKeepsInv(l, s, DiskWrite);
    var k := s.phase.done;
    CommitCopies(l, s.phase.base, s.lh, s.cache, k);
    CommitCopies(l, s.phase.base, s.lh, s.cache, k + 1);
    CrashLonger(s.phase.base, Plan(l, s), k);
    var t := Next(l, s, DiskWrite);
    assert t.disk == CrashedCommit(l, s.phase.base, s.lh, s.cache, k + 1);
    assert Current(l, t) == Overlay(l, s.phase.base, s.cache) == Current(l, s);
  }

  lemma RecoverWriteRefines(l: Layout, s: Sys)
    requires Inv(l, s) && Enabled(l, s, DiskWrite) && s.phase.Recovering?
    ensures StepRefines(l, s, DiskWrite)
  {
    NextKeepsInv(l, s, DiskWrite);
    RecoverCopies(l, s.phase.base, s.phase.done);
    RecoverCopies(l, s.phase.base, s.phase.done + 1);
  }

  lemma FinishRefines(l: Layout, s: Sys)
    requires Inv(l, s) && Enabled(l, s, Finish)
    ensures StepRefines(l, s, Finish)
  {
    NextKeepsInv(l, s, Finish);
    QuietIsDurable(l, Next(l, s, Finish));
    if s.phase.Committing? {
      CommitCopies(l, s.phase.base, s.lh, s.cache, s.phase.done);
      if s.lh == [] { assert s.cache.Keys == {}; }
    }
  }

  /** Every step of the system is a step of the abstract machine. */
  lemma Refines(l: Layout, s: Sys, e: Event)
    requires Inv(l, s) && Enabled(l, s, e)
    ensures StepRefines(l, s, e)
  {
    match e
    case LogWrite(_, _, _) => LogWriteRefines(l, s, e);
    case DiskWrite => if s.phase.Committing? { CommitWriteRefines(l, s); } else { RecoverWriteRefines(l, s); }
    case Finish => FinishRefines(l, s);
    case _ => CallRefines(l, s, e);
  }

  // ---- runs ----

  ghost predicate Runs(l: Layout, s: Sys, es: seq<Event>)
    decreases |es|, 0
  {
    && Init(l, s)
    && (es != [] ==>
          var n := |es| - 1;
          Runs(l, s, es[..n]) && Enabled(l, Exec(l, s, es[..n]), es[n]))
  }

  ghost function Exec(l: Layout, s: Sys, es: seq<Event>): (t: Sys)
    requires Runs(l, s, es)
    ensures Inv(l, t)
    decreases |es|, 1
  {
    if es == [] then s
    else
      var n := |es| - 1;
      NextKeepsInv(l, Exec(l, s, es[..n]), es[n]);
      Next(l, Exec(l, s, es[..n]), es[n])
  }

  /** After any run: with no operation outstanding and no commit in progress the header in
      memory is empty, no block is logged twice, and just the logged blocks are pinned. */
  lemma LogOfRun(l: Layout, s: Sys, es: seq<Event>)
    requires Runs(l, s, es)
    ensures var t := Exec(l, s, es);
            && (t.phase.Running? && t.ops == [] ==> t.lh == [])
            && (forall i, j :: 0 <= i < j < |t.lh| ==> t.lh[i] != t.lh[j])
            && (forall b :: b in t.cache <==> b in t.lh)
  {
    var t := Exec(l, s, es);
    assert t.cache.Keys == LD.Elements(t.lh);
    forall b ensures b in t.cache <==> b in t.lh { assert b in t.cache.Keys <==> b in t.cache; }
  }

  /** Operations begun and not ended since the last crash. */
  ghost function Outstanding(es: seq<Event>): int {
    if es == [] then 0
    else
      match es[|es| - 1]
      case Begin => Outstanding(es[..|es| - 1]) + 1
      case End(_) => Outstanding(es[..|es| - 1]) - 1
      case Crash => 0
      case _ => Outstanding(es[..|es| - 1])
  }

  /** log.outstanding counts them, in every run. */
  lemma {:induction false} CountsOperations(l: Layout, s: Sys, es: seq<Event>)
    requires Runs(l, s, es)
    ensures !Exec(l, s, es).panicked ==> |Exec(l, s, es).ops| == Outstanding(es)
    decreases |es|
  {
    hide Inv, Init, Enabled;
    if es != [] {
      var n := |es| - 1;
      CountsOperations(l, s, es[..n]);
      OneOperation(l, Exec(l, s, es[..n]), es[n]);
    } else {
      Start(l, s);
    }
  }

  lemma Start(l: Layout, s: Sys)
    requires Init(l, s)
    ensures s.ops == []
  {
  }

  /** What a step does to the operations: each has logged just what its own log_writes were given, and
      the end of the last one starts a commit. */
  lemma OneOperation(l: Layout, s: Sys, e: Event)
    requires Inv(l, s) && Enabled(l, s, e)
    ensures var t := Next(l, s, e);
            && (s.panicked ==> t.panicked || e.Crash?)
            && match e
               case Begin => t.ops == s.ops + [{}]
               case LogWrite(i, b, _) =>
                 !t.panicked ==> |t.ops| == |s.ops| && forall j :: 0 <= j < |s.ops| ==> t.ops[j] == if j == i then s.ops[j] + {b} else s.ops[j]
               case End(i) =>
                 !t.panicked ==>
                   && |t.ops| == |s.ops| - 1 && (t.phase.Committing? <==> |s.ops| == 1)
                   && forall j :: 0 <= j < |s.ops| - 1 ==> t.ops[j] == s.ops[if j < i then j else j + 1]
               case Crash => t.ops == []
               case _ => t.ops == s.ops == []
  {
    hide GoodDisk, GoodTargets, ReadyToCommit, CrashedCommit, CrashedRecovery;
  }

  lemma {:induction false} PrefixRuns(l: Layout, s: Sys, es: seq<Event>, j: nat)
    requires Runs(l, s, es) && j <= |es|
    ensures Runs(l, s, es[..j])
    decreases |es|
  {
    if j == |es| {
      assert es[..j] == es;
    } else {
      PrefixRuns(l, s, es[..|es| - 1], j);
      assert es[..|es| - 1][..j] == es[..j];
    }
  }

  lemma InitIsDurable(l: Layout, s: Sys)
    requires Init(l, s)
    ensures Inv(l, s) && Current(l, s) == Durable(l, s) && s.ops == []
  {
    QuietIsDurable(l, s);
  }

  /** The next event is the disk write that puts the header of a commit in place. */
  ghost predicate AtHeaderWrite(s: Sys, e: Event) {
    e.DiskWrite? && s.phase.Committing? && s.phase.done == |s.lh|
  }

  ghost predicate CommitPoint(l: Layout, s: Sys, es: seq<Event>, i: nat) {
    i < |es| && Runs(l, s, es[..i]) && AtHeaderWrite(Exec(l, s, es[..i]), es[i])
  }

  lemma QuietPhases(l: Layout, s: Sys)
    requires Inv(l, s)
    ensures !s.phase.Running? ==> s.ops == []
  {
  }

  /** Nothing but such a write changes what recovery would bring back. */
  lemma OnlyHeaderWrites(l: Layout, s: Sys, e: Event)
    requires Inv(l, s) && Enabled(l, s, e)
    ensures Inv(l, Next(l, s, e))
    ensures Durable(l, Next(l, s, e)) == if AtHeaderWrite(s, e) then Current(l, s) else Durable(l, s)
    ensures AtHeaderWrite(s, e) ==> s.ops == []
  {
    QuietPhases(l, s);
    hide Inv, Enabled, Next, Durable, Current, StepRefines;
    NextKeepsInv(l, s, e);
    match e
    case LogWrite(_, _, _) => LogWriteCopies(l, s, e);
    case DiskWrite => if s.phase.Committing? { CommitWriteRefines(l, s); } else { RecoverWriteRefines(l, s); }
    case Finish => FinishRefines(l, s);
    case _ => CallCopies(l, s, e);
  }

  /** Crash consistency over whole runs. At every moment of every run, what recovery would bring
      back is the file system as it stood when the last commit so far wrote its header, or at the
      start; no system call was in progress then. So no operation is ever seen half done, and none
      is lost once the header of its commit is on disk. */
  lemma {:induction false} DurableIsLastCommit(l: Layout, s: Sys, es: seq<Event>) returns (j: nat)
    requires Runs(l, s, es)
    ensures j <= |es| && Runs(l, s, es[..j])
    ensures j == 0 || CommitPoint(l, s, es, j)
    ensures forall i :: j < i < |es| ==> !CommitPoint(l, s, es, i)
    ensures Exec(l, s, es[..j]).ops == []
    ensures Durable(l, Exec(l, s, es)) == Current(l, Exec(l, s, es[..j]))
    decreases |es|
  {
    hide Inv, Enabled, Next, Durable, Current, AtHeaderWrite, Init;
    if es == [] {
      j := 0;
      InitIsDurable(l, s);
      assert es[..0] == [];
    } else {
      var n := |es| - 1;
      var p := Exec(l, s, es[..n]);
      OnlyHeaderWrites(l, p, es[n]);
      if AtHeaderWrite(p, es[n]) {
        j := n;
      } else {
        j := DurableIsLastCommit(l, s, es[..n]);
        assert es[..n][..j] == es[..j];
        forall i | j < i < |es| ensures !CommitPoint(l, s, es, i) {
          if i < n { assert es[..n][..i] == es[..i] && !CommitPoint(l, s, es[..n], i); }
        }
      }
    }
  }

  // ---- reservation ----

  /** Every operation logs at most `bound` distinct blocks. */
  ghost predicate Bounded(l: Layout, s: Sys, es: seq<Event>, bound: nat)
    requires Runs(l, s, es)
    decreases |es|
  {
    es != [] ==>
      var n := |es| - 1;
      && Bounded(l, s, es[..n], bound)
      && (es[n].LogWrite? ==> |Exec(l, s, es[..n]).ops[es[n].op] + {es[n].b}| <= bound)
  }

  /** How many more blocks the outstanding operations may log, at most `k` each. */
  ghost function Slack(ops: seq<set<int>>, k: int): int {
    if ops == [] then 0 else Slack(ops[..|ops| - 1], k) + k - |ops[|ops| - 1]|
  }

  lemma {:induction false} SlackUpdate(ops: seq<set<int>>, k: int, i: nat, x: set<int>)
    requires i < |ops|
    ensures Slack(ops[i := x], k) == Slack(ops, k) + |ops[i]| - |x|
    decreases |ops|
  {
    var n := |ops| - 1;
    if i < n {
      SlackUpdate(ops[..n], k, i, x);
      assert ops[i := x][..n] == ops[..n][i := x];
    } else {
      assert ops[i := x][..n] == ops[..n];
    }
  }

  lemma {:induction false} SlackRemove(ops: seq<set<int>>, k: int, i: nat)
    requires i < |ops|
    ensures Slack(ops[..i] + ops[i + 1..], k) == Slack(ops, k) - k + |ops[i]|
    decreases |ops|
  {
    var n := |ops| - 1;
    if i < n {
      SlackRemove(ops[..n], k, i);
      assert (ops[..i] + ops[i + 1..])[..n - 1] == ops[..n][..i] + ops[..n][i + 1..];
    } else {
      assert ops[..i] + ops[i + 1..] == ops[..n];
    }
  }

  lemma {:induction false} SlackAtMost(ops: seq<set<int>>, k: nat)
    requires k <= 9
    ensures Slack(ops, k) <= 9 * |ops|
    decreases |ops|
  {
    if ops != [] { SlackAtMost(ops[..|ops| - 1], k); }
  }

  /** Space for all that outstanding operations may still log, with one block to spare. */
  ghost predicate Reserved(s: Sys, k: nat) {
    && (s.phase.Running? ==> |s.lh| + Slack(s.ops, k) <= LOGSIZE - 2)
    && forall i :: 0 <= i < |s.ops| ==> |s.ops[i]| <= k
  }

  lemma LogWriteReserved(l: Layout, s: Sys, e: Event, k: nat)
    requires Inv(l, s) && Enabled(l, s, e) && l.size == LOGSIZE
    requires Reserved(s, k) && e.LogWrite? && |s.ops[e.op] + {e.b}| <= k
    ensures !LogWritePanics(l, s) && Reserved(Next(l, s, e), k)
  {
    SlackNonNegative(s.ops, k);
    SlackUpdate(s.ops, k, e.op, s.ops[e.op] + {e.b});
    if e.b in s.ops[e.op] {
      assert s.ops[e.op] + {e.b} == s.ops[e.op];
      assert e.b in LD.Elements(s.lh);
    }
  }

  lemma {:induction false} SlackNonNegative(ops: seq<set<int>>, k: nat)
    requires forall i :: 0 <= i < |ops| ==> |ops[i]| <= k
    ensures Slack(ops, k) >= 0
    decreases |ops|
  {
    if ops != [] { SlackNonNegative(ops[..|ops| - 1], k); }
  }

  lemma BeginReserved(s: Sys, k: nat)
    requires Reserved(s, k) && k < MAXOPBLOCKS && s.phase.Running? && (s.ops == [] ==> s.lh == [])
    requires |s.lh| + (|s.ops| + 1) * MAXOPBLOCKS <= LOGSIZE
    ensures Reserved(s.(ops := s.ops + [{}]), k)
  {
    SlackAtMost(s.ops, k);
    assert (s.ops + [{}])[..|s.ops|] == s.ops;
  }

  lemma NextReserved(l: Layout, s: Sys, e: Event, k: nat)
    requires Inv(l, s) && Enabled(l, s, e) && l.size == LOGSIZE && k < MAXOPBLOCKS
    requires Reserved(s, k) && !s.panicked
    requires e.LogWrite? ==> |s.ops[e.op] + {e.b}| <= k
    ensures !Next(l, s, e).panicked && Reserved(Next(l, s, e), k)
  {
    match e
    case Begin => BeginReserved(s, k);
    case LogWrite(_, _, _) => LogWriteReserved(l, s, e, k);
    case End(i) => SlackRemove(s.ops, k, i);
    case _ =>
  }

  /** With the log mkfs makes, operations of at most MAXOPBLOCKS - 1 distinct blocks never
      reach a panic of log_write or end_op, whatever the interleaving. */
  lemma {:induction false} NoPanic(l: Layout, s: Sys, es: seq<Event>, k: nat)
    requires Runs(l, s, es) && Bounded(l, s, es, k) && l.size == LOGSIZE && k < MAXOPBLOCKS
    ensures !Exec(l, s, es).panicked && Reserved(Exec(l, s, es), k)
    decreases |es|
  {
    if es != [] {
      var n := |es| - 1;
      NoPanic(l, s, es[..n], k);
      NextReserved(l, Exec(l, s, es[..n]), es[n], k);
    }
  }

  // ---- the bound is tight: three operations of MAXOPBLOCKS blocks each fill the log ----

  const SMALL := Layout(0, LOGSIZE)
  ghost function Zeroes(): Block { Block(seq(WORDS, _ => 0)) }

  ghost function Blank(): Disk { seq(60, i => Zeroes()) }

  ghost function BootState(): Sys { Sys(Blank(), map[], [], [], Running, false) }

  /** Three begin_ops, then block 30 + j is logged by operation j / 10. */
  ghost function Script(m: nat): seq<Event> {
    if m == 0 then [Begin, Begin, Begin]
    else Script(m - 1) + [LogWrite((m - 1) / 10, 29 + m, Zeroes())]
  }

  ghost function Range(lo: int, hi: int): set<int>
    decreases hi - lo
  {
    if hi <= lo then {} else Range(lo, hi - 1) + {hi - 1}
  }

  lemma {:induction false} RangeSize(lo: int, hi: int, x: int)
    ensures |Range(lo, hi)| == if hi <= lo then 0 else hi - lo
    ensures x in Range(lo, hi) <==> lo <= x < hi
    decreases hi - lo
  {
    if lo < hi {
      RangeSize(lo, hi - 1, x);
      RangeSize(lo, hi - 1, hi - 1);
    }
  }

  /** What operation i has logged when m blocks have been logged in all. */
  ghost function Logged(m: nat, i: nat): set<int> {
    Range(30 + 10 * i, if m <= 10 * i then 30 + 10 * i else if m < 10 * i + 10 then 30 + m else 40 + 10 * i)
  }

  ghost function Buffers(m: nat): map<int, Block> {
    if m == 0 then map[] else Buffers(m - 1)[29 + m := Zeroes()]
  }

  ghost function Filled(m: nat): Sys
    requires m <= 29
  {
    Sys(Blank(), Buffers(m), seq(m, i => 30 + i), [Logged(m, 0), Logged(m, 1), Logged(m, 2)], Running, false)
  }

  lemma BootRuns()
    ensures Init(SMALL, BootState())
    ensures Runs(SMALL, BootState(), Script(0)) && Exec(SMALL, BootState(), Script(0)) == Filled(0)
    ensures Bounded(SMALL, BootState(), Script(0), MAXOPBLOCKS)
  {
    var b1, b2, b3 := [Begin], [Begin, Begin], [Begin, Begin, Begin];
    assert b1[..0] == [] && b2[..1] == b1 && b3[..2] == b2;
    assert Runs(SMALL, BootState(), []);
    assert Runs(SMALL, BootState(), b1) && Exec(SMALL, BootState(), b1).ops == [{}];
    assert Runs(SMALL, BootState(), b2) && Exec(SMALL, BootState(), b2).ops == [{}, {}];
    assert Runs(SMALL, BootState(), b3) && Exec(SMALL, BootState(), b3).ops == [{}, {}, {}];
    assert Bounded(SMALL, BootState(), b1, MAXOPBLOCKS);
    assert Bounded(SMALL, BootState(), b2, MAXOPBLOCKS);
  }

  lemma LoggedSize(m: nat, i: nat)
    ensures |Logged(m, i)| <= 10
  {
    RangeSize(30 + 10 * i, if m <= 10 * i then 30 + 10 * i else if m < 10 * i + 10 then 30 + m else 40 + 10 * i, 0);
  }

  lemma FilledStep(m: nat)
    requires m < 29 && Inv(SMALL, Filled(m))
    ensures var e := LogWrite(m / 10, 30 + m, Zeroes());
            Enabled(SMALL, Filled(m), e) && Next(SMALL, Filled(m), e) == Filled(m + 1)
  {
    var s, t := Filled(m), Filled(m + 1);
    assert 30 + m !in s.lh;
    assert t.lh == s.lh + [30 + m];
    assert Logged(m + 1, m / 10) == Logged(m, m / 10) + {30 + m};
    assert t.ops == s.ops[m / 10 := s.ops[m / 10] + {30 + m}];
  }

  lemma OneMore(l: Layout, s: Sys, es: seq<Event>, e: Event, k: nat)
    requires Runs(l, s, es) && Enabled(l, Exec(l, s, es), e)
    requires Bounded(l, s, es, k)
    requires e.LogWrite? ==> |Exec(l, s, es).ops[e.op] + {e.b}| <= k
    ensures Runs(l, s, es + [e]) && Exec(l, s, es + [e]) == Next(l, Exec(l, s, es), e)
    ensures Bounded(l, s, es + [e], k)
  {
    hide Inv, Next, Init;
    assert (es + [e])[..|es|] == es;
  }

  lemma {:induction false} ScriptRuns(m: nat)
    requires m <= 29
    ensures Runs(SMALL, BootState(), Script(m)) && Exec(SMALL, BootState(), Script(m)) == Filled(m)
    ensures Bounded(SMALL, BootState(), Script(m), MAXOPBLOCKS)
  {
    hide Inv, Next, Init, Bounded;
    if m == 0 {
      BootRuns();
    } else {
      ScriptRuns(m - 1);
      FilledStep(m - 1);
      WriteStaysSmall(m - 1);
      OneMore(SMALL, BootState(), Script(m - 1), LogWrite((m - 1) / 10, 29 + m, Zeroes()), MAXOPBLOCKS);
    }
  }

  lemma WriteStaysSmall(m: nat)
    requires m <= 29
    ensures |Filled(m).ops[m / 10] + {30 + m}| <= MAXOPBLOCKS
  {
    assert Logged(m, m / 10) + {30 + m} == Logged(m + 1, m / 10);
    LoggedSize(m + 1, m / 10);
  }

  /** The thirtieth block, the tenth of its operation, panics. */
  lemma TenBlocksPanic()
    ensures Runs(SMALL, BootState(), Script(30)) && Bounded(SMALL, BootState(), Script(30), MAXOPBLOCKS)
    ensures Exec(SMALL, BootState(), Script(30)).panicked
  {
    hide Inv, Init, Bounded;
    ScriptRuns(29);
    WriteStaysSmall(29);
    OneMore(SMALL, BootState(), Script(29), LogWrite(2, 59, Zeroes()), MAXOPBLOCKS);
  }

  lemma {:induction false} BoundedMore(l: Layout, s: Sys, es: seq<Event>, j: nat, k: nat)
    requires Runs(l, s, es) && Bounded(l, s, es, j) && j <= k
    ensures Bounded(l, s, es, k)
    decreases |es|
  {
    if es != [] { BoundedMore(l, s, es[..|es| - 1], j, k); }
  }

  ghost predicate PanicFree(k: nat) {
    forall l: Layout, s: Sys, es: seq<Event> ::
      l.size == LOGSIZE && Runs(l, s, es) && Bounded(l, s, es, k) ==> !Exec(l, s, es).panicked
  }

  /** The per-operation bounds under which the log never overflows are exactly those below
      MAXOPBLOCKS, although begin_op reserves MAXOPBLOCKS. */
  lemma ReservationIsTight(k: nat)
    ensures PanicFree(k) <==> k < MAXOPBLOCKS
  {
    if k < MAXOPBLOCKS {
      forall l: Layout, s: Sys, es: seq<Event> | l.size == LOGSIZE && Runs(l, s, es) && Bounded(l, s, es, k)
        ensures !Exec(l, s, es).panicked
      {
        NoPanic(l, s, es, k);
      }
    } else {
      TenBlocksPanic();
      BoundedMore(SMALL, BootState(), Script(30), MAXOPBLOCKS, k);
    }
  }
}
