/** Parents and children in WaitMachine: what fork, exit and wait of Lab3/xv6-riscv/kernel/proc.c do to
    them, and when wait returns and when it sleeps. */
module WaitKin {
  import opened Wrappers
  import opened WaitMachine

  ghost predicate HasKid(s: Sys, i: nat, n: nat) {
    exists c: nat :: c < n && c < |s.procs| && s.procs[c].parent == Some(i)
  }

  /** From the decision to sleep until wait looks for children again. */
  predicate Asleep(pc: Pc) { pc.Drowse? || pc.LetGo? || pc.NodOff? || pc.Switch? || pc.Off? || pc.Awake? }

  /** init alone has no parent, but for entries that are not in use, or not yet. */
  predicate Rooted(p: Proc, i: nat, init: nat) {
    if p.pc.Unborn? then p.maker == None ==> p.parent == None else p.parent == None <==> i == init
  }

  /** What process i knows about the parents of others. */
  ghost predicate Knows(s: Sys, i: nat)
    requires i < |s.procs|
  {
    var p, n := s.procs[i], |s.procs|;
    match p.pc
    case Search(j, kids) => kids <==> HasKid(s, i, j)
    case Inspect(j) => j < n && s.procs[j].parent == Some(i)
    case Decide(kids) => kids <==> HasKid(s, i, n)
    case WantFork(np) => np < n && s.procs[np].parent == None
    case SetParent(np) => np < n && s.procs[np].parent == None
    case LeaveFork(np) => np < n && s.procs[np].parent == Some(i)
    case Launch(np) => np < n && s.procs[np].parent == Some(i)
    case _ => Asleep(p.pc) ==> HasKid(s, i, n)
  }

  ghost predicate Kin(s: Sys, i: nat)
    requires i < |s.procs|
  {
    Rooted(s.procs[i], i, s.init) && Knows(s, i)
  }

  ghost predicate AllKin(s: Sys) { forall i: nat :: i < |s.procs| ==> Kin(s, i) }

  /** How the parent of entry c changes in a step of i: fork sets it, reparent hands it to init, wait
      clears it with the entry. */
  lemma ParentAfter(s: Sys, i: nat, ch: Choice, c: nat)
    requires Inv(s) && AllKin(s) && i < |s.procs| && Enabled(s, i, ch) && c < |s.procs|
    ensures var q, q' := s.procs[c].parent, Step(s, i, ch).procs[c].parent;
            || q' == q
            || (q == None && q' == Some(i) && HoldsWait(s.procs[i].pc) && s.procs[i].pc == SetParent(c))
            || (q == Some(i) && q' == Some(s.init) && s.procs[i].pc == Adopt(c))
            || (q == Some(i) && q' == None && s.procs[i].pc == Inspect(c) && s.procs[c].state == ZOMBIE && c != i)
  {
    assert Kin(s, i);
    Targets(s, i, c);
    hide AllSeen, AllNoticed, WaitLock, ProcLocks, Makers, Locals, Step, Fits, HasKid;
  }

  /** Parents stay while the process that moves does not hold wait_lock. */
  lemma ParentsStay(s: Sys, i: nat, ch: Choice, c: nat)
    requires Inv(s) && AllKin(s) && i < |s.procs| && Enabled(s, i, ch) && c < |s.procs| && !HoldsWait(s.procs[i].pc)
    ensures Step(s, i, ch).procs[c].parent == s.procs[c].parent
  {
    ParentAfter(s, i, ch, c);
    hide Inv, AllKin, Step, Enabled;
  }

  lemma SameKids(s: Sys, s': Sys, i: nat, n: nat)
    requires |s'.procs| == |s.procs|
    requires forall c: nat :: c < n && c < |s.procs| ==> (s'.procs[c].parent == Some(i) <==> s.procs[c].parent == Some(i))
    ensures HasKid(s', i, n) <==> HasKid(s, i, n)
  {
  }

  /** Nobody loses a child by a step of another process. */
  lemma KidsRemain(s: Sys, i: nat, ch: Choice, m: nat, n: nat)
    requires Inv(s) && AllKin(s) && i < |s.procs| && Enabled(s, i, ch) && m != i && HasKid(s, m, n)
    ensures HasKid(Step(s, i, ch), m, n)
  {
    var c: nat :| c < n && c < |s.procs| && s.procs[c].parent == Some(m);
    ParentAfter(s, i, ch, c);
    hide Inv, AllKin, Step, Enabled;
  }

  lemma KidsKnown(s: Sys, i: nat, ch: Choice, m: nat, n: nat)
    requires Inv(s) && AllKin(s) && i < |s.procs| && Enabled(s, i, ch) && !HoldsWait(s.procs[i].pc)
    ensures HasKid(Step(s, i, ch), m, n) <==> HasKid(s, m, n)
  {
    forall c: nat | c < n && c < |s.procs| ensures Step(s, i, ch).procs[c].parent == s.procs[c].parent { ParentsStay(s, i, ch, c); }
    hide Inv, AllKin, Step, Enabled;
    SameKids(s, Step(s, i, ch), m, n);
  }

  /** The process that moves. */
  lemma KinMover(s: Sys, i: nat, ch: Choice)
    requires Inv(s) && Adopted(s) && AllKin(s) && i < |s.procs| && Enabled(s, i, ch)
    ensures Kin(Step(s, i, ch), i)
  {
    var s', pc := Step(s, i, ch), s.procs[i].pc;
    assert Kin(s, i) && InRange(s, i);
    ParentAfter(s, i, ch, i);
    assert s'.procs[i] == Mover(s, i, ch);
    if pc.Search? || pc.Inspect? || pc.Decide? || Asleep(pc) {
      forall c: nat | c < |s.procs| && !(pc.Inspect? && c == pc.j) ensures s'.procs[c].parent == s.procs[c].parent { ParentAfter(s, i, ch, c); }
      KinInWait(s, s', i, ch);
    } else {
      KinElsewhere(s, i, ch);
    }
  }

  lemma KinInWait(s: Sys, s': Sys, i: nat, ch: Choice)
    requires InRange(s, i) && Enabled(s, i, ch) && |s'.procs| == |s.procs| && s'.init == s.init && Kin(s, i)
    requires s'.procs[i] == Mover(s, i, ch)
    requires var pc := s.procs[i].pc; pc.Search? || pc.Inspect? || pc.Decide? || Asleep(pc)
    requires forall c: nat :: c < |s.procs| ==>
               s'.procs[c].parent == s.procs[c].parent || (s.procs[i].pc == Inspect(c) && s.procs[c].state == ZOMBIE && c != i)
    ensures Kin(s', i)
  {
    var pc := s.procs[i].pc;
    if !(pc.Inspect? && s.procs[pc.j].state == ZOMBIE) {
      var n := if pc.Search? || pc.Inspect? then pc.j else |s.procs|;
      SameKids(s, s', i, n);
      if pc.Search? || pc.Inspect? { OneKidMore(s', i, pc.j); }
    }
    hide HasKid, Fits;
  }

  lemma OneKidMore(s: Sys, i: nat, j: nat)
    ensures HasKid(s, i, j + 1) <==> HasKid(s, i, j) || (j < |s.procs| && s.procs[j].parent == Some(i))
  {
    if HasKid(s, i, j + 1) && !HasKid(s, i, j) {
      var c: nat :| c < j + 1 && c < |s.procs| && s.procs[c].parent == Some(i);
      assert c == j;
    }
  }

  lemma KinElsewhere(s: Sys, i: nat, ch: Choice)
    requires Inv(s) && Adopted(s) && AllKin(s) && i < |s.procs| && Enabled(s, i, ch)
    requires var pc := s.procs[i].pc; !pc.Search? && !pc.Inspect? && !pc.Decide? && !Asleep(pc)
    ensures Kin(Step(s, i, ch), i)
  {
    hide AllSeen, AllNoticed, WaitLock, ProcLocks, Makers, Locals, Step, Fits, Adopted, HasKid, Other;
    At(s, i);
    var s', pc := Step(s, i, ch), s.procs[i].pc;
    assert Kin(s, i);
    ParentAfter(s, i, ch, i);
    if pc.Ready? && ch.act.Fork? {
      assert Kin(s, ch.act.np);
      At(s, ch.act.np);
      ParentAfter(s, i, ch, ch.act.np);
    } else if pc.WantFork? || pc.SetParent? || pc.LeaveFork? {
      Targets(s, i, pc.np);
      ParentAfter(s, i, ch, pc.np);
      if pc.SetParent? { Fathered(s, i, ch, pc.np); }
    } else if pc.WantWait? {
      assert !HasKid(s', i, 0) by { NoKidYet(s', i); }
    }
    assert s'.procs[i] == Mover(s, i, ch);
  }

  lemma NoKidYet(s: Sys, i: nat)
    ensures !HasKid(s, i, 0)
  {
  }

  lemma Fathered(s: Sys, i: nat, ch: Choice, np: nat)
    requires InRange(s, i) && Enabled(s, i, ch) && s.procs[i].pc == SetParent(np) && np != i && np < |s.procs|
    ensures Step(s, i, ch).procs[np].parent == Some(i)
  {
  }

  /** The others. */
  lemma RootedOther(s: Sys, i: nat, ch: Choice, m: nat)
    requires Inv(s) && Adopted(s) && AllKin(s) && i < |s.procs| && Enabled(s, i, ch) && m < |s.procs| && m != i
    ensures Rooted(Step(s, i, ch).procs[m], m, s.init)
  {
    hide AllSeen, AllNoticed, WaitLock, ProcLocks, Makers, Locals, Step, HasKid, Mover;
    assert Kin(s, m) && Kin(s, i);
    At(s, m);
    At(s, i);
    Targets(s, i, m);
    RootedAfter(s, i, ch, m);
  }

  lemma RootedAfter(s: Sys, i: nat, ch: Choice, m: nat)
    requires InRange(s, i) && Enabled(s, i, ch) && m < |s.procs| && m != i && Local(s, i) && Local(s, m) && Target(s, i, m)
    requires Kin(s, i) && Kin(s, m) && s.init < |s.procs| && !Exiting(s.procs[s.init].pc)
    ensures Rooted(Step(s, i, ch).procs[m], m, s.init)
  {
    hide HasKid, Step;
  }

  lemma PcOther(s: Sys, i: nat, ch: Choice, m: nat)
    requires Inv(s) && i < |s.procs| && Enabled(s, i, ch) && m < |s.procs| && m != i
    ensures var pc := Step(s, i, ch).procs[m].pc; pc == s.procs[m].pc || pc.Unborn? || pc.Ready?
  {
    At(s, i);
    hide AllSeen, AllNoticed, WaitLock, ProcLocks, Makers, Locals, Step, Mover;
  }

  lemma OneMaker(s: Sys, i: nat, m: nat, np: nat)
    requires Makers(s) && i < |s.procs| && m < |s.procs| && np < |s.procs| && i != m && Forks(s.procs[m].pc, np)
    ensures !Forks(s.procs[i].pc, np)
  {
    assert Forks(s.procs[m].pc, np) <==> s.procs[np].maker == Some(m);
    assert Forks(s.procs[i].pc, np) <==> s.procs[np].maker == Some(i);
  }

  lemma KnowsOther(s: Sys, i: nat, ch: Choice, m: nat)
    requires Inv(s) && AllKin(s) && i < |s.procs| && Enabled(s, i, ch) && m < |s.procs| && m != i
    requires Step(s, i, ch).procs[m].pc == s.procs[m].pc
    ensures Knows(Step(s, i, ch), m)
  {
    hide AllSeen, AllNoticed, WaitLock, ProcLocks, Makers, Locals, Step, HasKid, Mover, Other, Fits, Proper, Enabled;
    var pc := s.procs[m].pc;
    assert Kin(s, m);
    At(s, m);
    if pc.Search? || pc.Inspect? || pc.Decide? {
      OneHolder(s, i, m);
      KidsKnown(s, i, ch, m, if pc.Search? then pc.j else |s.procs|);
      if pc.Inspect? { ParentsStay(s, i, ch, pc.j); }
    } else if Asleep(pc) {
      KidsRemain(s, i, ch, m, |s.procs|);
    } else if pc.WantFork? || pc.SetParent? || pc.LeaveFork? || pc.Launch? {
      ParentAfter(s, i, ch, pc.np);
      OneMaker(s, i, m, pc.np);
    }
  }

  lemma KinOther(s: Sys, i: nat, ch: Choice, m: nat)
    requires Inv(s) && Adopted(s) && AllKin(s) && i < |s.procs| && Enabled(s, i, ch) && m < |s.procs| && m != i
    ensures Kin(Step(s, i, ch), m)
  {
    RootedOther(s, i, ch, m);
    PcOther(s, i, ch, m);
    if Step(s, i, ch).procs[m].pc == s.procs[m].pc { KnowsOther(s, i, ch, m); }
    hide Inv, Adopted, AllKin, Step, Rooted, HasKid, Enabled;
  }

  lemma StepKin(s: Sys, i: nat, ch: Choice)
    requires Inv(s) && Adopted(s) && AllKin(s) && i < |s.procs| && Enabled(s, i, ch)
    ensures AllKin(Step(s, i, ch))
  {
    forall m: nat | m < |s.procs| ensures Kin(Step(s, i, ch), m) {
      if m == i { KinMover(s, i, ch); } else { KinOther(s, i, ch, m); }
    }
    hide Inv, Kin, Step, Enabled, Adopted;
  }

  lemma KillKin(s: Sys, j: nat)
    requires Inv(s) && AllKin(s) && CanKill(s, j)
    ensures AllKin(Kill(s, j))
  {
    KillOff(s, j);
    forall m: nat | m < |s.procs| ensures Kin(Kill(s, j), m) {
      assert Kin(s, m);
      forall i: nat, n: nat ensures HasKid(Kill(s, j), i, n) <==> HasKid(s, i, n) { SameKids(s, Kill(s, j), i, n); }
    }
    hide Inv;
  }

  /** Every step keeps what is known about parents. */
  lemma NextKin(s: Sys, s': Sys)
    requires Inv(s) && Adopted(s) && AllKin(s) && Next(s, s')
    ensures AllKin(s')
  {
    hide Inv, Adopted, AllKin, Step, Kill;
    if i, ch :| InRange(s, i) && Enabled(s, i, ch) && s' == Step(s, i, ch) {
      StepKin(s, i, ch);
    } else {
      var j :| CanKill(s, j) && s' == Kill(s, j);
      KillKin(s, j);
    }
  }

  lemma StartKin(s: Sys)
    requires Start(s)
    ensures AllKin(s)
  {
    forall m: nat | m < |s.procs| ensures Kin(s, m) {
      assert s.procs[m] == if m == s.init then Proc(Ready, RUNNING, None, None, None, None) else Freed();
    }
  }

  lemma {:induction false} RunKin(run: seq<Sys>, n: nat)
    requires Reaches(run) && n < |run|
    ensures Inv(run[n]) && Adopted(run[n]) && AllKin(run[n])
  {
    RunKeeps(run, n);
    if n == 0 {
      StartKin(run[0]);
    } else {
      RunKin(run, n - 1);
      NextKin(run[n - 1], run[n]);
    }
    hide Inv, Adopted, AllKin, Next, Start;
  }

  // ---- what a caller of wait can rely on ----

  /** In the course of wait. */
  predicate Waiting(pc: Pc) {
    pc.WantWait? || pc.Search? || pc.Inspect? || pc.Decide? || pc.LeaveWait? || Asleep(pc)
  }

  predicate NoKids(s: Sys, i: nat) { forall c :: 0 <= c < |s.procs| ==> s.procs[c].parent != Some(i) }

  /** wait has nothing more to do, and what has happened: a child that had exited has been freed, and
      nothing else; or its status could not be delivered, and it is still there; or there is no child, or
      the caller has been killed. */
  ghost predicate WaitEnds(s: Sys, s': Sys, i: nat, flag: bool)
    requires i < |s.procs| == |s'.procs|
  {
    || (exists c: nat :: c < |s.procs| && c != i && s.procs[c].parent == Some(i) && s.procs[c].state == ZOMBIE
                         && s'.procs == s.procs[i := s'.procs[i]][c := Freed()] && !flag)
    || (exists c: nat :: c < |s.procs| && c != i && s.procs[c].parent == Some(i) && s.procs[c].state == ZOMBIE
                         && s'.procs == s.procs[i := s'.procs[i]][c := s.procs[c].(lock := None)] && flag)
    || (s'.procs == s.procs[i := s'.procs[i]] && (flag || NoKids(s, i)))
  }

  /** wait ends only so; until then its caller stays in it; afterwards it is back in user code. */
  lemma WaitReturns(run: seq<Sys>, i: nat, ch: Choice)
    requires Reaches(run) && InRange(run[|run| - 1], i) && Enabled(run[|run| - 1], i, ch) && Waiting(run[|run| - 1].procs[i].pc)
    ensures var s := run[|run| - 1]; var s' := Step(s, i, ch);
            if s.procs[i].pc.LeaveWait? then s'.procs[i].pc == Ready && s'.procs[i].state == RUNNING
            else Waiting(s'.procs[i].pc) && (s'.procs[i].pc.LeaveWait? ==> WaitEnds(s, s', i, ch.flag))
  {
    var s := run[|run| - 1];
    RunKin(run, |run| - 1);
    EndsSo(s, i, ch);
  }

  lemma EndsSo(s: Sys, i: nat, ch: Choice)
    requires Inv(s) && AllKin(s) && i < |s.procs| && Enabled(s, i, ch) && Waiting(s.procs[i].pc)
    ensures InRange(s, i)
    ensures var s' := Step(s, i, ch);
            if s.procs[i].pc.LeaveWait? then s'.procs[i].pc == Ready && s'.procs[i].state == RUNNING
            else Waiting(s'.procs[i].pc) && (s'.procs[i].pc.LeaveWait? ==> WaitEnds(s, s', i, ch.flag))
  {
    At(s, i);
    var s', pc := Step(s, i, ch), s.procs[i].pc;
    assert Kin(s, i);
    if pc.Inspect? && s.procs[pc.j].state == ZOMBIE {
      if ch.flag {
        assert s'.procs == s.procs[i := s'.procs[i]][pc.j := s.procs[pc.j].(lock := None)];
      } else {
        assert s'.procs == s.procs[i := s'.procs[i]][pc.j := Freed()];
      }
    } else if pc.Decide? {
      assert s'.procs == s.procs[i := s'.procs[i]];
    }
    hide AllSeen, AllNoticed, WaitLock, ProcLocks, Makers;
  }

  /** wait goes to sleep exactly when it has seen that there is a child, none has exited, and its caller
      has not been killed. */
  lemma SleepsExactly(run: seq<Sys>, i: nat, ch: Choice)
    requires Reaches(run) && InRange(run[|run| - 1], i) && run[|run| - 1].procs[i].pc.Decide?
    ensures var s := run[|run| - 1];
            && Enabled(s, i, ch) && (Step(s, i, ch).procs[i].pc == Drowse <==> !ch.flag && !NoKids(s, i))
            && forall c :: 0 <= c < |s.procs| && s.procs[c].parent == Some(i) ==> s.procs[c].state != ZOMBIE
  {
    var s := run[|run| - 1];
    RunKin(run, |run| - 1);
    assert Kin(s, i) && Seen(s, i);
    hide AllSeen, AllNoticed, WaitLock, ProcLocks, Makers, Locals;
  }

  /** Whoever sleeps in wait has a child, all the time. */
  lemma SleepsForAKid(run: seq<Sys>, i: nat)
    requires Reaches(run) && i < |run[|run| - 1].procs| && Asleep(run[|run| - 1].procs[i].pc)
    ensures !NoKids(run[|run| - 1], i)
  {
    RunKin(run, |run| - 1);
    assert Kin(run[|run| - 1], i);
    hide Inv;
  }

  /** Every process but init has a parent that has not exited. */
  lemma NobodyIsAlone(run: seq<Sys>, c: nat)
    requires Reaches(run)
    ensures var s := run[|run| - 1];
            c < |s.procs| && c != s.init && s.procs[c].state !in {UNUSED, USED} ==>
              && s.procs[c].parent.Some? && s.procs[c].parent.value < |s.procs|
              && s.procs[s.procs[c].parent.value].state !in {UNUSED, USED, ZOMBIE}
  {
    var s := run[|run| - 1];
    RunKin(run, |run| - 1);
    if c < |s.procs| && c != s.init && s.procs[c].state !in {UNUSED, USED} {
      At(s, c);
      assert Kin(s, c);
      NoOrphans(run, s.procs[c].parent.value, c);
    }
    hide AllSeen, AllNoticed, WaitLock, ProcLocks, Makers, Adopted;
  }

  /** fork launches a child of its caller; reparent hands a child of the caller to init; wait clears the
      parent of the child that it frees. No step changes any other parent. */
  lemma ParentsChange(run: seq<Sys>, i: nat, ch: Choice, c: nat)
    requires Reaches(run) && InRange(run[|run| - 1], i) && Enabled(run[|run| - 1], i, ch) && c < |run[|run| - 1].procs|
    ensures var s := run[|run| - 1]; var s' := Step(s, i, ch); var q, q' := s.procs[c].parent, s'.procs[c].parent;
            && (q' == q || (q == None && q' == Some(i) && s.procs[c].state == USED) || (q == Some(i) && q' == Some(s.init))
                || (q == Some(i) && q' == None && s.procs[c].state == ZOMBIE && s'.procs[c].state == UNUSED))
            && (s.procs[c].state == USED && s'.procs[c].state == RUNNING ==> q' == Some(i) && s'.procs[c].pc == Ready)
  {
    var s := run[|run| - 1];
    RunKin(run, |run| - 1);
    ParentAfter(s, i, ch, c);
    Targets(s, i, c);
    assert Kin(s, i);
    hide AllSeen, AllNoticed, WaitLock, ProcLocks, Makers, Locals, Step, HasKid, Adopted;
  }

  /** Who sleeps in wait is woken, kill apart, by nobody but an exiting process: its own child, or one
      whose children it gets as init. */
  lemma WokenBy(run: seq<Sys>, i: nat, ch: Choice, m: nat)
    requires Reaches(run) && InRange(run[|run| - 1], i) && Enabled(run[|run| - 1], i, ch) && m < |run[|run| - 1].procs|
    ensures var s := run[|run| - 1];
            m != i && s.procs[m].state == SLEEPING && Step(s, i, ch).procs[m].state != SLEEPING ==>
              && Step(s, i, ch).procs[m].state == RUNNABLE && Exiting(s.procs[i].pc)
              && (m == s.init || s.procs[i].parent == Some(m))
  {
    RunKin(run, |run| - 1);
    if m != i { WokenAt(run[|run| - 1], i, ch, m); }
    hide Inv, Adopted, AllKin, Step, Local;
  }

  lemma WokenAt(s: Sys, i: nat, ch: Choice, m: nat)
    requires Inv(s) && i < |s.procs| && Enabled(s, i, ch) && m < |s.procs| && m != i
    ensures s.procs[m].state == SLEEPING && Step(s, i, ch).procs[m].state != SLEEPING ==>
              && Step(s, i, ch).procs[m].state == RUNNABLE && Exiting(s.procs[i].pc)
              && (m == s.init || s.procs[i].parent == Some(m))
  {
    hide AllSeen, AllNoticed, WaitLock, ProcLocks, Makers, Mover, Fits;
    Targets(s, i, m);
  }

  /** Steps that a system call can still make before it returns, goes back to sleep or, in exit,
      leaves the CPU for good. */
  function Rank(pc: Pc, n: nat): int {
    match pc
    case Unborn => 0
    case Ready => 0
    case Dead => 0
    case SwitchOut => 1
    case LeaveExit => 2
    case Die => 3
    case LockSelf => 4
    case Rouse(_, m, None) => 5 + 2 * (n - m)
    case Look(_, m, None) => 4 + 2 * (n - m)
    case Adopt(j) => 2 * n + 6 + Scans(n, n - j)
    case Rouse(_, m, Some(j)) => 2 * n + 7 + Scans(n, n - j - 1) + 2 * (n - m)
    case Look(_, m, Some(j)) => 2 * n + 6 + Scans(n, n - j - 1) + 2 * (n - m)
    case WantExit => 2 * n + 7 + Scans(n, n)
    case LeaveWait => 1
    case Awake => 2
    case Off => 3
    case Switch => 4
    case NodOff => 5
    case LetGo => 6
    case Drowse => 7
    case Decide(_) => 8
    case Inspect(j) => 8 + 2 * (n - j)
    case Search(j, _) => 9 + 2 * (n - j)
    case WantWait => 10 + 2 * n
    case Launch(_) => 1
    case LeaveFork(_) => 2
    case SetParent(_) => 3
    case WantFork(_) => 4
  }

  /** k scans of the table by wakeup. */
  function Scans(n: nat, k: int): nat
    decreases k
  {
    if k <= 0 then 0 else 2 * n + 3 + Scans(n, k - 1)
  }

  /** Which system call a process is in. */
  predicate SameCall(pc: Pc, pc': Pc) {
    && (Exiting(pc) ==> Exiting(pc'))
    && (Waiting(pc) ==> Waiting(pc') || (pc.LeaveWait? && pc'.Ready?))
    && (pc.WantFork? || pc.SetParent? || pc.LeaveFork? || pc.Launch? ==> Forks(pc', pc.np) || (pc.Launch? && pc'.Ready?))
  }

  /** Every step of a process starts a system call or brings the one it is in nearer to its end; only
      one that has been woken starts wait over. */
  lemma EveryStepCounts(s: Sys, i: nat, ch: Choice)
    requires Inv(s) && i < |s.procs| && InRange(s, i) && Enabled(s, i, ch)
    ensures var pc, pc', n := s.procs[i].pc, Step(s, i, ch).procs[i].pc, |s.procs|;
            if pc.Ready? then pc' == (match ch.act case Exit => WantExit case Wait => WantWait case Fork(np) => WantFork(np))
            else SameCall(pc, pc') && if pc.Awake? then pc' == WantWait else 0 <= Rank(pc', n) < Rank(pc, n)
  {
    hide AllSeen, AllNoticed, WaitLock, ProcLocks, Makers, Other, Step, Mover, Rank, Local, Scans, Fits;
    assert Step(s, i, ch).procs[i] == Mover(s, i, ch);
    At(s, i);
    var pc := s.procs[i].pc;
    if pc.Adopt? || pc.Rouse? || pc.Look? {
      ExitCounts(s, i, ch);
    } else if pc.Search? || pc.Inspect? {
      ScanCounts(s, i, ch);
    } else {
      OtherCounts(s, i, ch);
    }
  }

  lemma ExitCounts(s: Sys, i: nat, ch: Choice)
    requires InRange(s, i) && Enabled(s, i, ch)
    requires var pc := s.procs[i].pc; pc.Adopt? || pc.Rouse? || pc.Look?
    ensures var pc, pc', n := s.procs[i].pc, Mover(s, i, ch).pc, |s.procs|; SameCall(pc, pc') && 0 <= Rank(pc', n) < Rank(pc, n)
  {
  }

  lemma ScanCounts(s: Sys, i: nat, ch: Choice)
    requires InRange(s, i) && Enabled(s, i, ch)
    requires var pc := s.procs[i].pc; pc.Search? || pc.Inspect?
    ensures var pc, pc', n := s.procs[i].pc, Mover(s, i, ch).pc, |s.procs|; SameCall(pc, pc') && 0 <= Rank(pc', n) < Rank(pc, n)
  {
    hide Scans;
  }

  lemma OtherCounts(s: Sys, i: nat, ch: Choice)
    requires InRange(s, i) && Enabled(s, i, ch)
    requires var pc := s.procs[i].pc; !pc.Adopt? && !pc.Rouse? && !pc.Look? && !pc.Search? && !pc.Inspect?
    ensures var pc, pc', n := s.procs[i].pc, Mover(s, i, ch).pc, |s.procs|;
            if pc.Ready? then pc' == (match ch.act case Exit => WantExit case Wait => WantWait case Fork(np) => WantFork(np))
            else SameCall(pc, pc') && if pc.Awake? then pc' == WantWait else 0 <= Rank(pc', n) < Rank(pc, n)
  {
    hide Scans;
  }

  // ---- no deadlock ----

  /** Locks are held by processes. */
  ghost predicate Owners(s: Sys) {
    && (s.holder.Some? ==> s.holder.value < |s.procs|)
    && forall j :: 0 <= j < |s.procs| && s.procs[j].lock.Some? ==> s.procs[j].lock.value < |s.procs|
  }

  lemma NextOwners(s: Sys, s': Sys)
    requires Inv(s) && Owners(s) && Next(s, s')
    ensures Owners(s')
  {
    if i, ch :| InRange(s, i) && Enabled(s, i, ch) && s' == Step(s, i, ch) {
      forall j | 0 <= j < |s'.procs| && s'.procs[j].lock.Some? ensures s'.procs[j].lock.value < |s'.procs| { LockAfter(s, i, ch, j); }
    }
    hide Inv, InRange, Enabled, Step;
  }

  lemma LockAfter(s: Sys, i: nat, ch: Choice, j: nat)
    requires InRange(s, i) && Enabled(s, i, ch) && j < |s.procs|
    ensures Step(s, i, ch).procs[j].lock in {None, Some(i), s.procs[j].lock}
  {
  }

  lemma {:induction false} RunOwners(run: seq<Sys>, n: nat)
    requires Reaches(run) && n < |run|
    ensures Owners(run[n])
  {
    if n == 0 {
      forall m | 0 <= m < |run[0].procs| ensures run[0].procs[m].lock == None {
        assert run[0].procs[m] == if m == run[0].init then Proc(Ready, RUNNING, None, None, None, None) else Freed();
      }
    } else {
      RunOwners(run, n - 1);
      RunKin(run, n - 1);
      NextOwners(run[n - 1], run[n]);
    }
    hide Inv, Adopted, AllKin, Next;
  }

  /** Whoever holds a process's lock can move. */
  lemma LockMoves(s: Sys, j: nat, ch: Choice)
    requires Inv(s) && Owners(s) && j < |s.procs| && s.procs[j].lock.Some?
    ensures InRange(s, s.procs[j].lock.value) && Enabled(s, s.procs[j].lock.value, ch)
  {
    var h := s.procs[j].lock.value;
    assert HoldsProc(s.procs[h].pc, h, j) <==> s.procs[j].lock == Some(h);
    At(s, h);
    hide AllSeen, AllNoticed, WaitLock, Makers, Locals;
  }

  /** Whoever holds wait_lock can move, or waits for a process's lock. */
  lemma HolderMoves(s: Sys, ch: Choice) returns (m: nat)
    requires Inv(s) && Owners(s) && Adopted(s) && AllKin(s) && s.holder.Some?
    ensures InRange(s, m) && Enabled(s, m, ch)
  {
    var h := s.holder.value;
    assert HoldsWait(s.procs[h].pc);
    At(s, h);
    assert Kin(s, h);
    m := h;
    var pc := s.procs[h].pc;
    var j := if pc.Rouse? then pc.m else if pc.Search? then pc.j else h;
    if !Enabled(s, h, ch) {
      if pc.Adopt? { InitStays(s, h); }
      assert j < |s.procs| && s.procs[j].lock.Some?;
      LockMoves(s, j, ch);
      m := s.procs[j].lock.value;
    }
    hide AllSeen, AllNoticed, Makers, ProcLocks, Locals, HasKid;
  }

  lemma InitStays(s: Sys, i: nat)
    requires Adopted(s) && i < |s.procs| && s.procs[i].pc.Adopt?
    ensures i != s.init
  {
  }

  /** No deadlock: when a process is neither dead nor asleep, some process can move. */
  lemma SomebodyMoves(run: seq<Sys>, i: nat, ch: Choice) returns (m: nat, ch': Choice)
    requires Reaches(run) && i < |run[|run| - 1].procs|
    requires var p := run[|run| - 1].procs[i]; !p.pc.Unborn? && !p.pc.Dead? && !(p.pc.Off? && p.state == SLEEPING)
    ensures InRange(run[|run| - 1], m) && Enabled(run[|run| - 1], m, ch')
  {
    var s := run[|run| - 1];
    RunKin(run, |run| - 1);
    RunOwners(run, |run| - 1);
    At(s, i);
    m, ch' := i, ch.(act := Wait);
    if !Enabled(s, i, ch') {
      if s.holder.Some? {
        m := HolderMoves(s, ch');
      } else {
        var pc := s.procs[i].pc;
        assert !HoldsWait(pc);
        var j := if pc.Launch? then pc.np else i;
        LockMoves(s, j, ch');
        m := s.procs[j].lock.value;
      }
    }
    hide AllSeen, AllNoticed, Makers, ProcLocks, Locals, HasKid, AllKin;
  }

  /** What a process in user code may do. */
  lemma CallsFree(s: Sys, i: nat, ch: Choice)
    requires InRange(s, i) && s.procs[i].pc.Ready?
    ensures Enabled(s, i, ch.(act := Wait)) && (i != s.init ==> Enabled(s, i, ch.(act := Exit)))
    ensures forall np: nat :: np < |s.procs| && np != i && s.procs[np].state == UNUSED && s.procs[np].lock == None ==>
              Enabled(s, i, ch.(act := Fork(np)))
  {
  }

  /** A sleeper that is killed can move at once, and wait will see that it has been killed. */
  lemma KilledRuns(s: Sys, j: nat, ch: Choice)
    requires Inv(s) && CanKill(s, j)
    ensures InRange(Kill(s, j), j) && Enabled(Kill(s, j), j, ch) && Kill(s, j).procs[j].state == RUNNABLE
    ensures forall m :: 0 <= m < |s.procs| && m != j ==> Kill(s, j).procs[m] == s.procs[m]
  {
    KillOff(s, j);
    At(s, j);
    hide AllSeen, AllNoticed, Makers, ProcLocks, WaitLock;
  }
}
