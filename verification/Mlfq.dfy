/** The students' multi-level feedback queue: scheduler and yield of
    Lab3/xv6-riscv/kernel/proc.c on one hart, and the report's claim that nobody starves.

    A tick is one round of the scheduler's inner loop. What the chosen process does until
    it comes back, and whom it or an interrupt wakes, is up to the environment. */
module Mlfq {

  const BOOST := 300                 // prio_boost
  const NPRIO := 3

  datatype State = UNUSED | USED | SLEEPING | RUNNABLE | RUNNING | ZOMBIE

  datatype Proc = Proc(state: State, prio: int, times: nat)

  /** How a process leaves the CPU. */
  datatype Outcome = Yield | Sleep | Exit

  /** What happens between two looks of the scheduler: how the process it chose leaves the
      CPU, if it chose one, and which processes are woken meanwhile. */
  datatype Event = Event(how: Outcome, woken: set<nat>)

  /** p is the cursor of the inner loop and last the variable maxproc. */
  datatype Sched = Sched(proc: seq<Proc>, cant: nat, p: nat, last: nat)

  // ---- the choice ----

  /** The comparison of the inner loop: the smaller pair (prio, times_exec) goes first. */
  predicate Before(a: Proc, b: Proc) {
    a.prio < b.prio || (a.prio == b.prio && a.times < b.times)
  }

  predicate Least(proc: seq<Proc>, m: nat, n: nat) {
    && m < |proc| && n <= |proc| && proc[m].state == RUNNABLE
    && forall q :: 0 <= q < n && proc[q].state == RUNNABLE ==> !Before(proc[q], proc[m])
  }

  /** maxproc after the inner loop has looked at the first n entries, starting from p. */
  function Choose(proc: seq<Proc>, p: nat, n: nat): (m: nat)
    requires p < |proc| && n <= |proc| && proc[p].state == RUNNABLE
    ensures Least(proc, m, n) && !Before(proc[p], proc[m])
  {
    if n == 0 then p
    else
      var m := Choose(proc, p, n - 1);
      if proc[n - 1].state == RUNNABLE && Before(proc[n - 1], proc[m]) then n - 1 else m
  }

  // ---- one tick ----

  function Woken(p: Proc): Proc {
    if p.state == SLEEPING then p.(state := RUNNABLE) else p
  }

  /** wakeup, by anyone: sleepers become runnable and nothing else changes. */
  function Wake(proc: seq<Proc>, woken: set<nat>): (proc': seq<Proc>)
    ensures |proc'| == |proc|
    ensures forall i :: 0 <= i < |proc| ==> proc'[i] == if i in woken then Woken(proc[i]) else proc[i]
  {
    seq(|proc|, i requires 0 <= i < |proc| => if i in woken then Woken(proc[i]) else proc[i])
  }

  /** yield demotes, down to the last level. */
  function Demoted(prio: int): int {
    if 0 <= prio < NPRIO - 1 then prio + 1 else NPRIO - 1
  }

  function Left(p: Proc, how: Outcome): Proc {
    match how
    case Yield => p.(state := RUNNABLE, prio := Demoted(p.prio))
    case Sleep => p.(state := SLEEPING)
    case Exit => p.(state := ZOMBIE)
  }

  /** The chosen process runs, others are woken, it leaves the CPU and is counted. */
  function Ran(proc: seq<Proc>, m: nat, e: Event): (proc': seq<Proc>)
    requires m < |proc|
    ensures |proc'| == |proc|
  {
    var w := Wake(proc, e.woken - {m});
    var left := Left(w[m], e.how);
    w[m := left.(times := left.times + 1)]
  }

  function Boosted(proc: seq<Proc>): (proc': seq<Proc>)
    ensures |proc'| == |proc| && forall i :: 0 <= i < |proc| ==> proc'[i] == proc[i].(prio := 0)
  {
    seq(|proc|, i requires 0 <= i < |proc| => proc[i].(prio := 0))
  }

  /** The end of a round: the boost, which leaves the loop, or the next entry. */
  function Checked(s: Sched): Sched
    requires s.last < |s.proc|
  {
    if s.proc[s.last].times >= s.cant
    then s.(cant := s.cant + BOOST, proc := Boosted(s.proc), p := |s.proc| + 1)
    else s.(p := s.p + 1)
  }

  predicate Dispatches(s: Sched) {
    s.p < |s.proc| && s.proc[s.p].state == RUNNABLE
  }

  function Pick(s: Sched): (m: nat)
    requires Dispatches(s)
    ensures Least(s.proc, m, |s.proc|)
  {
    Choose(s.proc, s.p, |s.proc|)
  }

  function Tick(s: Sched, e: Event): (s': Sched)
    requires s.last < |s.proc|
    ensures |s'.proc| == |s.proc| && s'.last < |s'.proc|
  {
    if s.p >= |s.proc| then s.(p := 0, proc := Wake(s.proc, e.woken))
    else if s.proc[s.p].state == RUNNABLE then
      var m := Pick(s);
      Checked(s.(proc := Ran(s.proc, m, e), p := m, last := m))
    else Checked(s.(proc := Wake(s.proc, e.woken)))
  }

  // ---- the code ----

  class Scheduler {
    const proc: array<Proc>
    var cantProc: nat
    var p: nat
    var maxproc: nat

    ghost predicate Valid()
      reads this
    {
      maxproc < proc.Length
    }

    ghost function S(): (s: Sched)
      reads this, proc
      ensures |s.proc| == proc.Length && s.last == maxproc
    {
      Sched(proc[..], cantProc, p, maxproc)
    }

    constructor (procs: array<Proc>)
      requires procs.Length > 0
      ensures Valid() && proc == procs && S() == Start(procs[..])
    {
      proc := procs;
      cantProc := 300;
      p := 0;
      maxproc := 0;
    }

    /** The scan for the process that goes next. */
    method ChooseNext()
      requires Valid() && Dispatches(S())
      modifies `maxproc
      ensures Valid() && maxproc == Pick(S())
    {
      maxproc := p;
      var p1 := 0;
      while p1 < proc.Length
        invariant p1 <= proc.Length && maxproc < proc.Length
        invariant maxproc == Choose(proc[..], p, p1)
      {
        if proc[p1].state == RUNNABLE {
          if proc[maxproc].prio > proc[p1].prio {
            maxproc := p1;
          } else if proc[maxproc].prio == proc[p1].prio && proc[maxproc].times > proc[p1].times {
            maxproc := p1;
          }
        }
        p1 := p1 + 1;
      }
    }

    method WakeUp(woken: set<nat>)
      modifies proc
      ensures proc[..] == Wake(old(proc[..]), woken)
    {
      for i := 0 to proc.Length
        invariant forall j :: 0 <= j < i ==> proc[j] == Wake(old(proc[..]), woken)[j]
        invariant forall j :: i <= j < proc.Length ==> proc[j] == old(proc[j])
      {
        if i in woken && proc[i].state == SLEEPING {
          proc[i] := proc[i].(state := RUNNABLE);
        }
      }
    }

    /** The body of yield, before it calls sched. */
    method YieldCpu(m: nat)
      requires m < proc.Length
      modifies proc
      ensures proc[..] == old(proc[..])[m := Left(old(proc[m]), Yield)]
      ensures proc[m].state == RUNNABLE && proc[m].times == old(proc[m].times)
      ensures old(proc[m].prio) in {0, 1} ==> proc[m].prio == old(proc[m].prio) + 1
      ensures old(proc[m].prio) !in {0, 1} ==> proc[m].prio == 2
    {
      var prio := if proc[m].prio >= 0 && proc[m].prio < 3 - 1 then proc[m].prio + 1 else 3 - 1;
      proc[m] := proc[m].(state := RUNNABLE, prio := prio);
    }

    /** From swtch to the chosen process until it has come back. */
    method Run(e: Event)
      requires Valid()
      modifies proc
      ensures proc[..] == Ran(old(proc[..]), maxproc, e)
    {
      var m := maxproc;
      ghost var before := proc[..];
      var was := proc[m].state;
      proc[m] := proc[m].(state := RUNNING);
      WakeUp(e.woken - {m});
      ghost var w := Wake(before, e.woken - {m});
      assert proc[..] == w[m := w[m].(state := RUNNING)];
      match e.how {
        case Yield => YieldCpu(m);
        case Sleep => proc[m] := proc[m].(state := SLEEPING);
        case Exit => proc[m] := proc[m].(state := ZOMBIE);
      }
      proc[m] := proc[m].(times := proc[m].times + 1);
    }

    method BoostCheck()
      requires Valid()
      modifies this, proc
      ensures Valid() && S() == Checked(old(S()))
    {
      if proc[maxproc].times >= cantProc {
        cantProc := cantProc + 300;
        p := 0;
        while p < proc.Length
          invariant p <= proc.Length && maxproc == old(maxproc) && cantProc == old(cantProc) + BOOST
          invariant forall j :: 0 <= j < p ==> proc[j] == Boosted(old(proc[..]))[j]
          invariant forall j :: p <= j < proc.Length ==> proc[j] == old(proc[j])
        {
          proc[p] := proc[p].(prio := 0);
          p := p + 1;
        }
        assert proc[..] == Boosted(old(proc[..]));
      }
      p := p + 1;
    }

    /** One round of the inner loop, or the outer loop's restart of it. */
    method Round(e: Event)
      requires Valid()
      modifies this, proc
      ensures Valid() && S() == Tick(old(S()), e)
    {
      if p >= proc.Length {
        p := 0;
        WakeUp(e.woken);
        return;
      }
      if proc[p].state == RUNNABLE {
        ChooseNext();
        p := maxproc;
        Run(e);
      } else {
        WakeUp(e.woken);
      }
      BoostCheck();
    }
  }

  function Start(proc: seq<Proc>): Sched { Sched(proc, BOOST, 0, 0) }
}
