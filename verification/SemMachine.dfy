/** Counting semaphores over sleep and wakeup: Lab2/xv6-riscv-riscv/kernel/sem.c with
    sleep, wakeup and kill of proc.c, as a machine of lock-level steps.

    Any number of processes run their scripts of sem_up, sem_down and output, each on a CPU
    of its own when it is not asleep; a step is one acquire, one release or one update of a
    shared variable, and the steps of different processes interleave in every order. */
module SemMachine {
  import opened Wrappers

  datatype Op = Up(k: nat) | Down(k: nat) | Print(line: string)

  /** Where a process is. k is the semaphore its system call works on. */
  datatype Pc =
    | Ready                        // in user code, before script[pos]
    | WantUp(k: nat)               // acquire(&a[b].slock) in sys_sem_up
    | InUp(k: nat)                 // if (a[b].value >= 0)
    | Scan(k: nat, j: nat)         // wakeup, before acquire(&proc[j].lock)
    | Look(k: nat, j: nat)         // wakeup, holding proc[j].lock
    | Bump(k: nat)                 // a[b].value + 1
    | WantDown(k: nat)             // acquire(&a[b].slock) in sys_sem_down, or in sleep
    | InDown(k: nat)               // while (a[b].value <= 0)
    | Take(k: nat)                 // a[b].value - 1
    | Leave(k: nat)                // release(&a[b].slock)
    | Drowse(k: nat)               // sleep: acquire(&p->lock)
    | LetGo(k: nat)                // sleep: release(lk)
    | NodOff(k: nat)               // sleep: p->chan = chan; p->state = SLEEPING
    | Switch(k: nat)               // sched, until the scheduler releases p->lock
    | Off(k: nat)                  // off the CPU
    | Awake(k: nat)                // sleep: p->chan = 0; release(&p->lock)

  datatype State = RUNNING | SLEEPING | RUNNABLE

  datatype Proc = Proc(pc: Pc, state: State, chan: Option<nat>, lock: Option<nat>, script: seq<Op>, pos: nat)

  /** A semaphore, with what sem_open gave it and how often it went up and down. */
  datatype Sem = Sem(value: int, holder: Option<nat>, initial: int, ups: nat, downs: nat)

  datatype Sys = Sys(procs: seq<Proc>, sems: seq<Sem>, out: seq<string>)

  // ---- the steps ----

  /** Scripts and program counters name semaphores and processes that exist. */
  predicate InRange(s: Sys, i: nat) {
    && i < |s.procs|
    && (s.procs[i].pc.Ready? || s.procs[i].pc.k < |s.sems|)
    && (s.procs[i].pc.Scan? ==> s.procs[i].pc.j <= |s.procs|)
    && (s.procs[i].pc.Look? ==> s.procs[i].pc.j < |s.procs|)
    && (forall n :: 0 <= n < |s.procs[i].script| && !s.procs[i].script[n].Print? ==> s.procs[i].script[n].k < |s.sems|)
  }

  /** Process i can move: it is not waiting for a lock, asleep or finished. */
  predicate Enabled(s: Sys, i: nat)
    requires InRange(s, i)
  {
    var p := s.procs[i];
    match p.pc
    case Ready => p.pos < |p.script|
    case WantUp(k) => s.sems[k].holder == None
    case WantDown(k) => s.sems[k].holder == None
    case Scan(k, j) => j == |s.procs| || j == i || s.procs[j].lock == None
    case Drowse(k) => p.lock == None
    case Off(k) => p.state == RUNNABLE && p.lock == None
    case _ => true
  }

  /** Process i itself after its step. */
  function Mover(s: Sys, i: nat): Proc
    requires InRange(s, i) && Enabled(s, i)
  {
    var p := s.procs[i];
    match p.pc
    case Ready =>
      (match p.script[p.pos]
       case Up(k) => p.(pc := WantUp(k))
       case Down(k) => p.(pc := WantDown(k))
       case Print(_) => p.(pos := p.pos + 1))
    case WantUp(k) => p.(pc := InUp(k))
    case InUp(k) => p.(pc := if s.sems[k].value >= 0 then Scan(k, 0) else Bump(k))
    case Scan(k, j) => p.(pc := if j == |s.procs| then Bump(k) else if j == i then Scan(k, j + 1) else Look(k, j))
    case Look(k, j) => p.(pc := Scan(k, j + 1))
    case Bump(k) => p.(pc := Leave(k), pos := p.pos + 1)
    case WantDown(k) => p.(pc := InDown(k))
    case InDown(k) => p.(pc := if s.sems[k].value <= 0 then Drowse(k) else Take(k))
    case Take(k) => p.(pc := Leave(k), pos := p.pos + 1)
    case Leave(k) => p.(pc := Ready)
    case Drowse(k) => p.(pc := LetGo(k), lock := Some(i))
    case LetGo(k) => p.(pc := NodOff(k))
    case NodOff(k) => p.(pc := Switch(k), state := SLEEPING, chan := Some(k))
    case Switch(k) => p.(pc := Off(k), lock := None)
    case Off(k) => p.(pc := Awake(k), state := RUNNING, lock := Some(i))
    case Awake(k) => p.(pc := WantDown(k), chan := None, lock := None)
  }

  /** Process m after a step of i: wakeup takes and releases the other processes' locks. */
  function ProcAfter(s: Sys, i: nat, m: nat): Proc
    requires InRange(s, i) && Enabled(s, i) && m < |s.procs|
  {
    var pc, q := s.procs[i].pc, s.procs[m];
    if m == i then Mover(s, i)
    else if pc.Scan? && pc.j == m then q.(lock := Some(i))
    else if pc.Look? && pc.j == m then
      (if q.state == SLEEPING && q.chan == Some(pc.k) then q.(state := RUNNABLE, lock := None) else q.(lock := None))
    else q
  }

  /** Semaphore k after a step of i. */
  function SemAfter(s: Sys, i: nat, k: nat): Sem
    requires InRange(s, i) && Enabled(s, i) && k < |s.sems|
  {
    var pc, a := s.procs[i].pc, s.sems[k];
    if pc.Ready? || pc.k != k then a
    else match pc
      case WantUp(_) => a.(holder := Some(i))
      case WantDown(_) => a.(holder := Some(i))
      case Bump(_) => a.(value := a.value + 1, ups := a.ups + 1)
      case Take(_) => a.(value := a.value - 1, downs := a.downs + 1)
      case Leave(_) => a.(holder := None)
      case LetGo(_) => a.(holder := None)
      case _ => a
  }

  function OutAfter(s: Sys, i: nat): seq<string>
    requires InRange(s, i) && Enabled(s, i)
  {
    var p := s.procs[i];
    if p.pc.Ready? && p.script[p.pos].Print? then s.out + [p.script[p.pos].line] else s.out
  }

  function Step(s: Sys, i: nat): (s': Sys)
    requires InRange(s, i) && Enabled(s, i)
    ensures |s'.procs| == |s.procs| && |s'.sems| == |s.sems|
    ensures forall m :: 0 <= m < |s.procs| ==> s'.procs[m] == ProcAfter(s, i, m)
    ensures forall k :: 0 <= k < |s.sems| ==> s'.sems[k] == SemAfter(s, i, k)
  {
    Sys(seq(|s.procs|, m requires 0 <= m < |s.procs| => ProcAfter(s, i, m)),
        seq(|s.sems|, k requires 0 <= k < |s.sems| => SemAfter(s, i, k)), OutAfter(s, i))
  }

  /** kill, by anyone: a sleeper becomes runnable, for a moment under its own lock. */
  predicate CanKill(s: Sys, j: nat) {
    j < |s.procs| && s.procs[j].lock == None && s.procs[j].state == SLEEPING
  }

  function Kill(s: Sys, j: nat): Sys
    requires CanKill(s, j)
  {
    s.(procs := s.procs[j := s.procs[j].(state := RUNNABLE)])
  }

  ghost predicate Next(s: Sys, s': Sys) {
    || (exists i :: InRange(s, i) && Enabled(s, i) && s' == Step(s, i))
    || (exists j :: CanKill(s, j) && s' == Kill(s, j))
  }

  // ---- who holds what ----

  predicate HoldsSem(pc: Pc, k: nat) {
    && (pc.InUp? || pc.Scan? || pc.Look? || pc.Bump? || pc.InDown? || pc.Take? || pc.Leave? || pc.Drowse? || pc.LetGo?)
    && pc.k == k
  }

  predicate HoldsProc(pc: Pc, i: nat, j: nat) {
    || (pc.Look? && pc.j == j)
    || ((pc.LetGo? || pc.NodOff? || pc.Switch? || pc.Awake?) && i == j)
  }

  ghost predicate SemLocks(s: Sys) {
    forall i, k :: 0 <= i < |s.procs| && 0 <= k < |s.sems| ==>
      (HoldsSem(s.procs[i].pc, k) <==> s.sems[k].holder == Some(i))
  }

  ghost predicate ProcLocks(s: Sys) {
    forall i, j :: 0 <= i < |s.procs| && 0 <= j < |s.procs| ==>
      (HoldsProc(s.procs[i].pc, i, j) <==> s.procs[j].lock == Some(i))
  }

  /** Locks are held by processes. */
  ghost predicate Owners(s: Sys) {
    && (forall k :: 0 <= k < |s.sems| && s.sems[k].holder.Some? ==> s.sems[k].holder.value < |s.procs|)
    && (forall j :: 0 <= j < |s.procs| && s.procs[j].lock.Some? ==> s.procs[j].lock.value < |s.procs|)
  }

  // ---- sleepers ----

  /** Asleep on k, or past the point of no return on the way there. */
  predicate Drowsy(p: Proc, k: nat) {
    && (p.pc.LetGo? || p.pc.NodOff? || ((p.pc.Switch? || p.pc.Off?) && p.state == SLEEPING))
    && p.pc.k == k
  }

  /** state and chan follow the program counter, and so does the script. */
  predicate Local(p: Proc) {
    && (if p.pc.Switch? then p.state == SLEEPING && p.chan == Some(p.pc.k)
        else if p.pc.Off? then p.state != RUNNING && p.chan == Some(p.pc.k)
        else p.state == RUNNING && p.chan == if p.pc.Awake? then Some(p.pc.k) else None)
    && p.pos <= |p.script|
    && (p.pc.WantUp? || p.pc.InUp? || p.pc.Scan? || p.pc.Look? || p.pc.Bump? ==>
          p.pos < |p.script| && p.script[p.pos] == Up(p.pc.k))
    && (p.pc.WantDown? || p.pc.InDown? || p.pc.Take? || p.pc.Drowse? || p.pc.LetGo? || p.pc.NodOff?
        || p.pc.Switch? || p.pc.Off? || p.pc.Awake? ==>
          p.pos < |p.script| && p.script[p.pos] == Down(p.pc.k))
  }

  ghost predicate Locals(s: Sys) {
    forall i :: 0 <= i < |s.procs| ==> InRange(s, i) && Local(s.procs[i])
  }

  /** The first n processes, but for process i itself, are awake as far as k goes. */
  ghost predicate Roused(s: Sys, i: nat, k: nat, n: nat) {
    forall m :: 0 <= m < n && m < |s.procs| && m != i ==> !Drowsy(s.procs[m], k)
  }

  /** What a process inside the semaphore's lock has seen to be so. */
  ghost predicate Seen(s: Sys, i: nat)
    requires InRange(s, i)
  {
    var pc := s.procs[i].pc;
    match pc
    case Scan(k, j) => s.sems[k].value >= 0 && Roused(s, i, k, j)
    case Look(k, j) => s.sems[k].value >= 0 && Roused(s, i, k, j) && i != j
    case Bump(k) => s.sems[k].value < 0 || Roused(s, i, k, |s.procs|)
    case Take(k) => s.sems[k].value > 0
    case Drowse(k) => s.sems[k].value <= 0
    case LetGo(k) => s.sems[k].value <= 0
    case _ => true
  }

  ghost predicate AllSeen(s: Sys)
    requires Locals(s)
  {
    forall i {:trigger s.procs[i]} :: 0 <= i < |s.procs| ==> Seen(s, i)
  }

  /** Nobody sleeps on a semaphore that is up. */
  ghost predicate NoSleeper(s: Sys, k: nat)
    requires k < |s.sems|
  {
    s.sems[k].value > 0 ==> forall m :: 0 <= m < |s.procs| ==> !Drowsy(s.procs[m], k)
  }

  predicate Counted(a: Sem) {
    a.value == a.initial + a.ups - a.downs && (a.initial >= 0 ==> a.value >= 0)
  }

  ghost predicate SemsOk(s: Sys) {
    forall k {:trigger s.sems[k]} :: 0 <= k < |s.sems| ==> Counted(s.sems[k]) && NoSleeper(s, k)
  }

  ghost predicate Inv(s: Sys) {
    Locals(s) && SemLocks(s) && ProcLocks(s) && Owners(s) && AllSeen(s) && SemsOk(s)
  }

  // ---- the invariant over one step ----

  lemma StepLocals(s: Sys, i: nat)
    requires Locals(s) && ProcLocks(s) && AllSeen(s) && i < |s.procs| && Enabled(s, i)
    ensures Locals(Step(s, i))
  {
    assert Seen(s, i);
    forall m | 0 <= m < |s.procs| ensures InRange(Step(s, i), m) && Local(Step(s, i).procs[m]) {
      assert InRange(s, m) && Local(s.procs[m]) && InRange(s, i) && Local(s.procs[i]);
      if s.procs[i].pc.Look? && i != m { LookIsAlone(s, i, m); }
      LocalAfter(s, i, m);
    }
  }

  /** Pcs at which a process holds its own lock. */
  predicate OwnLock(pc: Pc) { pc.LetGo? || pc.NodOff? || pc.Switch? || pc.Awake? }

  lemma LookIsAlone(s: Sys, i: nat, m: nat)
    requires ProcLocks(s) && i < |s.procs| && m < |s.procs| && s.procs[i].pc.Look? && i != m
    ensures s.procs[i].pc.j == m ==> !OwnLock(s.procs[m].pc)
  {
    assert HoldsProc(s.procs[i].pc, i, m) <==> s.procs[m].lock == Some(i);
    assert HoldsProc(s.procs[m].pc, m, m) <==> s.procs[m].lock == Some(m);
  }

  lemma LocalAfter(s: Sys, i: nat, m: nat)
    requires InRange(s, i) && InRange(s, m) && Local(s.procs[i]) && Local(s.procs[m]) && Enabled(s, i)
    requires s.procs[i].pc.Look? ==> s.procs[i].pc.j != i && (s.procs[i].pc.j == m ==> !OwnLock(s.procs[m].pc))
    ensures InRange(Step(s, i), m) && Local(Step(s, i).procs[m])
  {
  }

  lemma StepSemLocks(s: Sys, i: nat)
    requires Locals(s) && SemLocks(s) && i < |s.procs| && Enabled(s, i)
    ensures SemLocks(Step(s, i))
  {
    hide Local, Step, InRange;
    forall m, k | 0 <= m < |s.procs| && 0 <= k < |s.sems|
      ensures HoldsSem(Step(s, i).procs[m].pc, k) <==> Step(s, i).sems[k].holder == Some(m)
    {
      SemLockAfter(s, i, m, k);
    }
  }

  lemma SemLockAfter(s: Sys, i: nat, m: nat, k: nat)
    requires InRange(s, i) && Enabled(s, i) && m < |s.procs| && k < |s.sems|
    requires HoldsSem(s.procs[m].pc, k) <==> s.sems[k].holder == Some(m)
    requires HoldsSem(s.procs[i].pc, k) <==> s.sems[k].holder == Some(i)
    ensures HoldsSem(ProcAfter(s, i, m).pc, k) <==> SemAfter(s, i, k).holder == Some(m)
  {
  }

  lemma StepProcLocks(s: Sys, i: nat)
    requires Locals(s) && AllSeen(s) && ProcLocks(s) && i < |s.procs| && Enabled(s, i)
    ensures ProcLocks(Step(s, i))
  {
    assert Seen(s, i);
    hide Local, Step, InRange, Enabled, Mover, ProcAfter, HoldsProc;
    forall m, j | 0 <= m < |s.procs| && 0 <= j < |s.procs|
      ensures HoldsProc(Step(s, i).procs[m].pc, m, j) <==> Step(s, i).procs[j].lock == Some(m)
    {
      ProcLockAfter(s, i, m, j);
    }
  }

  lemma ProcLockAfter(s: Sys, i: nat, m: nat, j: nat)
    requires InRange(s, i) && Enabled(s, i) && m < |s.procs| && j < |s.procs|
    requires s.procs[i].pc.Look? ==> s.procs[i].pc.j != i
    requires HoldsProc(s.procs[m].pc, m, j) <==> s.procs[j].lock == Some(m)
    requires HoldsProc(s.procs[i].pc, i, j) <==> s.procs[j].lock == Some(i)
    ensures HoldsProc(ProcAfter(s, i, m).pc, m, j) <==> ProcAfter(s, i, j).lock == Some(m)
  {
  }

  lemma StepOwners(s: Sys, i: nat)
    requires Locals(s) && Owners(s) && i < |s.procs| && Enabled(s, i)
    ensures Owners(Step(s, i))
  {
    hide Local, Step;
  }

  // ---- wakeups are not lost ----

  /** Nobody but the holder of k's lock gets drowsy on k, and only with k down. */
  lemma DrowsyAfter(s: Sys, i: nat, m: nat, k: nat)
    requires InRange(s, i) && Enabled(s, i) && m < |s.procs| && Local(s.procs[i]) && Local(s.procs[m])
    requires s.procs[i].pc.Look? && s.procs[i].pc.j == m ==> !OwnLock(s.procs[m].pc)
    ensures Drowsy(ProcAfter(s, i, m), k) ==>
              Drowsy(s.procs[m], k) || (m == i && s.procs[i].pc == Drowse(k))
    ensures s.procs[i].pc == Look(k, m) && m != i ==> !Drowsy(ProcAfter(s, i, m), k)
  {
  }

  ghost predicate DrowsyStep(s: Sys, s': Sys, i: nat)
    requires i < |s.procs|
  {
    && |s'.procs| == |s.procs|
    && forall m, k {:trigger Drowsy(s'.procs[m], k)} :: 0 <= m < |s.procs| && 0 <= k < |s.sems| ==>
         && (Drowsy(s'.procs[m], k) ==> Drowsy(s.procs[m], k) || (m == i && s.procs[i].pc == Drowse(k)))
         && (s.procs[i].pc == Look(k, m) && m != i ==> !Drowsy(s'.procs[m], k))
  }

  lemma StepDrowsy(s: Sys, i: nat)
    requires Locals(s) && ProcLocks(s) && i < |s.procs| && Enabled(s, i)
    ensures DrowsyStep(s, Step(s, i), i)
  {
    var s' := Step(s, i);
    forall m, k | 0 <= m < |s.procs| && 0 <= k < |s.sems|
      ensures Drowsy(s'.procs[m], k) ==> Drowsy(s.procs[m], k) || (m == i && s.procs[i].pc == Drowse(k))
      ensures s.procs[i].pc == Look(k, m) && m != i ==> !Drowsy(s'.procs[m], k)
    {
      assert InRange(s, m) && Local(s.procs[m]) && Local(s.procs[i]);
      if s.procs[i].pc.Look? && i != m { LookIsAlone(s, i, m); }
      DrowsyAfter(s, i, m, k);
    }
    hide Locals, ProcLocks, Drowsy, Step;
  }

  /** wakeup goes on to the next entry, with everybody before it awake. */
  lemma RousedFurther(s: Sys, s': Sys, i: nat, k: nat, j: nat)
    requires i < |s.procs| && k < |s.sems| && j < |s.procs| && DrowsyStep(s, s', i) && Roused(s, i, k, j)
    requires s.procs[i].pc == Look(k, j) || (s.procs[i].pc == Scan(k, j) && i == j)
    ensures Roused(s', i, k, j + 1)
  {
    hide Drowsy;
  }

  lemma RousedStill(s: Sys, s': Sys, i: nat, k: nat, n: nat)
    requires i < |s.procs| && k < |s.sems| && DrowsyStep(s, s', i) && Roused(s, i, k, n)
    ensures Roused(s', i, k, n)
  {
    hide Drowsy;
  }

  lemma SeenAfterMover(s: Sys, i: nat)
    requires Inv(s) && i < |s.procs| && Enabled(s, i) && Locals(Step(s, i))
    ensures Seen(Step(s, i), i)
  {
    assert Seen(s, i) && InRange(s, i);
    StepDrowsy(s, i);
    var s', pc := Step(s, i), s.procs[i].pc;
    assert s'.procs[i] == Mover(s, i);
    if pc.Look? || (pc.Scan? && pc.j == i) {
      RousedFurther(s, s', i, pc.k, pc.j);
    } else if pc.Scan? {
      RousedStill(s, s', i, pc.k, pc.j);
    }
    hide Locals, SemLocks, ProcLocks, Owners, AllSeen, SemsOk, Drowsy, Local, Step, ProcAfter, DrowsyStep;
  }

  /** Two processes are never inside the same semaphore. */
  lemma OneInside(s: Sys, i: nat, m: nat, k: nat)
    requires SemLocks(s) && i < |s.procs| && m < |s.procs| && i != m && k < |s.sems|
    ensures !(HoldsSem(s.procs[i].pc, k) && HoldsSem(s.procs[m].pc, k))
  {
    assert HoldsSem(s.procs[i].pc, k) ==> s.sems[k].holder == Some(i);
    assert HoldsSem(s.procs[m].pc, k) ==> s.sems[k].holder == Some(m);
  }

  lemma SeenAfterOther(s: Sys, i: nat, m: nat)
    requires Inv(s) && i < |s.procs| && Enabled(s, i) && Locals(Step(s, i)) && m < |s.procs| && m != i
    ensures Seen(Step(s, i), m)
  {
    assert Seen(s, m) && InRange(s, i) && InRange(s, m);
    StepDrowsy(s, i);
    var pc := s.procs[m].pc;
    if !pc.Ready? { OneInside(s, i, m, pc.k); }
    assert Step(s, i).procs[m].pc == pc;
    hide Locals, SemLocks, ProcLocks, Owners, AllSeen, SemsOk, Drowsy, Local, Step, ProcAfter, Mover, Enabled;
  }

  lemma StepSeen(s: Sys, i: nat)
    requires Inv(s) && i < |s.procs| && Enabled(s, i) && Locals(Step(s, i))
    ensures AllSeen(Step(s, i))
  {
    forall m | 0 <= m < |s.procs| ensures Seen(Step(s, i), m) {
      if m == i { SeenAfterMover(s, i); } else { SeenAfterOther(s, i, m); }
    }
    hide Seen, Step, Inv, Locals;
  }

  lemma SemOkAfter(s: Sys, i: nat, k: nat)
    requires Inv(s) && i < |s.procs| && Enabled(s, i) && k < |s.sems|
    ensures Counted(SemAfter(s, i, k)) && NoSleeper(Step(s, i), k)
  {
    assert Counted(s.sems[k]) && NoSleeper(s, k) && InRange(s, i) && Seen(s, i);
    StepDrowsy(s, i);
    hide Locals, SemLocks, ProcLocks, Owners, AllSeen, SemsOk, Local;
    forall m | 0 <= m < |s.procs| && Step(s, i).sems[k].value > 0 ensures !Drowsy(Step(s, i).procs[m], k) {
    }
  }

  lemma StepSems(s: Sys, i: nat)
    requires Inv(s) && i < |s.procs| && Enabled(s, i)
    ensures SemsOk(Step(s, i))
  {
    forall k | 0 <= k < |s.sems| ensures Counted(Step(s, i).sems[k]) && NoSleeper(Step(s, i), k) {
      SemOkAfter(s, i, k);
    }
    hide Step, Inv, Counted, NoSleeper;
  }

  lemma KillKeepsInv(s: Sys, j: nat)
    requires Inv(s) && CanKill(s, j)
    ensures Inv(Kill(s, j))
  {
    var s' := Kill(s, j);
    assert InRange(s, j) && Local(s.procs[j]);
    assert s.procs[j].pc.Off? by { KillOff(s, j); }
    KillLocks(s, j);
    forall m | 0 <= m < |s.procs| ensures InRange(s', m) && Local(s'.procs[m]) {
      assert InRange(s, m) && Local(s.procs[m]);
    }
    forall m | 0 <= m < |s.procs| ensures Seen(s', m) { assert Seen(s, m); KillSeen(s, j, m); }
    forall k | 0 <= k < |s.sems| ensures Counted(s'.sems[k]) && NoSleeper(s', k) {
      assert Counted(s.sems[k]) && NoSleeper(s, k);
      KillSleeper(s, j, k);
    }
    hide Locals, SemLocks, ProcLocks, Owners, Seen, NoSleeper, Kill, Local;
  }

  lemma KillOff(s: Sys, j: nat)
    requires Inv(s) && CanKill(s, j)
    ensures s.procs[j].pc.Off?
  {
    assert InRange(s, j) && Local(s.procs[j]);
    assert HoldsProc(s.procs[j].pc, j, j) <==> s.procs[j].lock == Some(j);
  }

  lemma KillLocks(s: Sys, j: nat)
    requires CanKill(s, j) && SemLocks(s) && ProcLocks(s) && Owners(s)
    ensures SemLocks(Kill(s, j)) && ProcLocks(Kill(s, j)) && Owners(Kill(s, j))
  {
    hide HoldsSem, HoldsProc;
  }

  lemma KillSeen(s: Sys, j: nat, m: nat)
    requires CanKill(s, j) && m < |s.procs| && InRange(s, m) && Seen(s, m) && InRange(Kill(s, j), m)
    ensures Seen(Kill(s, j), m)
  {
  }

  lemma KillSleeper(s: Sys, j: nat, k: nat)
    requires CanKill(s, j) && k < |s.sems| && NoSleeper(s, k)
    ensures NoSleeper(Kill(s, j), k)
  {
  }

  /** The invariant holds of every step of every interleaving. */
  lemma NextKeepsInv(s: Sys, s': Sys)
    requires Inv(s) && Next(s, s')
    ensures Inv(s')
  {
    if i :| InRange(s, i) && Enabled(s, i) && s' == Step(s, i) {
      StepLocals(s, i);
      StepSemLocks(s, i);
      StepProcLocks(s, i);
      StepOwners(s, i);
      StepSeen(s, i);
      StepSems(s, i);
    } else {
      var j :| CanKill(s, j) && s' == Kill(s, j);
      KillKeepsInv(s, j);
    }
    hide Locals, SemLocks, ProcLocks, Owners, AllSeen, SemsOk, Step, Kill;
  }

  // ---- whole runs ----

  function Fresh(script: seq<Op>): Proc { Proc(Ready, RUNNING, None, None, script, 0) }

  function Opened(initial: int): Sem { Sem(initial, None, initial, 0, 0) }

  ghost predicate Start(s: Sys) {
    && s.out == []
    && (forall i :: 0 <= i < |s.procs| ==> s.procs[i] == Fresh(s.procs[i].script) && InRange(s, i))
    && (forall k :: 0 <= k < |s.sems| ==> s.sems[k] == Opened(s.sems[k].initial))
  }

  lemma StartInv(s: Sys)
    requires Start(s)
    ensures Inv(s)
  {
    forall i | 0 <= i < |s.procs|
      ensures InRange(s, i) && Local(s.procs[i]) && s.procs[i].pc == Ready && s.procs[i].lock == None
    {
      assert s.procs[i] == Fresh(s.procs[i].script);
    }
    forall k | 0 <= k < |s.sems| ensures s.sems[k].holder == None && Counted(s.sems[k]) {
      assert s.sems[k] == Opened(s.sems[k].initial);
    }
    assert Locals(s) && SemLocks(s) && ProcLocks(s) && Owners(s);
    forall i | 0 <= i < |s.procs| ensures Seen(s, i) { assert InRange(s, i); }
    forall k | 0 <= k < |s.sems| ensures NoSleeper(s, k) {
      forall m | 0 <= m < |s.procs| ensures !Drowsy(s.procs[m], k) { assert InRange(s, m); }
    }
  }

  ghost predicate Reaches(run: seq<Sys>) {
    run != [] && Start(run[0]) && forall n :: 0 <= n < |run| - 1 ==> Next(run[n], run[n + 1])
  }

  lemma {:induction false} RunKeepsInv(run: seq<Sys>, n: nat)
    requires Reaches(run) && n < |run|
    ensures Inv(run[n])
  {
    if n == 0 {
      StartInv(run[0]);
    } else {
      RunKeepsInv(run, n - 1);
      assert Next(run[n - 1], run[n]);
      hide Inv, Next, Start;
      NextKeepsInv(run[n - 1], run[n]);
    }
  }

  /** No lost wakeup, and conservation: in every reachable state each semaphore is worth what
      it was opened with plus ups minus downs, never negative unless opened so, and while it
      is up nobody is asleep on it, whoever holds which locks. */
  lemma NoLostWakeup(run: seq<Sys>, k: nat, m: nat)
    requires Reaches(run)
    ensures var s := run[|run| - 1];
            && (k < |s.sems| ==>
                  && s.sems[k].value == s.sems[k].initial + s.sems[k].ups - s.sems[k].downs
                  && (s.sems[k].initial >= 0 ==> s.sems[k].value >= 0))
            && (k < |s.sems| && s.sems[k].value > 0 && m < |s.procs| ==>
                  !(s.procs[m].state == SLEEPING && s.procs[m].chan == Some(k)))
  {
    RunKeepsInv(run, |run| - 1);
    var s := run[|run| - 1];
    if k < |s.sems| { assert Counted(s.sems[k]) && NoSleeper(s, k); }
    if m < |s.procs| { assert InRange(s, m) && Local(s.procs[m]); }
  }

  // ---- deadlock ----

  predicate Finished(p: Proc) { p.pc == Ready && p.pos == |p.script| }

  ghost predicate Stuck(s: Sys) {
    forall i :: 0 <= i < |s.procs| ==> InRange(s, i) && !Enabled(s, i)
  }

  /** A process that waits for a lock waits for one that can move, or that waits itself for
      a process's lock, which is held by one that can move. */
  lemma ProcLockMoves(s: Sys, j: nat)
    requires Inv(s) && j < |s.procs| && s.procs[j].lock.Some?
    ensures s.procs[j].lock.value < |s.procs| && InRange(s, s.procs[j].lock.value) && Enabled(s, s.procs[j].lock.value)
  {
    var i := s.procs[j].lock.value;
    assert i < |s.procs|;
    assert HoldsProc(s.procs[i].pc, i, j) <==> s.procs[j].lock == Some(i);
  }

  lemma SemLockMoves(s: Sys, k: nat)
    requires Inv(s) && k < |s.sems| && s.sems[k].holder.Some?
    ensures !Stuck(s)
  {
    var i := s.sems[k].holder.value;
    assert i < |s.procs| && InRange(s, i);
    assert HoldsSem(s.procs[i].pc, k) <==> s.sems[k].holder == Some(i);
    if !Enabled(s, i) {
      var j := if s.procs[i].pc.Scan? then s.procs[i].pc.j else i;
      ProcLockMoves(s, j);
    }
  }

  /** The only way to get stuck: every process that has not finished is asleep in sem_down
      of a semaphore that is not up, and no lock is held. */
  lemma StuckMeansAsleep(s: Sys, i: nat)
    requires Inv(s) && Stuck(s) && i < |s.procs| && !Finished(s.procs[i])
    ensures InRange(s, i) && s.procs[i].pc.Off? && s.procs[i].state == SLEEPING
    ensures s.procs[i].pos < |s.procs[i].script| && s.procs[i].script[s.procs[i].pos] == Down(s.procs[i].pc.k)
    ensures s.sems[s.procs[i].pc.k].value <= 0 && s.sems[s.procs[i].pc.k].holder == None
  {
    var p := s.procs[i];
    assert InRange(s, i) && !Enabled(s, i) && Local(p);
    if p.pc.Scan? && s.procs[p.pc.j].lock.Some? { ProcLockMoves(s, p.pc.j); }
    if p.lock.Some? { ProcLockMoves(s, i); }
    if !p.pc.Ready? {
      if s.sems[p.pc.k].holder.Some? { SemLockMoves(s, p.pc.k); }
      assert NoSleeper(s, p.pc.k);
    }
  }

  /** Who sleeps in sem_down is woken, kill apart, only by a sem_up of the semaphore it waits for. */
  lemma WokenByUp(s: Sys, i: nat, m: nat)
    requires Inv(s) && i < |s.procs| && m < |s.procs| && InRange(s, i) && Enabled(s, i)
    ensures m != i && s.procs[m].state == SLEEPING && Step(s, i).procs[m].state != SLEEPING ==>
              && Step(s, i).procs[m].state == RUNNABLE && !s.procs[i].pc.Ready? && !s.procs[m].pc.Ready?
              && s.procs[i].pos < |s.procs[i].script| && s.procs[i].script[s.procs[i].pos] == Up(s.procs[m].pc.k)
              && s.procs[m].pos < |s.procs[m].script| && s.procs[m].script[s.procs[m].pos] == Down(s.procs[m].pc.k)
  {
  }

  /** Steps that a system call can still make before it returns or goes back to sleep. */
  function Rank(pc: Pc, n: nat): int {
    match pc
    case Ready => 0
    case Leave(_) => 1
    case Bump(_) => 2
    case Take(_) => 2
    case Scan(_, j) => 3 + 2 * (n - j)
    case Look(_, j) => 2 + 2 * (n - j)
    case InUp(_) => 4 + 2 * n
    case WantUp(_) => 5 + 2 * n
    case Awake(_) => 3
    case Off(_) => 4
    case Switch(_) => 5
    case NodOff(_) => 6
    case LetGo(_) => 7
    case Drowse(_) => 8
    case InDown(_) => 9
    case WantDown(_) => 10
  }

  /** Every step takes its process on: it starts the next entry of its script, or brings its system
      call nearer to its end, with one step that does what the entry says. Only a process that has
      been woken starts sem_down over. */
  lemma EveryStepCounts(s: Sys, i: nat)
    requires Inv(s) && i < |s.procs| && InRange(s, i) && Enabled(s, i)
    ensures var p, q, n := s.procs[i], Step(s, i).procs[i], |s.procs|;
            && q.script == p.script
            && (if p.pc.Ready? then
                  p.pos < |p.script|
                  && match p.script[p.pos]
                     case Up(k) => q.pc == WantUp(k) && q.pos == p.pos
                     case Down(k) => q.pc == WantDown(k) && q.pos == p.pos
                     case Print(line) => q.pc == Ready && q.pos == p.pos + 1 && Step(s, i).out == s.out + [line]
                else
                  && Step(s, i).out == s.out
                  && (if p.pc.Awake? then q.pc == WantDown(p.pc.k) else 0 <= Rank(q.pc, n) < Rank(p.pc, n))
                  && q.pos == p.pos + if p.pc.Bump? || p.pc.Take? then 1 else 0)
  {
    assert Local(s.procs[i]);
  }
}
