/** fork, exit and wait of Lab3/xv6-riscv/kernel/proc.c over sleep, wakeup and reparent, as a
    machine of lock-level steps.

    Each process is on a CPU of its own unless it sleeps; a step is one acquire, one release
    or one update of the process table, in every interleaving. */
module WaitMachine {
  import opened Wrappers

  /** Where a process is. `back` is the entry reparent has come to, or None for the
      wakeup(p->parent) that follows it. */
  datatype Pc =
    | Unborn                                        // the entry is UNUSED, or being filled by fork
    | Ready                                         // in user code
    | WantExit                                      // exit: acquire(&wait_lock)
    | Adopt(j: nat)                                 // reparent, at entry j
    | Rouse(c: nat, m: nat, back: Option<nat>)      // wakeup(c), before acquire(&proc[m].lock)
    | Look(c: nat, m: nat, back: Option<nat>)       // wakeup(c), holding proc[m].lock
    | LockSelf                                      // exit: acquire(&p->lock)
    | Die                                           // p->state = ZOMBIE
    | LeaveExit                                     // release(&wait_lock)
    | SwitchOut                                     // sched, until the scheduler releases p->lock
    | Dead
    | WantWait                                      // acquire(&wait_lock) in wait, or in sleep
    | Search(j: nat, kids: bool)                    // wait: looking for a child, at entry j
    | Inspect(j: nat)                               // wait: holding a child's lock
    | Decide(kids: bool)                            // wait: no child has exited
    | LeaveWait                                     // release(&wait_lock)
    | Drowse                                        // sleep: acquire(&p->lock)
    | LetGo                                         // sleep: release(lk)
    | NodOff                                        // sleep: p->chan = chan; p->state = SLEEPING
    | Switch                                        // sched, until the scheduler releases p->lock
    | Off                                           // off the CPU
    | Awake                                         // sleep: p->chan = 0; release(&p->lock)
    | WantFork(np: nat)                             // fork: acquire(&wait_lock)
    | SetParent(np: nat)                            // np->parent = p
    | LeaveFork(np: nat)                            // release(&wait_lock)
    | Launch(np: nat)                               // np->state = RUNNABLE, under np->lock

  datatype State = UNUSED | USED | RUNNING | SLEEPING | RUNNABLE | ZOMBIE

  /** maker is the process whose fork is filling the entry. */
  datatype Proc = Proc(pc: Pc, state: State, chan: Option<nat>, parent: Option<nat>, lock: Option<nat>, maker: Option<nat>)

  /** holder owns wait_lock. */
  datatype Sys = Sys(procs: seq<Proc>, holder: Option<nat>, init: nat)

  /** What a process does next in user code, and what the kernel finds that is not modelled:
      whether copyout fails and whether the process has been killed. */
  datatype Act = Exit | Wait | Fork(np: nat)
  datatype Choice = Choice(act: Act, flag: bool)

  // ---- the steps ----

  predicate InRange(s: Sys, i: nat) {
    i < |s.procs| && s.init < |s.procs| && Fits(s.procs[i], |s.procs|)
  }

  /** Every entry that p's parent and pc name exists. */
  predicate Fits(p: Proc, n: nat) {
    && (p.parent.Some? ==> p.parent.value < n)
    && var pc := p.pc;
       && (pc.Adopt? || pc.Search? ==> pc.j <= n)
       && (pc.Inspect? ==> pc.j < n)
       && (pc.Rouse? ==> pc.c < n && pc.m <= n)
       && (pc.Look? ==> pc.c < n && pc.m < n)
       && (pc.Rouse? || pc.Look? ==> (pc.back.Some? ==> pc.back.value < n))
       && (pc.WantFork? || pc.SetParent? || pc.LeaveFork? || pc.Launch? ==> pc.np < n)
  }

  predicate Takes(pc: Pc) { pc.WantExit? || pc.WantWait? || pc.WantFork? }

  /** Process i can move. */
  predicate Enabled(s: Sys, i: nat, ch: Choice)
    requires InRange(s, i)
  {
    var p := s.procs[i];
    match p.pc
    case Unborn => false
    case Dead => false
    case Ready =>
      (match ch.act
       case Exit => i != s.init               // "init exiting"
       case Wait => true
       case Fork(np) => np < |s.procs| && np != i && s.procs[np].state == UNUSED && s.procs[np].lock == None)
    case WantExit => s.holder == None
    case WantWait => s.holder == None
    case WantFork(_) => s.holder == None
    case Adopt(j) => j == |s.procs| ==> p.parent.Some?
    case Rouse(c, m, _) => m == |s.procs| || m == i || s.procs[m].lock == None
    case Search(j, _) => j == |s.procs| || s.procs[j].parent != Some(i) || s.procs[j].lock == None
    case LockSelf => p.lock == None
    case Drowse => p.lock == None
    case Off => p.state == RUNNABLE && p.lock == None
    case Launch(np) => s.procs[np].lock == None
    case _ => true
  }

  function Mover(s: Sys, i: nat, ch: Choice): Proc
    requires InRange(s, i) && Enabled(s, i, ch)
  {
    var p, n := s.procs[i], |s.procs|;
    match p.pc
    case Unborn => p
    case Dead => p
    case Ready =>
      (match ch.act
       case Exit => p.(pc := WantExit)
       case Wait => p.(pc := WantWait)
       case Fork(np) => p.(pc := WantFork(np)))
    case WantExit => p.(pc := Adopt(0))
    case Adopt(j) =>
      if j == n then p.(pc := Rouse(p.parent.value, 0, None))
      else if s.procs[j].parent == Some(i) then
        (if j == i then p.(pc := Rouse(s.init, 0, Some(j)), parent := Some(s.init)) else p.(pc := Rouse(s.init, 0, Some(j))))
      else p.(pc := Adopt(j + 1))
    case Rouse(c, m, back) =>
      if m == n then p.(pc := if back.Some? then Adopt(back.value + 1) else LockSelf)
      else if m == i then p.(pc := Rouse(c, m + 1, back))
      else p.(pc := Look(c, m, back))
    case Look(c, m, back) => p.(pc := Rouse(c, m + 1, back))
    case LockSelf => p.(pc := Die, lock := Some(i))
    case Die => p.(pc := LeaveExit, state := ZOMBIE)
    case LeaveExit => p.(pc := SwitchOut)
    case SwitchOut => p.(pc := Dead, lock := None)
    case WantWait => p.(pc := Search(0, false))
    case Search(j, kids) =>
      if j == n then p.(pc := Decide(kids))
      else if s.procs[j].parent == Some(i) then (if j == i then p.(pc := Inspect(j), lock := Some(i)) else p.(pc := Inspect(j)))
      else p.(pc := Search(j + 1, kids))
    case Inspect(j) =>
      if s.procs[j].state == ZOMBIE then p.(pc := LeaveWait)
      else if j == i then p.(pc := Search(j + 1, true), lock := None)
      else p.(pc := Search(j + 1, true))
    case Decide(kids) => p.(pc := if !kids || ch.flag then LeaveWait else Drowse)
    case LeaveWait => p.(pc := Ready)
    case Drowse => p.(pc := LetGo, lock := Some(i))
    case LetGo => p.(pc := NodOff)
    case NodOff => p.(pc := Switch, state := SLEEPING, chan := Some(i))
    case Switch => p.(pc := Off, lock := None)
    case Off => p.(pc := Awake, state := RUNNING, lock := Some(i))
    case Awake => p.(pc := WantWait, chan := None, lock := None)
    case WantFork(np) => p.(pc := SetParent(np))
    case SetParent(np) => p.(pc := LeaveFork(np))
    case LeaveFork(np) => p.(pc := Launch(np))
    case Launch(np) => p.(pc := Ready)
  }

  /** freeproc */
  function Freed(): Proc { Proc(Unborn, UNUSED, None, None, None, None) }

  /** Process m, other than i, after a step of i. */
  function Other(s: Sys, i: nat, ch: Choice, m: nat): Proc
    requires InRange(s, i) && Enabled(s, i, ch) && m < |s.procs|
  {
    var pc, q := s.procs[i].pc, s.procs[m];
    match pc
    case Ready => if ch.act == Fork(m) then q.(state := USED, maker := Some(i)) else q
    case Adopt(j) => if j == m && q.parent == Some(i) then q.(parent := Some(s.init)) else q
    case Rouse(_, j, _) => if j == m then q.(lock := Some(i)) else q
    case Look(c, j, _) =>
      if j != m then q
      else if q.state == SLEEPING && q.chan == Some(c) then q.(state := RUNNABLE, lock := None)
      else q.(lock := None)
    case Search(j, _) => if j == m && q.parent == Some(i) then q.(lock := Some(i)) else q
    case Inspect(j) =>
      if j != m then q
      else if q.state == ZOMBIE && !ch.flag then Freed()
      else q.(lock := None)
    case SetParent(np) => if np == m then q.(parent := Some(i)) else q
    case Launch(np) => if np == m then q.(pc := Ready, state := RUNNING, maker := None) else q
    case _ => q
  }

  function ProcAfter(s: Sys, i: nat, ch: Choice, m: nat): Proc
    requires InRange(s, i) && Enabled(s, i, ch) && m < |s.procs|
  {
    if m == i then Mover(s, i, ch) else Other(s, i, ch, m)
  }

  predicate Leaves(pc: Pc) { pc.LeaveExit? || pc.LeaveWait? || pc.LetGo? || pc.LeaveFork? }

  function HolderAfter(s: Sys, i: nat): Option<nat>
    requires i < |s.procs|
  {
    if Takes(s.procs[i].pc) then Some(i) else if Leaves(s.procs[i].pc) then None else s.holder
  }

  function Step(s: Sys, i: nat, ch: Choice): (s': Sys)
    requires InRange(s, i) && Enabled(s, i, ch)
    ensures |s'.procs| == |s.procs| && s'.init == s.init && s'.holder == HolderAfter(s, i)
    ensures forall m :: 0 <= m < |s.procs| ==> s'.procs[m] == ProcAfter(s, i, ch, m)
  {
    Sys(seq(|s.procs|, m requires 0 <= m < |s.procs| => ProcAfter(s, i, ch, m)), HolderAfter(s, i), s.init)
  }

  /** kill, by anyone: a sleeper becomes runnable. */
  predicate CanKill(s: Sys, j: nat) {
    j < |s.procs| && s.procs[j].lock == None && s.procs[j].state == SLEEPING
  }

  function Kill(s: Sys, j: nat): Sys
    requires CanKill(s, j)
  {
    s.(procs := s.procs[j := s.procs[j].(state := RUNNABLE)])
  }

  // ---- who holds what ----

  predicate HoldsWait(pc: Pc) {
    || pc.Adopt? || pc.Rouse? || pc.Look? || pc.LockSelf? || pc.Die? || pc.LeaveExit?
    || pc.Search? || pc.Inspect? || pc.Decide? || pc.LeaveWait? || pc.Drowse? || pc.LetGo?
    || pc.SetParent? || pc.LeaveFork?
  }

  predicate OwnLock(pc: Pc) {
    pc.Die? || pc.LeaveExit? || pc.SwitchOut? || pc.LetGo? || pc.NodOff? || pc.Switch? || pc.Awake?
  }

  predicate HoldsProc(pc: Pc, i: nat, j: nat) {
    (pc.Look? && pc.m == j) || (pc.Inspect? && pc.j == j) || (OwnLock(pc) && i == j)
  }

  predicate Forks(pc: Pc, np: nat) {
    (pc.WantFork? || pc.SetParent? || pc.LeaveFork? || pc.Launch?) && pc.np == np
  }

  ghost predicate WaitLock(s: Sys) {
    forall i :: 0 <= i < |s.procs| ==> (HoldsWait(s.procs[i].pc) <==> s.holder == Some(i))
  }

  ghost predicate ProcLocks(s: Sys) {
    forall i, j :: 0 <= i < |s.procs| && 0 <= j < |s.procs| ==>
      (HoldsProc(s.procs[i].pc, i, j) <==> s.procs[j].lock == Some(i))
  }

  ghost predicate Makers(s: Sys) {
    forall i, j :: 0 <= i < |s.procs| && 0 <= j < |s.procs| ==>
      (Forks(s.procs[i].pc, j) <==> s.procs[j].maker == Some(i))
  }

  /** What a process's pc says about its entry. */
  predicate Local(s: Sys, i: nat)
    requires i < |s.procs|
  {
    Proper(s.procs[i], i, s.init)
  }

  predicate Proper(p: Proc, i: nat, init: nat) {
    && (if p.pc.Unborn? then p.state == if p.maker == None then UNUSED else USED
        else if p.pc.LeaveExit? || p.pc.SwitchOut? || p.pc.Dead? then p.state == ZOMBIE
        else if p.pc.Switch? then p.state == SLEEPING && p.chan == Some(i)
        else if p.pc.Off? then p.chan == Some(i) && (p.state == SLEEPING || p.state == RUNNABLE)
        else p.state == RUNNING)
    && (p.pc.Unborn? || p.maker == None)
    && ((p.pc.Rouse? || p.pc.Look?) ==> (if p.pc.back.Some? then p.pc.c == init else p.parent == Some(p.pc.c)))
    && ((p.pc.LockSelf? || p.pc.Die?) ==> p.parent.Some?)
  }

  ghost predicate Locals(s: Sys) {
    forall i {:trigger InRange(s, i)} {:trigger Local(s, i)} {:trigger s.procs[i]} :: 0 <= i < |s.procs| ==> InRange(s, i) && Local(s, i)
  }

  // ---- sleepers and zombies ----

  /** Asleep in wait, or past the point of no return on the way there. */
  predicate Napping(p: Proc) {
    p.pc.LetGo? || p.pc.NodOff? || ((p.pc.Switch? || p.pc.Off?) && p.state == SLEEPING)
  }

  predicate ZombieOf(q: Proc, p: nat) { q.parent == Some(p) && q.state == ZOMBIE }

  /** wakeup(p), on behalf of reparent, has not come to p yet. */
  predicate StillToRouse(pc: Pc, p: nat) {
    (pc.Rouse? || pc.Look?) && pc.back.Some? && pc.c == p && pc.m <= p
  }

  /** A parent does not nap on a child that has exited, unless its wakeup is under way. */
  ghost predicate NoneMissed(s: Sys, c: nat, p: nat)
    requires c < |s.procs| && p < |s.procs|
  {
    ZombieOf(s.procs[c], p) && Napping(s.procs[p]) ==>
      s.holder.Some? && s.holder.value < |s.procs| && StillToRouse(s.procs[s.holder.value].pc, p)
  }

  ghost predicate AllNoticed(s: Sys) {
    forall c, p {:trigger NoneMissed(s, c, p)} :: 0 <= c < |s.procs| && 0 <= p < |s.procs| ==> NoneMissed(s, c, p)
  }

  /** None of the first n entries is a zombie child of p. */
  ghost predicate NoZombies(s: Sys, p: nat, n: nat) {
    forall c :: 0 <= c < n && c < |s.procs| ==> !ZombieOf(s.procs[c], p)
  }

  /** What a process holding wait_lock has seen to be so. */
  ghost predicate Seen(s: Sys, i: nat)
    requires InRange(s, i)
  {
    var p, n := s.procs[i], |s.procs|;
    match p.pc
    case Search(j, _) => NoZombies(s, i, j)
    case Inspect(j) => NoZombies(s, i, j)
    case Decide(_) => NoZombies(s, i, n)
    case Drowse => NoZombies(s, i, n)
    case Rouse(c, m, None) => c < m && c != i ==> !Napping(s.procs[c])
    case Look(c, m, None) => (c < m && c != i ==> !Napping(s.procs[c])) && m != i
    case Look(c, m, Some(_)) => m != i
    case LockSelf => p.parent.Some? && p.parent.value != i ==> !Napping(s.procs[p.parent.value])
    case Die => p.parent.Some? && p.parent.value != i ==> !Napping(s.procs[p.parent.value])
    case _ => true
  }

  ghost predicate AllSeen(s: Sys)
    requires Locals(s)
  {
    forall i {:trigger s.procs[i]} :: 0 <= i < |s.procs| ==> Seen(s, i)
  }

  ghost predicate Inv(s: Sys) {
    Locals(s) && WaitLock(s) && ProcLocks(s) && Makers(s) && AllSeen(s) && AllNoticed(s)
  }

  // ---- the invariant over one step: locks ----

  lemma At(s: Sys, i: nat)
    requires Locals(s) && i < |s.procs|
    ensures InRange(s, i) && Local(s, i)
  {
  }

  /** What the locks say about the entry m that a step of i may change. */
  predicate Target(s: Sys, i: nat, m: nat)
    requires i < |s.procs| && m < |s.procs|
  {
    var pc, q := s.procs[i].pc, s.procs[m];
    && (Forks(pc, m) ==> q.pc.Unborn? && q.state == USED && m != i)
    && (pc.Inspect? && pc.j == m && m != i ==> !OwnLock(q.pc))
    && (pc.Look? && pc.m == m && m != i ==> !OwnLock(q.pc))
  }

  lemma Targets(s: Sys, i: nat, m: nat)
    requires Locals(s) && ProcLocks(s) && Makers(s) && i < |s.procs| && m < |s.procs|
    ensures Target(s, i, m) && InRange(s, i) && InRange(s, m) && Local(s, i) && Local(s, m)
  {
    At(s, i);
    At(s, m);
    assert HoldsProc(s.procs[i].pc, i, m) <==> s.procs[m].lock == Some(i);
    assert HoldsProc(s.procs[m].pc, m, m) <==> s.procs[m].lock == Some(m);
    assert Forks(s.procs[i].pc, m) <==> s.procs[m].maker == Some(i);
  }

  lemma WaitLockAfter(s: Sys, i: nat, ch: Choice, m: nat)
    requires InRange(s, i) && Enabled(s, i, ch) && m < |s.procs| && Local(s, i) && Local(s, m) && Target(s, i, m)
    requires HoldsWait(s.procs[m].pc) <==> s.holder == Some(m)
    requires HoldsWait(s.procs[i].pc) <==> s.holder == Some(i)
    ensures HoldsWait(ProcAfter(s, i, ch, m).pc) <==> HolderAfter(s, i) == Some(m)
  {
  }

  lemma StepWaitLock(s: Sys, i: nat, ch: Choice)
    requires Inv(s) && i < |s.procs| && Enabled(s, i, ch)
    ensures WaitLock(Step(s, i, ch))
  {
    hide Proper, Step, Fits, Enabled, HoldsWait, AllSeen, AllNoticed;
    forall m | 0 <= m < |s.procs| ensures HoldsWait(ProcAfter(s, i, ch, m).pc) <==> HolderAfter(s, i) == Some(m) {
      Targets(s, i, m);
      WaitLockAfter(s, i, ch, m);
    }
  }

  lemma MoverLock(s: Sys, i: nat, ch: Choice, j: nat)
    requires InRange(s, i) && Enabled(s, i, ch) && j < |s.procs| && Local(s, i) && Target(s, i, j) && Seen(s, i)
    requires HoldsProc(s.procs[i].pc, i, j) <==> s.procs[j].lock == Some(i)
    ensures HoldsProc(Mover(s, i, ch).pc, i, j) <==> ProcAfter(s, i, ch, j).lock == Some(i)
  {
  }

  lemma OtherLock(s: Sys, i: nat, ch: Choice, m: nat, j: nat)
    requires InRange(s, i) && Enabled(s, i, ch) && m < |s.procs| && j < |s.procs| && m != i
    requires Local(s, m) && Target(s, i, m)
    requires HoldsProc(s.procs[m].pc, m, j) <==> s.procs[j].lock == Some(m)
    requires HoldsProc(s.procs[i].pc, i, j) <==> s.procs[j].lock == Some(i)
    ensures HoldsProc(Other(s, i, ch, m).pc, m, j) <==> ProcAfter(s, i, ch, j).lock == Some(m)
  {
  }

  lemma StepProcLocks(s: Sys, i: nat, ch: Choice)
    requires Inv(s) && i < |s.procs| && Enabled(s, i, ch)
    ensures ProcLocks(Step(s, i, ch))
  {
    assert Seen(s, i);
    hide Proper, Step, Fits, Enabled, HoldsProc, AllSeen, AllNoticed, Seen;
    forall m, j | 0 <= m < |s.procs| && 0 <= j < |s.procs|
      ensures HoldsProc(ProcAfter(s, i, ch, m).pc, m, j) <==> ProcAfter(s, i, ch, j).lock == Some(m)
    {
      Targets(s, i, m);
      Targets(s, i, j);
      if m == i { MoverLock(s, i, ch, j); } else { OtherLock(s, i, ch, m, j); }
    }
  }

  lemma MakerAfter(s: Sys, i: nat, ch: Choice, m: nat, j: nat)
    requires InRange(s, i) && Enabled(s, i, ch) && m < |s.procs| && j < |s.procs|
    requires Local(s, i) && Local(s, m) && Local(s, j) && Target(s, i, m) && Target(s, i, j)
    requires Forks(s.procs[m].pc, j) <==> s.procs[j].maker == Some(m)
    requires Forks(s.procs[i].pc, j) <==> s.procs[j].maker == Some(i)
    ensures Forks(ProcAfter(s, i, ch, m).pc, j) <==> ProcAfter(s, i, ch, j).maker == Some(m)
  {
  }

  lemma StepMakers(s: Sys, i: nat, ch: Choice)
    requires Inv(s) && i < |s.procs| && Enabled(s, i, ch)
    ensures Makers(Step(s, i, ch))
  {
    hide Proper, Step, Fits, Enabled, Forks, AllSeen, AllNoticed;
    forall m, j | 0 <= m < |s.procs| && 0 <= j < |s.procs|
      ensures Forks(ProcAfter(s, i, ch, m).pc, j) <==> ProcAfter(s, i, ch, j).maker == Some(m)
    {
      Targets(s, i, m);
      Targets(s, i, j);
      MakerAfter(s, i, ch, m, j);
    }
  }

  /** Two processes never hold wait_lock. */
  lemma OneHolder(s: Sys, i: nat, m: nat)
    requires WaitLock(s) && i < |s.procs| && m < |s.procs| && i != m
    ensures !(HoldsWait(s.procs[i].pc) && HoldsWait(s.procs[m].pc))
  {
    assert HoldsWait(s.procs[i].pc) <==> s.holder == Some(i);
    assert HoldsWait(s.procs[m].pc) <==> s.holder == Some(m);
  }

  lemma MoverProper(s: Sys, i: nat, ch: Choice)
    requires InRange(s, i) && Enabled(s, i, ch) && Local(s, i) && Seen(s, i) && Target(s, i, i)
    ensures Fits(Mover(s, i, ch), |s.procs|) && Proper(Mover(s, i, ch), i, s.init)
  {
  }

  lemma OtherProper(s: Sys, i: nat, ch: Choice, m: nat)
    requires InRange(s, i) && Enabled(s, i, ch) && InRange(s, m) && Local(s, m) && Target(s, i, m) && m != i
    requires HoldsWait(s.procs[i].pc) ==> !HoldsWait(s.procs[m].pc)
    ensures Fits(Other(s, i, ch, m), |s.procs|) && Proper(Other(s, i, ch, m), m, s.init)
  {
  }

  lemma StepLocals(s: Sys, i: nat, ch: Choice)
    requires Inv(s) && i < |s.procs| && Enabled(s, i, ch)
    ensures Locals(Step(s, i, ch))
  {
    assert Seen(s, i);
    At(s, i);
    hide Step, Fits, Proper, Enabled, AllSeen, AllNoticed, Seen, HoldsWait, Mover, Other, Target;
    forall m | 0 <= m < |s.procs| ensures InRange(Step(s, i, ch), m) && Local(Step(s, i, ch), m) {
      Targets(s, i, m);
      if m != i {
        OneHolder(s, i, m);
        OtherProper(s, i, ch, m);
      } else {
        MoverProper(s, i, ch);
      }
      assert Step(s, i, ch).procs[m] == ProcAfter(s, i, ch, m);
    }
  }

  // ---- the invariant over one step: nobody sleeps through an exit ----

  /** Nobody starts to nap but a process that holds wait_lock and has found no zombie child;
      wakeup ends the nap of the process it looks for. */
  lemma NappingAfter(s: Sys, i: nat, ch: Choice, m: nat)
    requires InRange(s, i) && Enabled(s, i, ch) && m < |s.procs| && Local(s, i) && Local(s, m) && Target(s, i, m)
    ensures Napping(ProcAfter(s, i, ch, m)) ==> Napping(s.procs[m]) || (m == i && s.procs[i].pc.Drowse?)
    ensures s.procs[i].pc.Look? && s.procs[i].pc.m == m == s.procs[i].pc.c && m != i ==> !Napping(ProcAfter(s, i, ch, m))
  {
  }

  /** A zombie child appears only by an exit or by reparent. */
  lemma ZombieAfter(s: Sys, i: nat, ch: Choice, c: nat, p: nat)
    requires InRange(s, i) && Enabled(s, i, ch) && c < |s.procs| && Local(s, i) && Local(s, c) && Target(s, i, c)
    ensures ZombieOf(ProcAfter(s, i, ch, c), p) ==>
              || ZombieOf(s.procs[c], p)
              || (c == i && s.procs[i].pc.Die? && s.procs[i].parent == Some(p))
              || (s.procs[i].pc == Adopt(c) && p == s.init && s.procs[c].parent == Some(i))
  {
  }

  ghost predicate NapFact(s: Sys, s': Sys, i: nat, m: nat)
    requires i < |s.procs| == |s'.procs| && m < |s.procs|
  {
    && (Napping(s'.procs[m]) ==> Napping(s.procs[m]) || (m == i && s.procs[i].pc.Drowse?))
    && (s.procs[i].pc.Look? && s.procs[i].pc.m == m == s.procs[i].pc.c && m != i ==> !Napping(s'.procs[m]))
  }

  ghost predicate ZombieFact(s: Sys, s': Sys, i: nat, c: nat, p: nat)
    requires i < |s.procs| == |s'.procs| && c < |s.procs|
  {
    ZombieOf(s'.procs[c], p) ==>
      || ZombieOf(s.procs[c], p)
      || (c == i && s.procs[i].pc.Die? && s.procs[i].parent == Some(p))
      || (s.procs[i].pc == Adopt(c) && p == s.init && s.procs[c].parent == Some(i))
  }

  lemma StepNap(s: Sys, i: nat, ch: Choice, m: nat)
    requires Inv(s) && i < |s.procs| && Enabled(s, i, ch) && m < |s.procs|
    ensures NapFact(s, Step(s, i, ch), i, m)
  {
    Targets(s, i, m);
    NappingAfter(s, i, ch, m);
    hide Proper, Step, Fits, Enabled, AllSeen, AllNoticed, ProcAfter;
  }

  lemma StepZombie(s: Sys, i: nat, ch: Choice, c: nat, p: nat)
    requires Inv(s) && i < |s.procs| && Enabled(s, i, ch) && c < |s.procs|
    ensures ZombieFact(s, Step(s, i, ch), i, c, p)
  {
    Targets(s, i, c);
    ZombieAfter(s, i, ch, c, p);
    hide Proper, Step, Fits, Enabled, AllSeen, AllNoticed, ProcAfter;
  }

  /** Only the holder of wait_lock makes zombies or new naps. */
  lemma OnlyHolder(s: Sys, i: nat, ch: Choice, c: nat, p: nat)
    requires Inv(s) && i < |s.procs| && Enabled(s, i, ch) && c < |s.procs| && p < |s.procs|
    requires !HoldsWait(s.procs[i].pc)
    ensures ZombieOf(Step(s, i, ch).procs[c], p) ==> ZombieOf(s.procs[c], p)
    ensures Napping(Step(s, i, ch).procs[p]) ==> Napping(s.procs[p])
  {
    StepZombie(s, i, ch, c, p);
    StepNap(s, i, ch, p);
    hide Proper, Step, Fits, Enabled, AllSeen, AllNoticed, Napping, ZombieOf;
  }

  // ---- no exit goes unnoticed ----

  lemma NoticedAfter(s: Sys, i: nat, ch: Choice, c: nat, p: nat)
    requires Inv(s) && i < |s.procs| && Enabled(s, i, ch) && c < |s.procs| && p < |s.procs|
    requires HoldsWait(s.procs[i].pc)
    ensures NoneMissed(Step(s, i, ch), c, p)
  {
    hide AllSeen, AllNoticed, Other, Fits, Locals, WaitLock, ProcLocks, Makers;
    WhileHeld(s, i, c, p);
    StepZombie(s, i, ch, c, p);
    StepNap(s, i, ch, p);
    Targets(s, i, p);
    assert Step(s, i, ch).procs[i] == Mover(s, i, ch);
    HoldersAwake(s, i);
  }

  /** What is known while i has wait_lock. */
  lemma WhileHeld(s: Sys, i: nat, c: nat, p: nat)
    requires Inv(s) && i < |s.procs| && c < |s.procs| && p < |s.procs| && HoldsWait(s.procs[i].pc)
    ensures s.holder == Some(i) && InRange(s, i) && Seen(s, i) && NoneMissed(s, c, p)
  {
    At(s, i);
    hide Fits, ProcLocks, Makers;
  }

  lemma HoldersAwake(s: Sys, i: nat)
    requires Locals(s) && i < |s.procs|
    ensures HoldsWait(s.procs[i].pc) && Napping(s.procs[i]) ==> s.procs[i].pc.LetGo?
  {
  }

  /** A process that holds wait_lock keeps it while others move. */
  lemma HolderStays(s: Sys, i: nat, ch: Choice, h: nat)
    requires Inv(s) && i < |s.procs| && Enabled(s, i, ch) && h < |s.procs| && h != i && HoldsWait(s.procs[h].pc)
    ensures !HoldsWait(s.procs[i].pc) && !Takes(s.procs[i].pc)
    ensures Step(s, i, ch).procs[h].pc == s.procs[h].pc && Step(s, i, ch).procs[h].parent == s.procs[h].parent
    ensures Step(s, i, ch).holder == s.holder == Some(h)
  {
    OneHolder(s, i, h);
    assert HoldsWait(s.procs[h].pc) <==> s.holder == Some(h);
    Targets(s, i, h);
    hide AllSeen, AllNoticed, Proper, Fits, Step;
  }

  lemma NoticedStill(s: Sys, i: nat, ch: Choice, c: nat, p: nat)
    requires Inv(s) && i < |s.procs| && Enabled(s, i, ch) && c < |s.procs| && p < |s.procs|
    requires !HoldsWait(s.procs[i].pc)
    ensures NoneMissed(Step(s, i, ch), c, p)
  {
    assert NoneMissed(s, c, p);
    OnlyHolder(s, i, ch, c, p);
    if s.holder.Some? && s.holder.value < |s.procs| && StillToRouse(s.procs[s.holder.value].pc, p) {
      HolderStays(s, i, ch, s.holder.value);
    }
    hide AllSeen, AllNoticed, Step, ZombieOf, Napping, Fits, Proper, Enabled;
  }

  lemma StepNoticed(s: Sys, i: nat, ch: Choice)
    requires Inv(s) && i < |s.procs| && Enabled(s, i, ch)
    ensures AllNoticed(Step(s, i, ch))
  {
    var s' := Step(s, i, ch);
    hide Inv, Step, Enabled, HoldsWait, NoneMissed;
    forall c: nat, p: nat | c < |s.procs| && p < |s.procs| ensures NoneMissed(s', c, p) {
      if HoldsWait(s.procs[i].pc) { NoticedAfter(s, i, ch, c, p); } else { NoticedStill(s, i, ch, c, p); }
    }
  }

  // ---- what the holder has seen stays so ----

  lemma NoZombiesStay(s: Sys, i: nat, ch: Choice, p: nat, n: nat)
    requires Inv(s) && i < |s.procs| && Enabled(s, i, ch) && p < |s.procs| && NoZombies(s, p, n)
    requires !s.procs[i].pc.Die? && !s.procs[i].pc.Adopt?
    ensures NoZombies(Step(s, i, ch), p, n)
  {
    forall c | 0 <= c < n && c < |s.procs| ensures !ZombieOf(Step(s, i, ch).procs[c], p) {
      StepZombie(s, i, ch, c, p);
    }
    hide Inv, Step, Enabled, ZombieOf;
  }

  /** What wait finds at one entry. */
  lemma SearchFurther(s: Sys, i: nat, ch: Choice)
    requires Inv(s) && i < |s.procs| && Enabled(s, i, ch)
    requires s.procs[i].pc.Search? || s.procs[i].pc.Inspect?
    requires s.procs[i].pc.j < |s.procs| && !Mover(s, i, ch).pc.LeaveWait? && !Mover(s, i, ch).pc.Inspect?
    ensures NoZombies(Step(s, i, ch), i, s.procs[i].pc.j + 1)
  {
    var j := s.procs[i].pc.j;
    assert Seen(s, i);
    NoZombiesStay(s, i, ch, i, j);
    StepZombie(s, i, ch, j, i);
    hide AllSeen, AllNoticed, Step, Fits, Proper, Other, Locals, WaitLock, ProcLocks, Makers;
  }

  predicate InWait(pc: Pc) { pc.WantWait? || pc.Search? || pc.Inspect? || pc.Decide? || pc.Drowse? }

  predicate InExit(pc: Pc) { pc.Adopt? || pc.Rouse? || pc.Look? || pc.LockSelf? }

  lemma SeenWait(s: Sys, i: nat, ch: Choice)
    requires Inv(s) && i < |s.procs| && Enabled(s, i, ch) && InRange(Step(s, i, ch), i) && InWait(s.procs[i].pc)
    ensures Seen(Step(s, i, ch), i)
  {
    assert Seen(s, i) && InRange(s, i);
    var pc, s' := s.procs[i].pc, Step(s, i, ch);
    assert s'.procs[i] == Mover(s, i, ch);
    if (pc.Search? || pc.Inspect?) && pc.j < |s.procs| {
      if !Mover(s, i, ch).pc.LeaveWait? && !Mover(s, i, ch).pc.Inspect? { SearchFurther(s, i, ch); }
    }
    var n := if pc.Search? || pc.Inspect? then pc.j else |s.procs|;
    if NoZombies(s, i, n) { NoZombiesStay(s, i, ch, i, n); }
    hide AllSeen, AllNoticed, Step, Locals, WaitLock, ProcLocks, Makers, Other, ProcAfter, ZombieOf;
  }

  lemma SeenExit(s: Sys, i: nat, ch: Choice)
    requires Inv(s) && i < |s.procs| && Enabled(s, i, ch) && InRange(Step(s, i, ch), i) && InExit(s.procs[i].pc)
    ensures Seen(Step(s, i, ch), i)
  {
    assert Seen(s, i) && InRange(s, i) && Local(s, i);
    var pc, s' := s.procs[i].pc, Step(s, i, ch);
    assert s'.procs[i] == Mover(s, i, ch);
    if pc.Rouse? || pc.Look? {
      StepNap(s, i, ch, pc.c);
    } else if s.procs[i].parent.Some? {
      StepNap(s, i, ch, s.procs[i].parent.value);
    }
    hide AllSeen, AllNoticed, Step, Locals, WaitLock, ProcLocks, Makers, Other, ProcAfter, Napping, ZombieOf;
  }

  lemma SeenAfterMover(s: Sys, i: nat, ch: Choice)
    requires Inv(s) && i < |s.procs| && Enabled(s, i, ch) && InRange(Step(s, i, ch), i)
    ensures Seen(Step(s, i, ch), i)
  {
    var pc, s' := s.procs[i].pc, Step(s, i, ch);
    assert s'.procs[i] == Mover(s, i, ch);
    if InWait(pc) {
      SeenWait(s, i, ch);
    } else if InExit(pc) {
      SeenExit(s, i, ch);
    }
    hide AllSeen, AllNoticed, Step, Locals, WaitLock, ProcLocks, Makers, Other, ProcAfter, NoZombies, Napping;
  }

  lemma SeenAfterOther(s: Sys, i: nat, ch: Choice, m: nat)
    requires Inv(s) && i < |s.procs| && Enabled(s, i, ch) && m < |s.procs| && m != i && InRange(Step(s, i, ch), m)
    ensures Seen(Step(s, i, ch), m)
  {
    assert Seen(s, m) && InRange(s, m) && Local(s, m);
    var p, s' := s.procs[m], Step(s, i, ch);
    if HoldsWait(p.pc) {
      HolderStays(s, i, ch, m);
      var n := if p.pc.Search? || p.pc.Inspect? then p.pc.j else |s.procs|;
      if NoZombies(s, m, n) { NoZombiesStay(s, i, ch, m, n); }
      if p.pc.Rouse? || p.pc.Look? {
        StepNap(s, i, ch, p.pc.c);
      } else if p.parent.Some? {
        StepNap(s, i, ch, p.parent.value);
      }
    } else {
      Targets(s, i, m);
      assert !HoldsWait(s'.procs[m].pc);
    }
    hide AllSeen, AllNoticed, Step, Locals, WaitLock, ProcLocks, Makers, Mover, Other, ProcAfter, Napping, ZombieOf;
  }

  lemma StepSeen(s: Sys, i: nat, ch: Choice)
    requires Inv(s) && i < |s.procs| && Enabled(s, i, ch) && Locals(Step(s, i, ch))
    ensures AllSeen(Step(s, i, ch))
  {
    var s' := Step(s, i, ch);
    hide Inv, Step, Enabled, Seen;
    forall m | 0 <= m < |s.procs| ensures Seen(s', m) {
      At(s', m);
      if m == i { SeenAfterMover(s, i, ch); } else { SeenAfterOther(s, i, ch, m); }
    }
  }

  lemma KillOff(s: Sys, j: nat)
    requires Inv(s) && CanKill(s, j)
    ensures s.procs[j].pc.Off?
  {
    At(s, j);
    assert HoldsProc(s.procs[j].pc, j, j) <==> s.procs[j].lock == Some(j);
  }

  lemma KillLocks(s: Sys, j: nat)
    requires Inv(s) && CanKill(s, j)
    ensures var s' := Kill(s, j); Locals(s') && WaitLock(s') && ProcLocks(s') && Makers(s')
  {
    KillOff(s, j);
    forall m | 0 <= m < |s.procs| ensures InRange(Kill(s, j), m) && Local(Kill(s, j), m) { At(s, m); }
    hide HoldsWait, HoldsProc, Forks, Locals;
  }

  lemma KillKeepsInv(s: Sys, j: nat)
    requires Inv(s) && CanKill(s, j)
    ensures Inv(Kill(s, j))
  {
    KillLocks(s, j);
    var s' := Kill(s, j);
    forall m | 0 <= m < |s.procs| ensures Seen(s', m) {
      assert Seen(s, m);
      KillSeen(s, j, m);
    }
    forall c: nat, p: nat | c < |s.procs| && p < |s.procs| ensures NoneMissed(s', c, p) {
      assert NoneMissed(s, c, p);
    }
    hide WaitLock, ProcLocks, Makers, Seen, NoneMissed, Locals, Kill;
  }

  lemma KillSeen(s: Sys, j: nat, m: nat)
    requires CanKill(s, j) && InRange(s, m) && Seen(s, m) && InRange(Kill(s, j), m)
    ensures Seen(Kill(s, j), m)
  {
    forall p: nat, n: nat | NoZombies(s, p, n) ensures NoZombies(Kill(s, j), p, n) {
      assert forall c :: 0 <= c < n && c < |s.procs| ==> !ZombieOf(s.procs[c], p);
    }
    hide NoZombies;
  }

  ghost predicate Next(s: Sys, s': Sys) {
    || (exists i, ch :: InRange(s, i) && Enabled(s, i, ch) && s' == Step(s, i, ch))
    || (exists j :: CanKill(s, j) && s' == Kill(s, j))
  }

  lemma StepKeepsInv(s: Sys, i: nat, ch: Choice)
    requires Inv(s) && i < |s.procs| && Enabled(s, i, ch)
    ensures Inv(Step(s, i, ch))
  {
    StepLocals(s, i, ch);
    StepWaitLock(s, i, ch);
    StepProcLocks(s, i, ch);
    StepMakers(s, i, ch);
    StepSeen(s, i, ch);
    StepNoticed(s, i, ch);
    hide Locals, WaitLock, ProcLocks, Makers, AllSeen, AllNoticed, Step, Enabled;
  }

  // ---- children of the departed ----

  /** Past the end of reparent, and until the entry is used again. */
  predicate Gone(pc: Pc) {
    || pc.Unborn? || pc.LockSelf? || pc.Die? || pc.LeaveExit? || pc.SwitchOut? || pc.Dead?
    || ((pc.Rouse? || pc.Look?) && pc.back == None)
  }

  predicate Exiting(pc: Pc) { pc.WantExit? || pc.Adopt? || pc.Rouse? || pc.Look? || Gone(pc) }

  /** reparent has dealt with entry c, or everything. */
  predicate PastKid(pc: Pc, c: nat) {
    Gone(pc) || (pc.Adopt? && c < pc.j) || ((pc.Rouse? || pc.Look?) && pc.back.Some? && c <= pc.back.value)
  }

  predicate KidKept(s: Sys, p: nat, c: nat)
    requires p < |s.procs| && c < |s.procs|
  {
    PastKid(s.procs[p].pc, c) ==> s.procs[c].parent != Some(p)
  }

  ghost predicate Adopted(s: Sys) {
    && s.init < |s.procs| && !Exiting(s.procs[s.init].pc)
    && forall p, c {:trigger KidKept(s, p, c)} :: 0 <= p < |s.procs| && 0 <= c < |s.procs| ==> KidKept(s, p, c)
  }

  lemma KidMover(s: Sys, i: nat, ch: Choice, c: nat)
    requires InRange(s, i) && Enabled(s, i, ch) && Local(s, i) && c < |s.procs| && KidKept(s, i, c)
    requires i == s.init ==> !Exiting(s.procs[i].pc)
    ensures PastKid(Mover(s, i, ch).pc, c) ==> ProcAfter(s, i, ch, c).parent != Some(i)
  {
  }

  lemma KidOther(s: Sys, i: nat, ch: Choice, p: nat, c: nat)
    requires InRange(s, i) && Enabled(s, i, ch) && p < |s.procs| && c < |s.procs| && p != i
    requires KidKept(s, p, c) && Target(s, i, p) && (p == s.init ==> !Exiting(s.procs[p].pc))
    requires s.procs[i].pc.Inspect? && s.procs[i].pc.j == p && s.procs[p].state == ZOMBIE ==> s.procs[p].pc.Dead?
    ensures PastKid(Other(s, i, ch, p).pc, c) ==> ProcAfter(s, i, ch, c).parent != Some(p)
  {
  }

  lemma KidAfter(s: Sys, i: nat, ch: Choice, p: nat, c: nat)
    requires Inv(s) && Adopted(s) && i < |s.procs| && Enabled(s, i, ch) && p < |s.procs| && c < |s.procs|
    ensures KidKept(Step(s, i, ch), p, c)
  {
    assert KidKept(s, p, c);
    Targets(s, i, p);
    if p == i { KidMover(s, i, ch, c); } else { KidOther(s, i, ch, p, c); }
    hide AllSeen, AllNoticed, Locals, WaitLock, ProcLocks, Makers, Step, Fits, Adopted, Mover, Other, PastKid;
  }

  lemma InitAfter(s: Sys, i: nat, ch: Choice)
    requires InRange(s, i) && Enabled(s, i, ch) && Local(s, s.init) && !Exiting(s.procs[s.init].pc)
    ensures !Exiting(ProcAfter(s, i, ch, s.init).pc)
  {
  }

  lemma InitStays(s: Sys, i: nat, ch: Choice)
    requires Inv(s) && Adopted(s) && i < |s.procs| && Enabled(s, i, ch)
    ensures !Exiting(Step(s, i, ch).procs[s.init].pc)
  {
    hide AllSeen, AllNoticed, WaitLock, ProcLocks, Makers, Fits, Proper, ProcAfter, Exiting;
    At(s, s.init);
    InitAfter(s, i, ch);
  }

  lemma NextKeeps(s: Sys, s': Sys)
    requires Inv(s) && Adopted(s) && Next(s, s')
    ensures Inv(s') && Adopted(s')
  {
    hide Inv, Step, Kill;
    if i, ch :| InRange(s, i) && Enabled(s, i, ch) && s' == Step(s, i, ch) {
      StepKeepsInv(s, i, ch);
      InitStays(s, i, ch);
      forall p: nat, c: nat | p < |s.procs| && c < |s.procs| ensures KidKept(s', p, c) { KidAfter(s, i, ch, p, c); }
      hide Adopted, KidKept;
      AdoptedAgain(s', |s.procs|);
    } else {
      var j :| CanKill(s, j) && s' == Kill(s, j);
      KillKeepsInv(s, j);
      KillAdopted(s, j);
    }
  }

  lemma AdoptedAgain(s: Sys, n: nat)
    requires |s.procs| == n && s.init < n && !Exiting(s.procs[s.init].pc)
    requires forall p: nat, c: nat {:trigger KidKept(s, p, c)} :: p < n && c < n ==> KidKept(s, p, c)
    ensures Adopted(s)
  {
  }

  lemma KillAdopted(s: Sys, j: nat)
    requires Adopted(s) && CanKill(s, j)
    ensures Adopted(Kill(s, j))
  {
    forall p: nat, c: nat | p < |s.procs| && c < |s.procs| ensures KidKept(Kill(s, j), p, c) { assert KidKept(s, p, c); }
  }

  // ---- whole runs ----

  /** Only init exists. */
  ghost predicate Start(s: Sys) {
    && s.init < |s.procs| && s.holder == None
    && forall m :: 0 <= m < |s.procs| ==>
         s.procs[m] == if m == s.init then Proc(Ready, RUNNING, None, None, None, None) else Freed()
  }

  ghost predicate Reaches(run: seq<Sys>) {
    run != [] && Start(run[0]) && forall n :: 0 <= n < |run| - 1 ==> Next(run[n], run[n + 1])
  }

  lemma StartInv(s: Sys)
    requires Start(s)
    ensures Inv(s) && Adopted(s)
  {
    forall m | 0 <= m < |s.procs|
      ensures InRange(s, m) && Local(s, m) && Seen(s, m) && s.procs[m].state != ZOMBIE && s.procs[m].parent == None
    {
      assert s.procs[m] == if m == s.init then Proc(Ready, RUNNING, None, None, None, None) else Freed();
    }
    StartLocks(s);
    forall c: nat, p: nat | c < |s.procs| && p < |s.procs| ensures NoneMissed(s, c, p) && KidKept(s, p, c) { }
    hide Start, Fits, Proper, Seen, NoneMissed, KidKept, WaitLock, ProcLocks, Makers;
  }

  lemma StartLocks(s: Sys)
    requires Start(s)
    ensures WaitLock(s) && ProcLocks(s) && Makers(s) && !Exiting(s.procs[s.init].pc)
  {
    forall m | 0 <= m < |s.procs|
      ensures (s.procs[m].pc == Ready || s.procs[m].pc == Unborn) && s.procs[m].lock == None && s.procs[m].maker == None
    {
      assert s.procs[m] == if m == s.init then Proc(Ready, RUNNING, None, None, None, None) else Freed();
    }
  }

  lemma {:induction false} RunKeeps(run: seq<Sys>, n: nat)
    requires Reaches(run) && n < |run|
    ensures Inv(run[n]) && Adopted(run[n])
  {
    if n == 0 {
      StartInv(run[0]);
    } else {
      hide Inv, Adopted, Next, Start;
      RunKeeps(run, n - 1);
      NextKeeps(run[n - 1], run[n]);
    }
  }

  /** No exit is slept through: in every reachable state where wait_lock is free, no parent
      asleep in wait has a child that has exited, its own or one it inherited by reparent. */
  lemma NoLostExit(run: seq<Sys>, p: nat, c: nat)
    requires Reaches(run) && run[|run| - 1].holder == None
    ensures var s := run[|run| - 1];
            p < |s.procs| && c < |s.procs| && s.procs[p].state == SLEEPING && s.procs[p].chan == Some(p) ==>
              !(s.procs[c].parent == Some(p) && s.procs[c].state == ZOMBIE)
  {
    RunKeeps(run, |run| - 1);
    var s := run[|run| - 1];
    if p < |s.procs| && c < |s.procs| {
      At(s, p);
      assert NoneMissed(s, c, p);
    }
    hide AllSeen, ProcLocks, Makers, WaitLock, Adopted;
  }

  /** No orphans: whoever has exited, or no longer exists, is nobody's parent. */
  lemma NoOrphans(run: seq<Sys>, p: nat, c: nat)
    requires Reaches(run)
    ensures var s := run[|run| - 1];
            p < |s.procs| && c < |s.procs| && s.procs[c].parent == Some(p) ==>
              s.procs[p].state !in {UNUSED, USED, ZOMBIE}
  {
    RunKeeps(run, |run| - 1);
    var s := run[|run| - 1];
    if p < |s.procs| && c < |s.procs| {
      At(s, p);
      assert KidKept(s, p, c);
    }
    hide AllSeen, ProcLocks, Makers, WaitLock, AllNoticed;
  }
}
