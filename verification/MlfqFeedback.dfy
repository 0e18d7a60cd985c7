/** The feedback of the multi-level feedback queue: who falls to which level, and when, under
    the scheduler of Lab3/xv6-riscv/kernel/proc.c. Level 0 is served first. */
module MlfqFeedback {
  import opened Mlfq
  import opened MlfqWait

  /** The tick of s gives the CPU to m. */
  ghost predicate Gets(s: Sched, m: nat) {
    Dispatches(s) && Pick(s) == m
  }

  /** No boost comes with this tick. */
  ghost predicate Calm(s: Sched, e: Event)
    requires s.last < |s.proc|
  {
    Tick(s, e).cant == s.cant
  }

  /** Among equals the entry under the cursor goes first, and after it the lowest one. */
  lemma {:induction false} TieBreak(proc: seq<Proc>, p: nat, n: nat)
    requires p < |proc| && n <= |proc| && proc[p].state == RUNNABLE
    ensures var m := Choose(proc, p, n);
      m != p ==>
        && Before(proc[m], proc[p])
        && forall q :: 0 <= q < m && proc[q].state == RUNNABLE ==> Before(proc[m], proc[q])
  {
    if n > 0 {
      TieBreak(proc, p, n - 1);
      var m := Choose(proc, p, n - 1);
      assert Least(proc, m, n - 1);
    }
  }

  /** The process that had the CPU: one level down if the timer took it away, and only then. */
  lemma Feedback(s: Sched, e: Event, m: nat)
    requires Inv(s) && GoodPrio(s) && Gets(s, m) && Calm(s, e)
    ensures var q := Tick(s, e).proc[m];
      match e.how
      case Yield =>
        && q.state == RUNNABLE
        && (s.proc[m].prio == 0 ==> q.prio == 1)
        && (s.proc[m].prio == 1 ==> q.prio == 2)
        && (s.proc[m].prio == 2 ==> q.prio == 2)
      case Sleep => q.state == SLEEPING && q.prio == s.proc[m].prio
      case Exit => q.state == ZOMBIE && q.prio == s.proc[m].prio
  {
  }

  /** All others keep their level and what they have run; the sleepers among those woken
      become runnable, and nobody else changes state. */
  lemma Bystander(s: Sched, e: Event, q: nat)
    requires Inv(s) && q < |s.proc| && !Gets(s, q)
    ensures var (was, now) := (s.proc[q], Tick(s, e).proc[q]);
      && now.times == was.times
      && (Calm(s, e) ==> now.prio == was.prio)
      && now.state == if was.state == SLEEPING && q in e.woken then RUNNABLE else was.state
  {
  }

  /** The boost comes exactly when the chosen process reaches cant_proc runs; it lifts all to
      level 0 and lets 300 more runs pass before the next. */
  lemma BoostStep(s: Sched, e: Event)
    requires Inv(s)
    ensures Calm(s, e) <==> (Dispatches(s) ==> s.proc[Pick(s)].times + 1 < s.cant)
    ensures !Calm(s, e) ==>
      && Tick(s, e).cant == s.cant + 300 && Tick(s, e).p > |s.proc|
      && forall q :: 0 <= q < |s.proc| ==> Tick(s, e).proc[q].prio == 0
  {
  }

  lemma CantGrows(s: Sched, e: Event)
    requires Inv(s)
    ensures Tick(s, e).cant >= s.cant
  {
    BoostStep(s, e);
  }

  lemma {:induction false} RunGrows(s: Sched, es: seq<Event>)
    requires Inv(s)
    ensures Inv(Run(s, es)) && Run(s, es).cant >= s.cant
    decreases |es|
  {
    if es != [] {
      TickKeepsInv(s, es[0]);
      CantGrows(s, es[0]);
      RunGrows(Tick(s, es[0]), es[1..]);
    }
  }

  /** How often the timer takes the CPU away from m in a run. */
  ghost function Yields(s: Sched, es: seq<Event>, m: nat): nat
    requires s.last < |s.proc|
    decreases |es|
  {
    if es == [] then 0
    else (if Gets(s, m) && es[0].how.Yield? then 1 else 0) + Yields(Tick(s, es[0]), es[1..], m)
  }

  lemma OneLevel(s: Sched, e: Event, m: nat)
    requires Inv(s) && GoodPrio(s) && m < |s.proc| && Calm(s, e)
    ensures var y := if Gets(s, m) && e.how.Yield? then 1 else 0;
      Tick(s, e).proc[m].prio == if s.proc[m].prio + y < 2 then s.proc[m].prio + y else 2
  {
    assert 0 <= s.proc[m].prio < 3;
    if Gets(s, m) { Feedback(s, e, m); } else { Bystander(s, e, m); }
  }

  /** Between two boosts a process sinks by one level for each time the timer took the CPU
      from it, down to level 2: from level 0, k yields lead to level min(k, 2). */
  lemma {:induction false} Sinks(s: Sched, es: seq<Event>, m: nat)
    requires Inv(s) && GoodPrio(s) && m < |s.proc| && Run(s, es).cant == s.cant
    ensures var y := Yields(s, es, m);
      Run(s, es).proc[m].prio == if s.proc[m].prio + y < 2 then s.proc[m].prio + y else 2
    ensures GoodPrio(Run(s, es))
    decreases |es|
  {
    assert 0 <= s.proc[m].prio < 3;
    if es != [] {
      var s' := Tick(s, es[0]);
      TickKeepsInv(s, es[0]);
      TickKeepsPrio(s, es[0]);
      CantGrows(s, es[0]);
      RunGrows(s', es[1..]);
      OneLevel(s, es[0], m);
      Sinks(s', es[1..], m);
    }
  }

  /** Who loses the CPU above the last level is not chosen again before the next boost as long
      as somebody is runnable at the level it had. */
  lemma YielderWaits(s: Sched, es: seq<Event>, m: nat, q: nat)
    requires Inv(s) && GoodPrio(s) && Gets(s, m) && s.proc[m].prio < 2
    requires es != [] && es[0].how.Yield? && Run(s, es).cant == s.cant
    requires Waiting(Run(s, es), q) && Run(s, es).proc[q].prio == s.proc[m].prio
    ensures !Gets(Run(s, es), m)
  {
    var t := Run(s, es);
    Sinks(s, es, m);
    assert Yields(s, es, m) >= 1;
    if Dispatches(t) { assert !Before(t.proc[q], t.proc[Pick(t)]); }
  }
}
