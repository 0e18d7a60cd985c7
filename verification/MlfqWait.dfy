/** How long a runnable process waits under the scheduler of Lab3/xv6-riscv/kernel/proc.c.

    Lab3/Informe.md:132-137 claims that starvation cannot happen. Here the set of processes is
    fixed, and the bound is what the boost and the choice give; MlfqFamily lets processes come
    and go. */
module MlfqWait {
  import opened Mlfq

  /** Nobody has run as often as the next boost needs. */
  ghost predicate Inv(s: Sched) {
    s.last < |s.proc| && forall q :: 0 <= q < |s.proc| ==> s.proc[q].times < s.cant
  }

  lemma StartInv(proc: seq<Proc>)
    requires proc != [] && forall q :: 0 <= q < |proc| ==> proc[q].times == 0
    ensures Inv(Start(proc))
  {
  }

  /** After every check all times_exec are below cant_proc: each boost raises it far enough,
      and a check on an old maxproc never fires. */
  lemma TickKeepsInv(s: Sched, e: Event)
    requires Inv(s)
    ensures Inv(Tick(s, e))
    ensures !Dispatches(s) ==> Tick(s, e).cant == s.cant
  {
    TickCant(s, e);
    forall q | 0 <= q < |s.proc| ensures Tick(s, e).proc[q].times < Tick(s, e).cant {
      TickTimes(s, e, q);
    }
    hide Tick, Choose, Least, Dispatches, Pick;
  }

  lemma TickCant(s: Sched, e: Event)
    requires Inv(s)
    ensures Tick(s, e).cant >= s.cant && (!Dispatches(s) ==> Tick(s, e).cant == s.cant)
    ensures Dispatches(s) ==> s.proc[Pick(s)].times + 1 < Tick(s, e).cant
  {
    hide Choose, Least;
  }

  /** Everybody's times_exec after a tick. */
  lemma TickTimes(s: Sched, e: Event, q: nat)
    requires s.last < |s.proc| && q < |s.proc|
    ensures Tick(s, e).proc[q].times == s.proc[q].times + if Dispatches(s) && Pick(s) == q then 1 else 0
  {
    hide Choose, Least;
  }

  ghost predicate Waiting(s: Sched, b: nat) {
    b < |s.proc| && s.proc[b].state == RUNNABLE
  }

  ghost predicate Passed(s: Sched, b: nat) {
    Dispatches(s) ==> Pick(s) != b
  }

  // ---- the bound ----

  function Below(limit: nat, t: nat): nat { if t < limit then limit - t else 0 }

  /** How many runs the first n processes other than b can make before each has `limit`. */
  function Room(proc: seq<Proc>, b: nat, limit: nat, n: nat): nat
    requires n <= |proc|
  {
    if n == 0 then 0
    else Room(proc, b, limit, n - 1) + if n - 1 == b then 0 else Below(limit, proc[n - 1].times)
  }

  lemma {:induction false} RoomSame(proc: seq<Proc>, proc': seq<Proc>, b: nat, limit: nat, n: nat)
    requires n <= |proc| == |proc'|
    requires forall q :: 0 <= q < n && q != b ==> proc'[q].times == proc[q].times
    ensures Room(proc', b, limit, n) == Room(proc, b, limit, n)
  {
    if n > 0 { RoomSame(proc, proc', b, limit, n - 1); }
  }

  /** A run of a process below the limit uses up one. */
  lemma {:induction false} RoomRun(proc: seq<Proc>, proc': seq<Proc>, b: nat, limit: nat, n: nat, m: nat)
    requires m < n <= |proc| == |proc'| && m != b && proc[m].times < limit
    requires forall q :: 0 <= q < n ==> proc'[q].times == if q == m then proc[q].times + 1 else proc[q].times
    ensures Room(proc', b, limit, n) == Room(proc, b, limit, n) - 1
  {
    if m < n - 1 {
      RoomRun(proc, proc', b, limit, n - 1, m);
    } else {
      RoomSame(proc, proc', b, limit, n - 1);
    }
  }

  lemma {:induction false} RoomBound(proc: seq<Proc>, b: nat, limit: nat, n: nat)
    requires n <= |proc|
    ensures Room(proc, b, limit, n) <= Copies(limit, if b < n then n - 1 else n)
  {
    if n > 0 { RoomBound(proc, b, limit, n - 1); }
  }

  /** n times k. */
  function Copies(k: nat, n: nat): nat {
    if n == 0 then 0 else k + Copies(k, n - 1)
  }

  lemma {:induction false} CopiesIsProduct(k: nat, n: nat)
    ensures Copies(k, n) == k * n
  {
    if n > 0 { CopiesIsProduct(k, n - 1); }
  }

  /** How many others may go before b: until the next boost, and then those that have not
      run more often than b. At priority 0 only the latter. */
  function Ahead(s: Sched, b: nat): nat
    requires b < |s.proc|
  {
    var mine := s.proc[b].times + 1;
    if s.proc[b].prio == 0 then Room(s.proc, b, mine, |s.proc|)
    else Room(s.proc, b, s.cant, |s.proc|) + Copies(mine, |s.proc| - 1)
  }

  predicate GoodPrio(s: Sched) {
    forall q :: 0 <= q < |s.proc| ==> 0 <= s.proc[q].prio < NPRIO
  }

  lemma TickKeepsPrio(s: Sched, e: Event)
    requires GoodPrio(s) && s.last < |s.proc|
    ensures GoodPrio(Tick(s, e))
  {
    forall q | 0 <= q < |s.proc| ensures 0 <= Tick(s, e).proc[q].prio < NPRIO {
      assert 0 <= s.proc[q].prio < NPRIO;
      TickPrio(s, e, q);
    }
    hide Tick;
  }

  lemma TickPrio(s: Sched, e: Event, q: nat)
    requires s.last < |s.proc| && q < |s.proc|
    ensures Tick(s, e).proc[q].prio in {0, s.proc[q].prio, Demoted(s.proc[q].prio)}
  {
    hide Choose, Least;
  }

  /** What the waiting process sees of a tick that passes it over. */
  lemma StillWaiting(s: Sched, e: Event, b: nat)
    requires Inv(s) && Waiting(s, b) && Passed(s, b)
    ensures Waiting(Tick(s, e), b) && Tick(s, e).proc[b].times == s.proc[b].times
    ensures Tick(s, e).proc[b].prio == s.proc[b].prio || Tick(s, e).proc[b].prio == 0
  {
  }

  /** A boost, once it comes, puts b at priority 0; without one cant_proc stays. */
  lemma TickBoost(s: Sched, e: Event, b: nat)
    requires Inv(s) && Waiting(s, b) && Passed(s, b)
    ensures Tick(s, e).cant == s.cant || Tick(s, e).proc[b].prio == 0
    ensures Tick(s, e).cant == s.cant ==> Tick(s, e).proc[b].prio == s.proc[b].prio
  {
  }

  /** Whoever is picked over a waiting process of priority 0 has not run more often. */
  lemma PickedIsFair(s: Sched, b: nat)
    requires GoodPrio(s) && Waiting(s, b) && Dispatches(s)
    ensures s.proc[b].prio == 0 ==> s.proc[Pick(s)].prio == 0 && s.proc[Pick(s)].times <= s.proc[b].times
  {
    var m := Pick(s);
    assert !Before(s.proc[b], s.proc[m]);
  }

  /** What a tick that passes b over may do to the quantities of the bound. */
  ghost predicate PassedOver(s: Sched, s': Sched, b: nat) {
    && b < |s.proc| == |s'.proc|
    && (s'.proc[b].prio == s.proc[b].prio || s'.proc[b].prio == 0)
    && (s'.cant == s.cant || (Dispatches(s) && s'.proc[b].prio == 0))
    && (forall q :: 0 <= q < |s.proc| ==>
          s'.proc[q].times == s.proc[q].times + if Dispatches(s) && Pick(s) == q then 1 else 0)
  }

  lemma TickPasses(s: Sched, e: Event, b: nat)
    requires Inv(s) && Waiting(s, b) && Passed(s, b)
    ensures PassedOver(s, Tick(s, e), b)
  {
    StillWaiting(s, e, b);
    TickBoost(s, e, b);
    TickCant(s, e);
    forall q | 0 <= q < |s.proc|
      ensures Tick(s, e).proc[q].times == s.proc[q].times + if Dispatches(s) && Pick(s) == q then 1 else 0
    {
      TickTimes(s, e, q);
    }
    hide Tick, Choose, Pick, Least, Dispatches;
  }

  lemma AheadIdle(s: Sched, s': Sched, b: nat)
    requires PassedOver(s, s', b) && !Dispatches(s)
    ensures Ahead(s', b) <= Ahead(s, b)
  {
    var n, mine := |s.proc|, s.proc[b].times + 1;
    RoomBound(s'.proc, b, mine, n);
    RoomSame(s.proc, s'.proc, b, mine, n);
    RoomSame(s.proc, s'.proc, b, s.cant, n);
    hide Dispatches, Pick, Room, Copies;
  }

  lemma AheadRun(s: Sched, s': Sched, b: nat)
    requires Inv(s) && GoodPrio(s) && Waiting(s, b) && Dispatches(s) && Pick(s) != b && PassedOver(s, s', b)
    ensures Ahead(s', b) <= Ahead(s, b) - 1
  {
    var n, mine, m := |s.proc|, s.proc[b].times + 1, Pick(s);
    PickedIsFair(s, b);
    hide Choose, Pick, Least, Dispatches;
    if s.proc[b].prio == 0 {
      RoomRun(s.proc, s'.proc, b, mine, n, m);
    } else {
      RoomRun(s.proc, s'.proc, b, s.cant, n, m);
      RoomBound(s'.proc, b, mine, n);
    }
    hide Room, Copies;
  }

  /** Every dispatch that passes b over brings b's turn one nearer. */
  lemma AheadDecreases(s: Sched, e: Event, b: nat)
    requires Inv(s) && GoodPrio(s) && Waiting(s, b) && Passed(s, b)
    ensures Ahead(Tick(s, e), b) <= Ahead(s, b) - if Dispatches(s) then 1 else 0
  {
    TickPasses(s, e, b);
    hide Tick, PassedOver, Ahead, Dispatches, Pick;
    if Dispatches(s) { AheadRun(s, Tick(s, e), b); } else { AheadIdle(s, Tick(s, e), b); }
  }

  /** Ticks until the cursor at p reaches b in a table of n, if nothing is dispatched. */
  function Distance(n: nat, p: nat, b: nat): nat
    requires b < n
  {
    if p <= b then b - p else if p <= n then n - p + 1 + b else 1 + b
  }

  lemma TickCursor(s: Sched, e: Event)
    requires Inv(s)
    ensures s.p >= |s.proc| ==> Tick(s, e).p == 0
    ensures s.p < |s.proc| && !Dispatches(s) ==> Tick(s, e).p == s.p + 1
    ensures Dispatches(s) ==> Tick(s, e).p == Pick(s) + 1 || Tick(s, e).p == |s.proc| + 1
  {
    hide Choose, Least;
  }

  lemma CursorMoves(s: Sched, e: Event, b: nat)
    requires Inv(s) && Waiting(s, b) && Passed(s, b)
    ensures Distance(|s.proc|, Tick(s, e).p, b) <= |s.proc|
    ensures !Dispatches(s) ==> Distance(|s.proc|, Tick(s, e).p, b) == Distance(|s.proc|, s.p, b) - 1
  {
    TickCursor(s, e);
    assert s.p == b ==> Dispatches(s);
    hide Tick, Choose, Least, Inv, Dispatches;
  }

  // ---- whole runs ----

  function Run(s: Sched, es: seq<Event>): (s': Sched)
    requires s.last < |s.proc|
    ensures |s'.proc| == |s.proc| && s'.last < |s'.proc|
    decreases |es|
  {
    if es == [] then s else Run(Tick(s, es[0]), es[1..])
  }

  function Count(s: Sched, es: seq<Event>): nat
    requires s.last < |s.proc|
    decreases |es|
  {
    if es == [] then 0 else (if Dispatches(s) then 1 else 0) + Count(Tick(s, es[0]), es[1..])
  }

  /** b is passed over at every tick of the run. */
  ghost predicate PassedBy(s: Sched, es: seq<Event>, b: nat)
    requires s.last < |s.proc|
    decreases |es|
  {
    es != [] ==> Passed(s, b) && PassedBy(Tick(s, es[0]), es[1..], b)
  }

  lemma AheadBound(s: Sched, b: nat)
    requires b < |s.proc|
    ensures Ahead(s, b) <= Room(s.proc, b, s.cant, |s.proc|) + (s.proc[b].times + 1) * (|s.proc| - 1)
  {
    RoomBound(s.proc, b, s.proc[b].times + 1, |s.proc|);
    CopiesIsProduct(s.proc[b].times + 1, |s.proc| - 1);
  }

  /** Bounded waiting, in dispatches: others go first at most Ahead(s, b) times, which is no
      more than the runs left before the next boost and times_exec + 1 for each of them. */
  lemma {:induction false} BoundedWaiting(s: Sched, es: seq<Event>, b: nat)
    requires Inv(s) && GoodPrio(s) && Waiting(s, b) && PassedBy(s, es, b)
    ensures Count(s, es) <= Ahead(s, b)
    ensures Ahead(s, b) <= Room(s.proc, b, s.cant, |s.proc|) + (s.proc[b].times + 1) * (|s.proc| - 1)
    ensures Waiting(Run(s, es), b)
    decreases |es|
  {
    AheadBound(s, b);
    hide Tick, Room, GoodPrio, Waiting, Passed, Dispatches, Ahead, Pick;
    if es != [] {
      TickKeepsInv(s, es[0]);
      TickKeepsPrio(s, es[0]);
      StillWaiting(s, es[0], b);
      AheadDecreases(s, es[0], b);
      BoundedWaiting(Tick(s, es[0]), es[1..], b);
    }
  }

  /** The ticks b may still have to wait: a round of the table for each process ahead of it. */
  function WaitBound(s: Sched, b: nat): nat
    requires b < |s.proc|
  {
    Rounds(|s.proc|, Ahead(s, b), Distance(|s.proc|, s.p, b))
  }

  function Rounds(n: nat, a: nat, d: nat): nat {
    (n + 1) * a + d
  }

  lemma WaitShrinks(s: Sched, e: Event, b: nat)
    requires Inv(s) && GoodPrio(s) && Waiting(s, b) && Passed(s, b)
    ensures WaitBound(Tick(s, e), b) < WaitBound(s, b)
  {
    var s', n := Tick(s, e), |s.proc|;
    AheadDecreases(s, e, b);
    CursorMoves(s, e, b);
    hide Tick, Ahead, Distance, Dispatches, Inv, GoodPrio, Waiting, Passed, Pick, Rounds;
    Budget(Ahead(s, b), Ahead(s', b), n, Distance(n, s.p, b), Distance(n, s'.p, b), Dispatches(s));
  }

  /** No starvation: a runnable process cannot be passed over for more ticks than this. */
  lemma {:induction false} NoStarvation(s: Sched, es: seq<Event>, b: nat)
    requires Inv(s) && GoodPrio(s) && Waiting(s, b) && PassedBy(s, es, b)
    ensures |es| <= WaitBound(s, b)
    decreases |es|
  {
    if es != [] {
      WaitShrinks(s, es[0], b);
      TickKeepsInv(s, es[0]);
      TickKeepsPrio(s, es[0]);
      StillWaiting(s, es[0], b);
      hide Tick, WaitBound, Passed, Waiting, GoodPrio;
      NoStarvation(Tick(s, es[0]), es[1..], b);
    }
  }

  lemma Budget(a: nat, a': nat, n: nat, d: nat, d': nat, dispatched: bool)
    requires d' <= n && (!dispatched ==> d' == d - 1)
    requires a' <= a - if dispatched then 1 else 0
    ensures Rounds(n, a', d') < Rounds(n, a, d)
  {
    CopiesIsProduct(n + 1, a);
    CopiesIsProduct(n + 1, a');
    CopiesMonotone(n + 1, a', if dispatched then a - 1 else a);
  }

  lemma {:induction false} CopiesMonotone(k: nat, m: nat, n: nat)
    requires m <= n
    ensures Copies(k, m) <= Copies(k, n)
  {
    if m < n { CopiesMonotone(k, m, n - 1); }
  }
}
