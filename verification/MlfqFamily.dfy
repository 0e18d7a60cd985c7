/** The scheduler of Lab3/xv6-riscv/kernel/proc.c with processes that come and go: whoever is on the
    CPU may fork, wait for children that have exited, and exit. fork takes an unused entry with
    times_exec 0 and wait's freeproc resets it, so that new processes may go before one that waits,
    again and again. They cannot do so for ever: only the parent of a process that has exited frees
    its entry, and the parent's own times_exec counts the turns it takes to do it. */
module MlfqFamily {
  import opened Mlfq
  import opened MlfqWait

  const INIT: nat := 0          // initproc is the first entry taken

  /** parent is -1 for none. */
  datatype Family = Family(s: Sched, parent: seq<int>)

  /** One turn on the CPU. Whatever the order of its forks and waits, of the entries it took some
      are children now and some are free again. */
  datatype Turn = Turn(forked: set<nat>, reaped: set<nat>, how: Outcome, woken: set<nat>)

  predicate CanTurn(f: Family, m: nat, t: Turn)
    requires |f.parent| == |f.s.proc|
  {
    && (forall i :: i in t.reaped ==> i < |f.parent| && i != m && f.s.proc[i].state == ZOMBIE && f.parent[i] == m)
    && (forall i :: i in t.forked ==> i < |f.parent| && i != m && (f.s.proc[i].state == UNUSED || i in t.reaped))
    && (m == INIT ==> t.how != Exit)       // "init exiting"
  }

  /** Entry i after freeproc and allocproc, or after wakeup, or after the turn itself. */
  function EntryAfter(f: Family, m: nat, t: Turn, i: nat): Proc
    requires i < |f.s.proc|
  {
    var p := if i in t.reaped then Proc(UNUSED, 0, 0) else f.s.proc[i];
    if i == m then Left(p, t.how).(times := p.times + 1)
    else if i in t.forked then p.(state := RUNNABLE, prio := 0)
    else if i in t.woken then Woken(p) else p
  }

  /** exit gives its children to init. */
  function ParentAfter(f: Family, m: nat, t: Turn, i: nat): int
    requires i < |f.parent|
  {
    var p := if i in t.forked then m else if i in t.reaped then -1 else f.parent[i];
    if t.how == Exit && p == m then INIT else p
  }

  function Worked(f: Family, m: nat, t: Turn): (g: Family)
    requires |f.parent| == |f.s.proc|
    ensures |g.parent| == |g.s.proc| == |f.s.proc|
    ensures forall i :: 0 <= i < |f.parent| ==> g.s.proc[i] == EntryAfter(f, m, t, i) && g.parent[i] == ParentAfter(f, m, t, i)
    ensures g.s == f.s.(proc := g.s.proc)
  {
    Family(f.s.(proc := seq(|f.parent|, i requires 0 <= i < |f.parent| => EntryAfter(f, m, t, i))),
           seq(|f.parent|, i requires 0 <= i < |f.parent| => ParentAfter(f, m, t, i)))
  }

  /** One round of the scheduler's loop. */
  function Round(f: Family, t: Turn): (g: Family)
    requires |f.parent| == |f.s.proc| && f.s.last < |f.s.proc|
    ensures |g.parent| == |g.s.proc| == |f.s.proc| && g.s.last < |g.s.proc|
  {
    if f.s.p >= |f.s.proc| then f.(s := f.s.(p := 0, proc := Wake(f.s.proc, t.woken)))
    else if Dispatches(f.s) then
      var m := Pick(f.s);
      var g := Worked(f, m, t);
      g.(s := Checked(g.s.(p := m, last := m)))
    else f.(s := Checked(f.s.(proc := Wake(f.s.proc, t.woken))))
  }

  // ---- the invariant ----

  /** Without forks and waits a turn is a tick of the scheduler alone. */
  lemma RoundIsTick(f: Family, how: Outcome, woken: set<nat>)
    requires |f.parent| == |f.s.proc| && f.s.last < |f.s.proc|
    ensures Round(f, Turn({}, {}, how, woken)).s == Tick(f.s, Event(how, woken))
  {
    hide Choose, Checked, Worked, Ran, Wake;
    if Dispatches(f.s) { WorkedIsRan(f, Pick(f.s), how, woken); }
  }

  lemma WorkedIsRan(f: Family, m: nat, how: Outcome, woken: set<nat>)
    requires |f.parent| == |f.s.proc| && m < |f.s.proc|
    ensures Worked(f, m, Turn({}, {}, how, woken)).s.proc == Ran(f.s.proc, m, Event(how, woken))
  {
    var g, p := Worked(f, m, Turn({}, {}, how, woken)).s.proc, Ran(f.s.proc, m, Event(how, woken));
    forall i | 0 <= i < |g| ensures g[i] == p[i] {}
  }

  /** Who is on the CPU may fork into any unused entry and reap any child that has exited. */
  lemma MayTurn(f: Family, m: nat, i: nat, how: Outcome, woken: set<nat>)
    requires |f.parent| == |f.s.proc|
    ensures CanTurn(f, m, Turn({}, {}, how, woken)) <==> m != 0 || how != Exit
    ensures CanTurn(f, m, Turn({i}, {}, Yield, woken)) <==> i < |f.parent| && i != m && f.s.proc[i].state == UNUSED
    ensures CanTurn(f, m, Turn({}, {i}, Yield, woken)) <==>
              i < |f.parent| && i != m && f.s.proc[i].state == ZOMBIE && f.parent[i] == m
    ensures CanTurn(f, m, Turn({i}, {i}, Yield, woken)) <==> CanTurn(f, m, Turn({}, {i}, Yield, woken))
  {
    assert forall x: nat, s: set<nat> :: s == {i} ==> (x in s <==> x == i);
  }

  /** A new process is runnable at level 0, a child of who forked it; a reaped entry is free. */
  lemma BornAndGone(f: Family, m: nat, t: Turn, i: nat)
    requires |f.parent| == |f.s.proc| && m < |f.parent| && i < |f.parent| && i != m && CanTurn(f, m, t)
    ensures var q, c := Worked(f, m, t).s.proc[i], Worked(f, m, t).parent[i];
            && (i in t.forked ==> q.state == RUNNABLE && q.prio == 0 && c == if t.how == Exit then INIT else m)
            && (i in t.reaped && i !in t.forked ==> q.state == UNUSED && q.times == 0 && c == -1)
  {
  }

  predicate Alive(p: Proc) { p.state != UNUSED && p.state != ZOMBIE }

  predicate EntryOk(f: Family, i: nat)
    requires |f.parent| == |f.s.proc|
  {
    i < |f.parent| ==>
      && (i == INIT ==> Alive(f.s.proc[i]) && f.parent[i] == -1)
      && (f.s.proc[i].state == UNUSED ==> f.parent[i] == -1 && f.s.proc[i].times == 0)
      && (i != INIT && f.s.proc[i].state != UNUSED ==> 0 <= f.parent[i] < |f.parent| && Alive(f.s.proc[f.parent[i]]))
  }

  /** Entry i is d generations below init. */
  predicate At(f: Family, i: int, d: nat)
    decreases d
  {
    if d == 0 then i == INIT
    else i != INIT && 0 <= i < |f.parent| && 0 <= f.parent[i] < |f.parent| && At(f, f.parent[i], d - 1)
  }

  ghost predicate Rooted(f: Family, i: nat)
    requires |f.parent| == |f.s.proc|
  {
    i < |f.parent| && f.s.proc[i].state != UNUSED ==> exists d: nat :: At(f, i, d)
  }

  ghost predicate FamilyInv(f: Family) {
    && Inv(f.s) && GoodPrio(f.s) && |f.parent| == |f.s.proc|
    && (forall i: nat :: EntryOk(f, i)) && (forall i: nat :: Rooted(f, i))
  }

  /** After userinit: init, and a table of unused entries. */
  ghost predicate Booted(f: Family) {
    && f.s.proc != [] && |f.parent| == |f.s.proc| && f.s == Start(f.s.proc)
    && forall i :: 0 <= i < |f.parent| ==> f.s.proc[i] == Proc(if i == INIT then RUNNABLE else UNUSED, 0, 0) && f.parent[i] == -1
  }

  lemma BootOk(f: Family)
    requires Booted(f)
    ensures FamilyInv(f)
  {
    assert At(f, INIT, 0);
  }

  lemma WorkedEntry(f: Family, m: nat, t: Turn, i: nat)
    requires FamilyInv(f) && m < |f.parent| && f.s.proc[m].state == RUNNABLE && CanTurn(f, m, t)
    ensures EntryOk(Worked(f, m, t), i)
  {
    assert EntryOk(f, i) && EntryOk(f, m) && EntryOk(f, INIT);
    if i < |f.parent| && 0 <= f.parent[i] < |f.parent| { assert EntryOk(f, f.parent[i]); }
  }

  lemma {:induction false} StillRooted(f: Family, m: nat, t: Turn, i: nat, d: nat) returns (d': nat)
    requires FamilyInv(f) && m < |f.parent| && f.s.proc[m].state == RUNNABLE && CanTurn(f, m, t)
    requires i < |f.parent| && f.s.proc[i].state != UNUSED && i !in t.reaped && At(f, i, d)
    ensures At(Worked(f, m, t), i, d')
    decreases d
  {
    if d == 0 {
      d' := 0;
    } else {
      var p := f.parent[i];
      assert EntryOk(f, i);
      d' := StillRooted(f, m, t, p, d - 1);
      hide FamilyInv;
      if t.how == Exit && p == m {
        assert At(Worked(f, m, t), INIT, 0);
        d' := 1;
      } else {
        d' := d' + 1;
      }
    }
  }

  lemma WorkedRooted(f: Family, m: nat, t: Turn, i: nat)
    requires FamilyInv(f) && m < |f.parent| && f.s.proc[m].state == RUNNABLE && CanTurn(f, m, t)
    ensures Rooted(Worked(f, m, t), i)
  {
    var g := Worked(f, m, t);
    if i < |f.parent| && g.s.proc[i].state != UNUSED {
      assert EntryOk(f, i) && Rooted(f, i) && Rooted(f, m);
      if i in t.forked {
        if t.how == Exit {
          assert At(g, INIT, 0) && At(g, i, 1);
        } else {
          var d :| At(f, m, d);
          var d' := StillRooted(f, m, t, m, d);
          assert At(g, i, d' + 1);
        }
      } else {
        var d :| At(f, i, d);
        var d' := StillRooted(f, m, t, i, d);
      }
    }
  }

  /** Checks, wakeups and the cursor do not touch the family. */
  ghost predicate SameFamily(f: Family, g: Family) {
    && f.parent == g.parent && |f.s.proc| == |g.s.proc| == |f.parent|
    && forall i :: 0 <= i < |f.parent| ==>
         && g.s.proc[i].times == f.s.proc[i].times && (Alive(g.s.proc[i]) <==> Alive(f.s.proc[i]))
         && (g.s.proc[i].state == UNUSED <==> f.s.proc[i].state == UNUSED)
  }

  lemma {:induction false} SameAt(f: Family, g: Family, i: int, d: nat)
    requires f.parent == g.parent
    ensures At(f, i, d) <==> At(g, i, d)
    decreases d
  {
    if d > 0 && 0 <= i < |f.parent| { SameAt(f, g, f.parent[i], d - 1); }
  }

  lemma SameKeeps(f: Family, g: Family)
    requires SameFamily(f, g) && (forall i: nat :: EntryOk(f, i)) && (forall i: nat :: Rooted(f, i))
    ensures (forall i: nat :: EntryOk(g, i)) && (forall i: nat :: Rooted(g, i))
  {
    forall i: nat ensures EntryOk(g, i) { assert EntryOk(f, i); }
    forall i: nat ensures Rooted(g, i) {
      assert Rooted(f, i);
      if i < |f.parent| && f.s.proc[i].state != UNUSED {
        var d: nat :| At(f, i, d);
        SameAt(f, g, i, d);
      }
    }
  }

  // ---- a round ----

  lemma IdleRound(f: Family, t: Turn)
    requires FamilyInv(f) && !Dispatches(f.s)
    ensures SameFamily(f, Round(f, t)) && FamilyInv(Round(f, t)) && Round(f, t).s.cant == f.s.cant
    ensures forall i :: 0 <= i < |f.parent| ==> Round(f, t).s.proc[i].prio == f.s.proc[i].prio
    ensures Round(f, t).s.p == if f.s.p >= |f.s.proc| then 0 else f.s.p + 1
  {
    var g := Round(f, t);
    assert SameFamily(f, g);
    SameKeeps(f, g);
  }

  /** A turn of m, before the check. */
  ghost predicate Ready(f: Family, t: Turn) {
    FamilyInv(f) && Dispatches(f.s) && CanTurn(f, Pick(f.s), t)
  }

  lemma BusyRound(f: Family, t: Turn)
    requires Ready(f, t)
    ensures var g, h := Worked(f, Pick(f.s), t), Round(f, t);
            && SameFamily(g, h) && (h.s.cant == f.s.cant || forall i :: 0 <= i < |f.parent| ==> h.s.proc[i].prio == 0)
            && (h.s.cant == f.s.cant ==> forall i :: 0 <= i < |f.parent| ==> h.s.proc[i] == g.s.proc[i])
            && h.s.cant >= f.s.cant && g.s.proc[Pick(f.s)].times < h.s.cant
            && (h.s.p == Pick(f.s) + 1 || h.s.p == |f.s.proc| + 1)
            && h.s.proc[Pick(f.s)].times == f.s.proc[Pick(f.s)].times + 1
  {
  }

  lemma RoundKeeps(f: Family, t: Turn)
    requires FamilyInv(f) && (Dispatches(f.s) ==> CanTurn(f, Pick(f.s), t))
    ensures FamilyInv(Round(f, t))
  {
    if !Dispatches(f.s) {
      IdleRound(f, t);
    } else {
      var m, g, h := Pick(f.s), Worked(f, Pick(f.s), t), Round(f, t);
      BusyRound(f, t);
      forall i: nat ensures EntryOk(g, i) { WorkedEntry(f, m, t, i); }
      forall i: nat ensures Rooted(g, i) { WorkedRooted(f, m, t, i); }
      SameKeeps(g, h);
      forall i | 0 <= i < |f.parent| ensures h.s.proc[i].times < h.s.cant && 0 <= h.s.proc[i].prio < NPRIO {
        assert g.s.proc[i] == EntryAfter(f, m, t, i);
      }
      hide Round, Worked, Pick, EntryOk, Rooted, SameFamily, Dispatches;
      assert h.s.last < |h.s.proc|;
    }
  }

  // ---- generations ----

  /** Nobody is in two generations. */
  lemma {:induction false} OneGeneration(f: Family, i: int, d: nat, e: nat)
    requires At(f, i, d) && At(f, i, e)
    ensures d == e
    decreases d
  {
    if d > 0 && e > 0 { OneGeneration(f, f.parent[i], d - 1, e - 1); }
  }

  ghost function UpTo(f: Family, d: nat): set<int> {
    set i | 0 <= i < |f.parent| && Within(f, i, d)
  }

  ghost predicate Within(f: Family, i: int, d: nat) { exists e: nat :: e <= d && At(f, i, e) }

  /** There are fewer generations than entries. */
  lemma {:induction false} GenerationBound(f: Family, i: int, d: nat)
    requires At(f, i, d) && 0 <= i < |f.parent|
    ensures d < |UpTo(f, d)| <= |f.parent|
    decreases d
  {
    FewNumbers(UpTo(f, d), |f.parent|);
    assert Within(f, i, d);
    if d == 0 {
      assert i in UpTo(f, d);
      SubsetCard({i}, UpTo(f, d));
    } else {
      var p := f.parent[i];
      GenerationBound(f, p, d - 1);
      if Within(f, i, d - 1) {
        var e: nat :| e <= d - 1 && At(f, i, e);
        OneGeneration(f, i, d, e);
      }
      forall x | x in UpTo(f, d - 1) ensures x in UpTo(f, d) {
        var e: nat :| e <= d - 1 && At(f, x, e);
        assert Within(f, x, d);
      }
      assert i !in UpTo(f, d - 1) && UpTo(f, d - 1) + {i} <= UpTo(f, d);
      SubsetCard(UpTo(f, d - 1) + {i}, UpTo(f, d));
    }
  }

  lemma {:induction false} FewNumbers(a: set<int>, n: nat)
    requires forall x :: x in a ==> 0 <= x < n
    ensures |a| <= n
  {
    if n == 0 {
      assert forall x :: x !in a;
    } else {
      FewNumbers(a - {n - 1}, n - 1);
      SubsetCard(a, (a - {n - 1}) + {n - 1});
    }
  }

  lemma SubsetCard(a: set<int>, b: set<int>)
    requires a <= b
    ensures |a| <= |b|
  {
    assert b == a + (b - a);
  }

  // ---- sums over the table ----

  function Sum(v: seq<nat>): nat { if v == [] then 0 else Sum(v[..|v| - 1]) + v[|v| - 1] }

  lemma {:induction false} SumAtMost(u: seq<nat>, v: seq<nat>)
    requires |u| == |v| && forall i :: 0 <= i < |u| ==> u[i] <= v[i]
    ensures Sum(u) <= Sum(v)
    decreases |u|
  {
    if u != [] { SumAtMost(u[..|u| - 1], v[..|v| - 1]); }
  }

  lemma {:induction false} SumLess(u: seq<nat>, v: seq<nat>, m: nat)
    requires |u| == |v| && m < |u| && u[m] < v[m] && forall i :: 0 <= i < |u| ==> u[i] <= v[i]
    ensures Sum(u) < Sum(v)
    decreases |u|
  {
    var n := |u| - 1;
    if m < n { SumLess(u[..n], v[..n], m); } else { SumAtMost(u[..n], v[..n]); }
  }

  lemma {:induction false} SumBound(v: seq<nat>, k: nat)
    requires forall i :: 0 <= i < |v| ==> v[i] <= k
    ensures Sum(v) <= |v| * k
    decreases |v|
  {
    if v != [] { SumBound(v[..|v| - 1], k); }
  }

  // ---- how much may go before b ----

  /** A process with times_exec below this may still go before b. */
  function Limit(f: Family, b: nat): nat
    requires b < |f.s.proc|
  {
    if f.s.proc[b].prio != 0 then f.s.cant else f.s.proc[b].times + 1
  }

  /** The turns that generation d may still have before b, process by process. */
  function Turns(f: Family, limit: nat, d: nat): (v: seq<nat>)
    requires |f.parent| == |f.s.proc|
    ensures |v| == |f.parent|
    ensures forall i :: 0 <= i < |v| ==> v[i] == if At(f, i, d) then Below(limit, f.s.proc[i].times) else 0
  {
    seq(|f.parent|, i requires 0 <= i < |f.parent| => if At(f, i, d) then Below(limit, f.s.proc[i].times) else 0)
  }

  function Members(f: Family, d: nat): (v: seq<nat>)
    ensures |v| == |f.parent| && forall i :: 0 <= i < |v| ==> v[i] == if At(f, i, d) then 1 else 0
  {
    seq(|f.parent|, i requires 0 <= i < |f.parent| => if At(f, i, d) then 1 else 0)
  }

  /** The entries that are not of generation d. */
  function Others(f: Family, d: nat): nat {
    SumBound(Members(f, d), 1);
    |f.parent| - Sum(Members(f, d))
  }

  /** Generation by generation: the entries that it may still fill, and the turns that it may still
      have. A turn, or a newcomer, in one generation pays for any number of both in those below. */
  function Generations(f: Family, limit: nat, d: nat): (ds: seq<nat>)
    requires |f.parent| == |f.s.proc| && d <= |f.parent|
    ensures |ds| == 2 * (|f.parent| - d)
    decreases |f.parent| - d
  {
    if d == |f.parent| then [] else [Others(f, d), Sum(Turns(f, limit, d))] + Generations(f, limit, d + 1)
  }

  function Digits(f: Family, b: nat): (ds: seq<nat>)
    requires |f.parent| == |f.s.proc| && b < |f.parent|
    ensures |ds| == 2 * |f.parent| + 1
  {
    [if f.s.proc[b].prio != 0 then 1 else 0] + Generations(f, Limit(f, b), 0)
  }

  predicate Smaller(u: seq<nat>, v: seq<nat>)
    decreases |u|
  {
    |u| == |v| > 0 && (u[0] < v[0] || (u[0] == v[0] && Smaller(u[1..], v[1..])))
  }

  // ---- every turn brings b nearer ----

  /** exit moves somebody to init. */
  predicate Moves(f: Family, m: nat, t: Turn)
    requires |f.parent| == |f.s.proc|
  {
    t.how == Exit && exists i: nat :: i < |f.parent| && ParentAfter(f, m, t, i) == INIT && f.parent[i] != INIT && i != INIT
  }

  /** What b's turn depends on, in h as in g. */
  ghost predicate SameTimes(g: Family, h: Family) {
    && h.parent == g.parent && |h.s.proc| == |g.s.proc| == |g.parent|
    && forall i :: 0 <= i < |g.parent| ==> h.s.proc[i].times == g.s.proc[i].times
  }

  lemma SameTurns(g: Family, h: Family, limit: nat, d: nat)
    requires SameTimes(g, h)
    ensures Turns(h, limit, d) == Turns(g, limit, d) && Members(h, d) == Members(g, d)
  {
    forall i | 0 <= i < |g.parent|
      ensures Turns(h, limit, d)[i] == Turns(g, limit, d)[i] && Members(h, d)[i] == Members(g, d)[i]
    {
      SameAt(g, h, i, d);
    }
  }

  lemma {:induction false} SameGenerations(g: Family, h: Family, limit: nat, d: nat)
    requires SameTimes(g, h) && d <= |g.parent|
    ensures Generations(h, limit, d) == Generations(g, limit, d)
    decreases |g.parent| - d
  {
    if d < |g.parent| {
      SameTurns(g, h, limit, d);
      SameGenerations(g, h, limit, d + 1);
    }
  }

  /** Nothing moves: in the generations down to that of m, everybody is where they were. */
  lemma {:induction false} StaysPut(f: Family, m: nat, t: Turn, dm: nat, i: nat, d: nat)
    requires FamilyInv(f) && m < |f.parent| && f.s.proc[m].state == RUNNABLE && CanTurn(f, m, t) && !Moves(f, m, t)
    requires At(f, m, dm) && d <= dm && i < |f.parent|
    ensures At(Worked(f, m, t), i, d) <==> At(f, i, d)
    decreases d
  {
    var g := Worked(f, m, t);
    assert EntryOk(f, i);
    if d > 0 && i != INIT {
      if 0 <= f.parent[i] < |f.parent| { StaysPut(f, m, t, dm, f.parent[i], d - 1); }
      StaysPut(f, m, t, dm, m, d - 1);
      if At(f, m, d - 1) { OneGeneration(f, m, dm, d - 1); }
      assert g.parent[i] == ParentAfter(f, m, t, i);
      assert f.parent[i] == m ==> !At(f, i, d);
    }
  }

  lemma TurnsPut(f: Family, m: nat, t: Turn, dm: nat, limit: nat, d: nat)
    requires |f.parent| == |f.s.proc| && d <= dm && Stays(f, m, t, dm, limit)
    ensures Members(Worked(f, m, t), d) == Members(f, d)
    ensures d < dm ==> Turns(Worked(f, m, t), limit, d) == Turns(f, limit, d)
    ensures d == dm ==> Sum(Turns(Worked(f, m, t), limit, d)) < Sum(Turns(f, limit, d))
  {
    var g := Worked(f, m, t);
    forall i | 0 <= i < |f.parent|
      ensures Members(g, d)[i] == Members(f, d)[i]
      ensures i != m ==> Turns(g, limit, d)[i] == Turns(f, limit, d)[i]
      ensures i == m && d < dm ==> Turns(g, limit, d)[i] == Turns(f, limit, d)[i]
      ensures i == m && d == dm ==> Turns(g, limit, d)[i] < Turns(f, limit, d)[i]
    {
      StaysPut(f, m, t, dm, i, d);
      OthersTimes(f, m, t, dm, i, d);
      if i == m && d < dm && At(f, m, d) { OneGeneration(f, m, dm, d); }
    }
    if d == dm { SumLess(Turns(g, limit, d), Turns(f, limit, d), m); }
  }

  /** The times_exec that a turn resets are of younger generations. */
  lemma OthersTimes(f: Family, m: nat, t: Turn, dm: nat, i: nat, d: nat)
    requires FamilyInv(f) && m < |f.parent| && f.s.proc[m].state == RUNNABLE && CanTurn(f, m, t)
    requires At(f, m, dm) && d <= dm && i < |f.parent|
    ensures At(f, i, d) ==> Worked(f, m, t).s.proc[i].times == f.s.proc[i].times + if i == m then 1 else 0
  {
    assert EntryOk(f, i) && EntryOk(f, INIT) && EntryOk(f, m);
    if At(f, i, d) && i in t.reaped {
      assert d > 0 && At(f, m, d - 1);
      OneGeneration(f, m, dm, d - 1);
    }
  }

  /** A turn without reparenting of m, in generation dm, who may still go before b. */
  ghost predicate Stays(f: Family, m: nat, t: Turn, dm: nat, limit: nat) {
    && FamilyInv(f) && m < |f.parent| && f.s.proc[m].state == RUNNABLE && CanTurn(f, m, t) && !Moves(f, m, t)
    && At(f, m, dm) && f.s.proc[m].times < limit
  }

  lemma {:induction false} NoMoves(f: Family, m: nat, t: Turn, dm: nat, limit: nat, d: nat)
    requires |f.parent| == |f.s.proc| && d <= dm < |f.parent| && Stays(f, m, t, dm, limit)
    ensures Smaller(Generations(Worked(f, m, t), limit, d), Generations(f, limit, d))
    decreases dm - d
  {
    hide *;
    var g := Worked(f, m, t);
    TurnsPut(f, m, t, dm, limit, d);
    OthersSame(f, g, d);
    if d < dm { NoMoves(f, m, t, dm, limit, d + 1); }
    SmallerFrom(f, g, limit, d);
  }

  lemma OthersSame(f: Family, g: Family, d: nat)
    requires |f.parent| == |g.parent| && Members(g, d) == Members(f, d)
    ensures Others(g, d) == Others(f, d)
  {
  }

  /** Comparing the generations from d on, when as many are in generation d. */
  lemma SmallerFrom(f: Family, g: Family, limit: nat, d: nat)
    requires |f.parent| == |f.s.proc| == |g.parent| == |g.s.proc| && d < |f.parent| && Others(g, d) == Others(f, d)
    requires || Sum(Turns(g, limit, d)) < Sum(Turns(f, limit, d))
             || (Turns(g, limit, d) == Turns(f, limit, d) && Smaller(Generations(g, limit, d + 1), Generations(f, limit, d + 1)))
    ensures Smaller(Generations(g, limit, d), Generations(f, limit, d))
  {
    hide Others, Turns, Sum, Smaller;
    SmallerPair(Others(g, d), Sum(Turns(g, limit, d)), Generations(g, limit, d + 1),
                Others(f, d), Sum(Turns(f, limit, d)), Generations(f, limit, d + 1));
  }

  lemma SmallerPair(a: nat, b: nat, u: seq<nat>, a': nat, b': nat, v: seq<nat>)
    requires |u| == |v| && (a < a' || (a == a' && (b < b' || (b == b' && Smaller(u, v)))))
    ensures Smaller([a, b] + u, [a', b'] + v)
  {
    var x, y := [a, b] + u, [a', b'] + v;
    assert x[1..] == [b] + u && y[1..] == [b'] + v && x[1..][1..] == u && y[1..][1..] == v;
  }

  /** exit with children: the first generation grows. */
  lemma Moved(f: Family, m: nat, t: Turn, limit: nat)
    requires FamilyInv(f) && m < |f.parent| && f.s.proc[m].state == RUNNABLE && CanTurn(f, m, t) && Moves(f, m, t)
    ensures Smaller(Generations(Worked(f, m, t), limit, 0), Generations(f, limit, 0))
  {
    var g := Worked(f, m, t);
    assert EntryOk(f, m) && EntryOk(f, INIT) && INIT < m;
    forall i | 0 <= i < |f.parent| ensures Members(g, 0)[i] == Members(f, 0)[i] && Turns(g, limit, 0)[i] == Turns(f, limit, 0)[i] {
      assert i == INIT ==> i !in t.reaped && i !in t.forked;
    }
    assert Members(g, 0) == Members(f, 0) && Turns(g, limit, 0) == Turns(f, limit, 0);
    FirstGrows(f, m, t);
    assert Others(g, 0) == Others(f, 0) && |f.parent| > 1;
    hide FamilyInv, CanTurn, Moves, At, Worked, Others, Turns, Sum, Smaller, Members;
    SmallerPair(Others(g, 1), Sum(Turns(g, limit, 1)), Generations(g, limit, 2),
                Others(f, 1), Sum(Turns(f, limit, 1)), Generations(f, limit, 2));
    SmallerPair(Others(g, 0), Sum(Turns(g, limit, 0)), Generations(g, limit, 1),
                Others(f, 0), Sum(Turns(f, limit, 0)), Generations(f, limit, 1));
  }

  lemma FirstGrows(f: Family, m: nat, t: Turn)
    requires FamilyInv(f) && m < |f.parent| && f.s.proc[m].state == RUNNABLE && CanTurn(f, m, t) && Moves(f, m, t)
    ensures Others(Worked(f, m, t), 1) < Others(f, 1)
  {
    var g := Worked(f, m, t);
    assert EntryOk(f, m);
    var j: nat :| j < |f.parent| && ParentAfter(f, m, t, j) == INIT && f.parent[j] != INIT && j != INIT;
    forall i | 0 <= i < |f.parent| ensures Members(f, 1)[i] <= Members(g, 1)[i] && Members(f, 1)[j] < Members(g, 1)[j] {
      assert EntryOk(f, i);
      FirstAre(f, i);
      FirstAre(g, i);
      FirstAre(f, j);
      FirstAre(g, j);
    }
    SumLess(Members(f, 1), Members(g, 1), j);
    SumBound(Members(g, 1), 1);
  }

  lemma FirstAre(f: Family, i: nat)
    requires i < |f.parent|
    ensures At(f, i, 1) <==> i != INIT && f.parent[i] == INIT
  {
  }

  /** A turn that passes b over makes the digits smaller; a boost that b needs does it at once. */
  lemma TurnCounts(f: Family, t: Turn, b: nat)
    requires Ready(f, t) && Waiting(f.s, b) && Pick(f.s) != b
    ensures Waiting(Round(f, t).s, b) && Limit(Round(f, t), b) <= Limit(f, b)
    ensures Smaller(Digits(Round(f, t), b), Digits(f, b))
  {
    var m, g, h := Pick(f.s), Worked(f, Pick(f.s), t), Round(f, t);
    BusyRound(f, t);
    StillBehind(f, t, b);
    assert Rooted(f, m);
    var dm: nat :| At(f, m, dm);
    GenerationBound(f, m, dm);
    hide EntryOk, Rooted, CanTurn, Round, Worked, At, Generations, Pick, Smaller, UpTo, Limit, Inv, GoodPrio, Moves;
    if (h.s.proc[b].prio == 0) == (f.s.proc[b].prio == 0) {
      var limit := Limit(f, b);
      SameGenerations(g, h, limit, 0);
      if Moves(f, m, t) { Moved(f, m, t, limit); } else { NoMoves(f, m, t, dm, limit, 0); }
      SmallerTail(if f.s.proc[b].prio != 0 then 1 else 0, Generations(h, limit, 0), Generations(f, limit, 0));
    } else {
      SmallerHead(0, Generations(h, Limit(h, b), 0), 1, Generations(f, Limit(f, b), 0));
    }
  }

  lemma StillBehind(f: Family, t: Turn, b: nat)
    requires Ready(f, t) && Waiting(f.s, b) && Pick(f.s) != b
    ensures var h := Round(f, t);
            && Waiting(h.s, b) && Limit(h, b) <= Limit(f, b)
            && if (h.s.proc[b].prio == 0) == (f.s.proc[b].prio == 0)
               then Limit(h, b) == Limit(f, b) && f.s.proc[Pick(f.s)].times < Limit(f, b)
               else h.s.proc[b].prio == 0
  {
    var m, g, h := Pick(f.s), Worked(f, Pick(f.s), t), Round(f, t);
    BusyRound(f, t);
    PickedIsFair(f.s, b);
    assert g.s.proc[b] == EntryAfter(f, m, t, b) == f.s.proc[b];
    assert h.s.cant == f.s.cant ==> h.s.proc[b] == g.s.proc[b];
    hide EntryOk, Rooted, Round, Worked, Pick;
  }

  lemma SmallerTail(a: nat, u: seq<nat>, v: seq<nat>)
    requires Smaller(u, v)
    ensures Smaller([a] + u, [a] + v)
  {
    assert ([a] + u)[1..] == u && ([a] + v)[1..] == v;
  }

  lemma SmallerHead(a: nat, u: seq<nat>, a': nat, v: seq<nat>)
    requires |u| == |v| && a < a'
    ensures Smaller([a] + u, [a'] + v)
  {
  }

  lemma IdleCounts(f: Family, t: Turn, b: nat)
    requires FamilyInv(f) && !Dispatches(f.s) && Waiting(f.s, b)
    ensures Waiting(Round(f, t).s, b) && Limit(Round(f, t), b) == Limit(f, b) && Digits(Round(f, t), b) == Digits(f, b)
  {
    IdleRound(f, t);
    SameGenerations(f, Round(f, t), Limit(f, b), 0);
    hide Generations;
  }

  // ---- a number for the digits ----

  function Pow(base: nat, k: nat): nat { if k == 0 then 1 else base * Pow(base, k - 1) }

  function Encode(ds: seq<nat>, base: nat): nat
    decreases |ds|
  {
    if ds == [] then 0 else ds[0] * Pow(base, |ds| - 1) + Encode(ds[1..], base)
  }

  ghost predicate AllBelow(ds: seq<nat>, base: nat) { forall i :: 0 <= i < |ds| ==> ds[i] < base }

  lemma Carry(a: nat, b: nat, p: nat, x: nat)
    requires a < b && x < p
    ensures a * p + x < b * p
  {
    assert (a + 1) * p <= b * p;
  }

  lemma {:induction false} EncodeBound(ds: seq<nat>, base: nat)
    requires AllBelow(ds, base)
    ensures Encode(ds, base) < Pow(base, |ds|)
    decreases |ds|
  {
    if ds != [] {
      EncodeBound(ds[1..], base);
      Carry(ds[0], base, Pow(base, |ds| - 1), Encode(ds[1..], base));
    }
  }

  lemma {:induction false} EncodeSmaller(u: seq<nat>, v: seq<nat>, base: nat)
    requires Smaller(u, v) && AllBelow(u, base)
    ensures Encode(u, base) < Encode(v, base)
    decreases |u|
  {
    if u[0] < v[0] {
      EncodeBound(u[1..], base);
      Carry(u[0], v[0], Pow(base, |u| - 1), Encode(u[1..], base));
    } else {
      EncodeSmaller(u[1..], v[1..], base);
    }
  }

  function BaseFor(n: nat, limit: nat): nat { n * limit + n + 2 }

  lemma {:induction false} GenerationsBelow(f: Family, limit: nat, d: nat, base: nat)
    requires |f.parent| == |f.s.proc| && d <= |f.parent| && BaseFor(|f.parent|, limit) <= base
    ensures AllBelow(Generations(f, limit, d), base)
    decreases |f.parent| - d
  {
    if d < |f.parent| {
      GenerationsBelow(f, limit, d + 1, base);
      SumBound(Turns(f, limit, d), limit);
    }
  }

  lemma DigitsBelow(f: Family, b: nat, base: nat)
    requires |f.parent| == |f.s.proc| && b < |f.parent| && BaseFor(|f.parent|, Limit(f, b)) <= base
    ensures AllBelow(Digits(f, b), base)
  {
    GenerationsBelow(f, Limit(f, b), 0, base);
  }

  lemma BaseMonotone(n: nat, limit: nat, limit': nat)
    requires limit' <= limit
    ensures BaseFor(n, limit') <= BaseFor(n, limit)
  {
    assert n * limit' <= n * limit;
  }

  // ---- whole runs ----

  /** b is passed over at every round; the turns are ones that the processes may have. */
  ghost predicate PassedOver(f: Family, ts: seq<Turn>, b: nat)
    requires |f.parent| == |f.s.proc| && f.s.last < |f.s.proc|
    decreases |ts|
  {
    ts != [] ==>
      && (Dispatches(f.s) ==> Pick(f.s) != b && CanTurn(f, Pick(f.s), ts[0]))
      && PassedOver(Round(f, ts[0]), ts[1..], b)
  }

  /** The rounds that b may still have to wait. */
  function LongestWait(f: Family, b: nat, base: nat): nat
    requires |f.parent| == |f.s.proc| && b < |f.parent|
  {
    Rounds(|f.parent|, Encode(Digits(f, b), base), Distance(|f.parent|, f.s.p, b))
  }

  /** Nothing but the cursor brings b nearer in a round without a turn; a turn may set it back. */
  lemma CursorGoesOn(f: Family, t: Turn, b: nat)
    requires FamilyInv(f) && Waiting(f.s, b) && (Dispatches(f.s) ==> Pick(f.s) != b && CanTurn(f, Pick(f.s), t))
    ensures var n := |f.parent|; var d, d' := Distance(n, f.s.p, b), Distance(n, Round(f, t).s.p, b);
            d' <= n && (!Dispatches(f.s) ==> d' == d - 1)
  {
    if Dispatches(f.s) { BusyRound(f, t); } else { IdleRound(f, t); }
    assert f.s.p == b ==> Dispatches(f.s);
    hide Round, Worked, Pick, CanTurn, Dispatches, FamilyInv, SameFamily;
  }

  lemma DigitsDrop(f: Family, t: Turn, b: nat, base: nat)
    requires FamilyInv(f) && Waiting(f.s, b) && (Dispatches(f.s) ==> Pick(f.s) != b && CanTurn(f, Pick(f.s), t))
    requires BaseFor(|f.parent|, Limit(f, b)) <= base
    ensures var h := Round(f, t);
            && Waiting(h.s, b) && BaseFor(|h.parent|, Limit(h, b)) <= base
            && Encode(Digits(h, b), base) <= Encode(Digits(f, b), base) - if Dispatches(f.s) then 1 else 0
  {
    var h, n := Round(f, t), |f.parent|;
    if Dispatches(f.s) {
      TurnCounts(f, t, b);
      hide Round, Digits, Encode, Smaller, FamilyInv, CanTurn, Limit, Pick, BaseFor;
      BaseMonotone(n, Limit(f, b), Limit(h, b));
      DigitsBelow(h, b, base);
      EncodeSmaller(Digits(h, b), Digits(f, b), base);
    } else {
      IdleCounts(f, t, b);
      hide Round, Digits, Encode, FamilyInv, Limit, Pick, BaseFor;
    }
  }

  lemma RoundCounts(f: Family, t: Turn, b: nat, base: nat)
    requires FamilyInv(f) && Waiting(f.s, b) && (Dispatches(f.s) ==> Pick(f.s) != b && CanTurn(f, Pick(f.s), t))
    requires BaseFor(|f.parent|, Limit(f, b)) <= base
    ensures Waiting(Round(f, t).s, b) && BaseFor(|f.parent|, Limit(Round(f, t), b)) <= base
    ensures LongestWait(Round(f, t), b, base) < LongestWait(f, b, base)
  {
    var h, n := Round(f, t), |f.parent|;
    DigitsDrop(f, t, b, base);
    CursorGoesOn(f, t, b);
    assert |h.parent| == n;
    hide Round, Digits, Encode, FamilyInv, CanTurn, Pick, Dispatches, Rounds, Distance, Limit, BaseFor;
    Budget(Encode(Digits(f, b), base), Encode(Digits(h, b), base), n, Distance(n, f.s.p, b), Distance(n, h.s.p, b), Dispatches(f.s));
  }

  lemma {:induction false} WaitIsBounded(f: Family, ts: seq<Turn>, b: nat, base: nat)
    requires FamilyInv(f) && Waiting(f.s, b) && PassedOver(f, ts, b) && BaseFor(|f.parent|, Limit(f, b)) <= base
    ensures |ts| <= LongestWait(f, b, base)
    decreases |ts|
  {
    if ts != [] {
      RoundKeeps(f, ts[0]);
      RoundCounts(f, ts[0], b, base);
      hide Round, FamilyInv, LongestWait, BaseFor, Limit, Waiting, CanTurn, Pick, Dispatches;
      WaitIsBounded(Round(f, ts[0]), ts[1..], b, base);
    }
  }

  /** Nobody starves, although processes fork, exit and are waited for without end: how often a
      runnable process can be passed over is bounded by the size of the table and cant_proc alone. */
  lemma NobodyStarves(f: Family, ts: seq<Turn>, b: nat)
    requires FamilyInv(f) && Waiting(f.s, b) && PassedOver(f, ts, b)
    ensures var n := |f.parent|;
            |ts| <= Rounds(n, Pow(BaseFor(n, f.s.cant), 2 * n + 1), 2 * n)
  {
    assert |f.parent| == |f.s.proc| && b < |f.parent| && f.s.last < |f.s.proc|;
    hide *;
    var base := BaseFor(|f.parent|, f.s.cant);
    LongestWaitBound(f, b, base);
    WaitIsBounded(f, ts, b, base);
  }

  lemma LongestWaitBound(f: Family, b: nat, base: nat)
    requires FamilyInv(f) && Waiting(f.s, b) && base == BaseFor(|f.parent|, f.s.cant)
    ensures var n := |f.parent|;
            BaseFor(n, Limit(f, b)) <= base && LongestWait(f, b, base) <= Rounds(n, Pow(base, 2 * n + 1), 2 * n)
  {
    var n: nat, ds := |f.parent|, Digits(f, b);
    BaseMonotone(n, f.s.cant, Limit(f, b));
    DigitsBelow(f, b, base);
    EncodeBound(ds, base);
    assert Distance(n, f.s.p, b) <= 2 * n;
    assert LongestWait(f, b, base) == Rounds(n, Encode(ds, base), Distance(n, f.s.p, b));
    hide *;
    RoundsMonotone(n, Encode(ds, base), Pow(base, 2 * n + 1), Distance(n, f.s.p, b), 2 * n);
  }

  function After(f: Family, ts: seq<Turn>): (g: Family)
    requires |f.parent| == |f.s.proc| && f.s.last < |f.s.proc|
    ensures |g.parent| == |g.s.proc| == |f.s.proc| && g.s.last < |g.s.proc|
    decreases |ts|
  {
    if ts == [] then f else After(Round(f, ts[0]), ts[1..])
  }

  /** The turns are ones that the processes may have. */
  ghost predicate Happens(f: Family, ts: seq<Turn>)
    requires |f.parent| == |f.s.proc| && f.s.last < |f.s.proc|
    decreases |ts|
  {
    ts != [] ==> (Dispatches(f.s) ==> CanTurn(f, Pick(f.s), ts[0])) && Happens(Round(f, ts[0]), ts[1..])
  }

  lemma {:induction false} AfterKeeps(f: Family, ts: seq<Turn>)
    requires FamilyInv(f) && Happens(f, ts)
    ensures FamilyInv(After(f, ts))
    decreases |ts|
  {
    if ts != [] {
      RoundKeeps(f, ts[0]);
      hide Round, FamilyInv, Dispatches, CanTurn, Pick;
      AfterKeeps(Round(f, ts[0]), ts[1..]);
    }
  }

  /** At no time after boot, whatever has been forked and has exited until then. */
  lemma NobodyEverStarves(f: Family, before: seq<Turn>, ts: seq<Turn>, b: nat)
    requires Booted(f) && Happens(f, before) && Waiting(After(f, before).s, b) && PassedOver(After(f, before), ts, b)
    ensures var n := |f.parent|;
            |ts| <= Rounds(n, Pow(BaseFor(n, After(f, before).s.cant), 2 * n + 1), 2 * n)
  {
    BootOk(f);
    AfterKeeps(f, before);
    hide *;
    NobodyStarves(After(f, before), ts, b);
  }

  lemma RoundsMonotone(n: nat, a: nat, a': nat, d: nat, d': nat)
    requires a <= a' && d <= d'
    ensures Rounds(n, a, d) <= Rounds(n, a', d')
  {
    assert (n + 1) * a <= (n + 1) * a';
  }
}
