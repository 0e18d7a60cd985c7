/** The two-process client Lab2/xv6-riscv-riscv/user/ping_pong.c on the semaphore machine:
    its output alternates in every interleaving, and it never deadlocks. */
module PingPong {
  import opened SemMachine

  /** n rounds of down, print, up. */
  function Rounds(n: nat, down: nat, line: string, up: nat): (script: seq<Op>)
    ensures |script| == 3 * n
    ensures forall i :: 0 <= i < 3 * n ==>
              script[i] == if i % 3 == 0 then Down(down) else if i % 3 == 1 then Print(line) else Up(up)
  {
    seq(3 * n, i => if i % 3 == 0 then Down(down) else if i % 3 == 1 then Print(line) else Up(up))
  }

  const PING := "ping\n"
  const PONG := "\tpong\n"

  /** The first m lines of ping, pong, ping, pong, ... */
  function Alternate(m: nat): (lines: seq<string>)
    ensures |lines| == m
  {
    if m == 0 then [] else Alternate(m - 1) + [if m % 2 == 1 then PING else PONG]
  }

  /** Processes 0 and 1 are the children; the rest of the table makes no system call.
      a and b are the ids of sem_ping and sem_pong. */
  ghost predicate Programs(s: Sys, n: nat, a: nat, b: nat) {
    && |s.procs| >= 2 && a < |s.sems| && b < |s.sems| && a != b
    && s.procs[0].script == Rounds(n, a, PING, b)
    && s.procs[1].script == Rounds(n, b, PONG, a)
    && s.sems[a].initial == 1 && s.sems[b].initial == 0
    && forall m :: 2 <= m < |s.procs| ==> s.procs[m].script == [] && s.procs[m].pc == Ready
  }

  /** The semaphores and the output follow how far the two processes have come. */
  ghost predicate Tally(s: Sys, a: nat, b: nat)
    requires |s.procs| >= 2 && a < |s.sems| && b < |s.sems|
  {
    SemTally(s, a, b) && OutTally(s)
  }

  ghost predicate SemTally(s: Sys, a: nat, b: nat)
    requires |s.procs| >= 2 && a < |s.sems| && b < |s.sems|
  {
    var x, y := s.procs[0].pos, s.procs[1].pos;
    && s.sems[a].ups == Ups(y) && s.sems[a].downs == Downs(x)
    && s.sems[b].ups == Ups(x) && s.sems[b].downs == Downs(y)
  }

  ghost predicate OutTally(s: Sys)
    requires |s.procs| >= 2
  {
    s.out == Alternate(Lines(s.procs[0].pos) + Lines(s.procs[1].pos))
  }

  /** How many of the first x entries of a script are downs, lines of output and ups. */
  function Downs(x: nat): nat { (x + 2) / 3 }

  function Lines(x: nat): nat { (x + 1) / 3 }

  function Ups(x: nat): nat { x / 3 }

  lemma OneFurther(x: nat)
    ensures Downs(x + 1) == Downs(x) + if x % 3 == 0 then 1 else 0
    ensures Lines(x + 1) == Lines(x) + if x % 3 == 1 then 1 else 0
    ensures Ups(x + 1) == Ups(x) + if x % 3 == 2 then 1 else 0
  {
  }

  ghost predicate Playing(s: Sys, n: nat, a: nat, b: nat) {
    Inv(s) && Programs(s, n, a, b) && Tally(s, a, b)
  }

  lemma At(s: Sys, i: nat)
    requires Inv(s) && i < |s.procs|
    ensures InRange(s, i) && Local(s.procs[i])
  {
  }

  lemma CountedAt(s: Sys, k: nat)
    requires Inv(s) && k < |s.sems|
    ensures Counted(s.sems[k])
  {
  }

  /** The two positions in lock step: one process moves three steps, then the other. */
  predicate InStep(x: nat, y: nat) {
    Downs(y) <= Ups(x) && Downs(x) <= 1 + Ups(y)
  }

  lemma Lockstep(s: Sys, n: nat, a: nat, b: nat)
    requires Playing(s, n, a, b)
    ensures s.sems[a].value == 1 + Ups(s.procs[1].pos) - Downs(s.procs[0].pos)
    ensures s.sems[b].value == Ups(s.procs[0].pos) - Downs(s.procs[1].pos)
    ensures s.sems[a].value >= 0 && s.sems[b].value >= 0 && InStep(s.procs[0].pos, s.procs[1].pos)
    ensures s.procs[0].pos <= 3 * n && s.procs[1].pos <= 3 * n
  {
    CountedAt(s, a);
    CountedAt(s, b);
    At(s, 0);
    At(s, 1);
    hide Inv, Alternate, Downs, Ups, Lines;
  }

  /** A step advances at most its own process, past one entry of the script. */
  lemma StepPos(s: Sys, i: nat, m: nat)
    requires InRange(s, i) && Enabled(s, i) && m < |s.procs|
    ensures var p, q, q' := s.procs[i], s.procs[m], Step(s, i).procs[m];
            && q'.script == q.script && (m != i ==> q'.pc == q.pc && q'.pos == q.pos)
            && (m == i ==> q'.pos == p.pos + if Counts(p) then 1 else 0)
  {
  }

  predicate Counts(p: Proc) {
    p.pc.Bump? || p.pc.Take? || (p.pc.Ready? && p.pos < |p.script| && p.script[p.pos].Print?)
  }

  lemma StepPrograms(s: Sys, n: nat, a: nat, b: nat, i: nat)
    requires Playing(s, n, a, b) && InRange(s, i) && Enabled(s, i)
    ensures i < 2 && Programs(Step(s, i), n, a, b)
  {
    assert i < 2 by { At(s, i); }
    forall m | 0 <= m < |s.procs|
      ensures Step(s, i).procs[m].script == s.procs[m].script && (m != i ==> Step(s, i).procs[m].pc == s.procs[m].pc)
    {
      StepPos(s, i, m);
    }
    assert Step(s, i).sems[a] == SemAfter(s, i, a) && Step(s, i).sems[b] == SemAfter(s, i, b);
    hide Inv, Step, Enabled, InRange, Tally, Rounds;
  }

  /** The entry of the script that is being carried out. */
  lemma Doing(s: Sys, n: nat, a: nat, b: nat, i: nat)
    requires Inv(s) && Programs(s, n, a, b) && i < 2 && Counts(s.procs[i])
    ensures var p := s.procs[i];
            && (p.pc.Bump? ==> p.pos % 3 == 2 && p.pc.k == if i == 0 then b else a)
            && (p.pc.Take? ==> p.pos % 3 == 0 && p.pc.k == if i == 0 then a else b)
            && (p.pc.Ready? ==> p.pos % 3 == 1 && p.script[p.pos] == Print(if i == 0 then PING else PONG))
  {
    At(s, i);
    hide Inv;
  }

  lemma StepSemTally(s: Sys, n: nat, a: nat, b: nat, i: nat)
    requires Playing(s, n, a, b) && InRange(s, i) && Enabled(s, i) && i < 2
    ensures SemTally(Step(s, i), a, b)
  {
    hide Inv, InRange, Enabled, Step, Rounds, Alternate, Downs, Ups, Lines;
    StepPos(s, i, 0);
    StepPos(s, i, 1);
    StepCounts(s, i, a);
    StepCounts(s, i, b);
    if Counts(s.procs[i]) { Doing(s, n, a, b, i); }
    OneFurther(s.procs[i].pos);
  }

  lemma StepOutTally(s: Sys, n: nat, a: nat, b: nat, i: nat)
    requires Playing(s, n, a, b) && InRange(s, i) && Enabled(s, i) && i < 2
    ensures OutTally(Step(s, i))
  {
    hide Inv, InRange, Enabled, Step, Rounds, Alternate, InStep, Downs, Ups, Lines, SemTally;
    Lockstep(s, n, a, b);
    StepPos(s, i, 0);
    StepPos(s, i, 1);
    if Counts(s.procs[i]) { Doing(s, n, a, b, i); }
    NextLine(s.procs[0].pos, s.procs[1].pos);
    OneFurther(s.procs[i].pos);
    StepOut(s, i);
  }

  lemma StepCounts(s: Sys, i: nat, k: nat)
    requires InRange(s, i) && Enabled(s, i) && k < |s.sems|
    ensures var pc, a, a' := s.procs[i].pc, s.sems[k], Step(s, i).sems[k];
            && a'.ups == a.ups + (if pc.Bump? && pc.k == k then 1 else 0)
            && a'.downs == a.downs + (if pc.Take? && pc.k == k then 1 else 0)
  {
  }

  lemma StepOut(s: Sys, i: nat)
    requires InRange(s, i) && Enabled(s, i)
    ensures var p := s.procs[i];
            Step(s, i).out == if Counts(p) && p.pc.Ready? then s.out + [p.script[p.pos].line] else s.out
  {
  }

  /** Whose turn it is to print. */
  lemma NextLine(x: nat, y: nat)
    requires InStep(x, y)
    ensures x % 3 == 1 ==> Alternate(Lines(x) + Lines(y) + 1) == Alternate(Lines(x) + Lines(y)) + [PING]
    ensures y % 3 == 1 ==> Alternate(Lines(x) + Lines(y) + 1) == Alternate(Lines(x) + Lines(y)) + [PONG]
  {
    assert x % 3 == 1 ==> Lines(x) == Lines(y);
    assert y % 3 == 1 ==> Lines(x) == Lines(y) + 1;
  }

  lemma KillPlays(s: Sys, n: nat, a: nat, b: nat, j: nat)
    requires Playing(s, n, a, b) && CanKill(s, j)
    ensures Playing(Kill(s, j), n, a, b)
  {
    hide Inv, Rounds, Alternate;
    KillKeepsInv(s, j);
    assert s.procs[j].pc != Ready by { KillOff(s, j); }
  }

  lemma NextPlays(s: Sys, s': Sys, n: nat, a: nat, b: nat)
    requires Playing(s, n, a, b) && Next(s, s')
    ensures Playing(s', n, a, b)
  {
    NextKeepsInv(s, s');
    hide Inv, Programs, SemTally, OutTally;
    if i :| InRange(s, i) && Enabled(s, i) && s' == Step(s, i) {
      StepPrograms(s, n, a, b, i);
      StepSemTally(s, n, a, b, i);
      StepOutTally(s, n, a, b, i);
      assert Tally(s', a, b);
    } else {
      var j :| CanKill(s, j) && s' == Kill(s, j);
      KillPlays(s, n, a, b, j);
    }
  }

  // ---- whole runs ----

  /** main after its two forks: sem_open(_, 1), sem_open(_, 0), and both children ready. */
  ghost predicate Opening(s: Sys, n: nat, a: nat, b: nat) {
    Start(s) && Programs(s, n, a, b)
  }

  lemma {:induction false} RunPlays(run: seq<Sys>, m: nat, n: nat, a: nat, b: nat)
    requires Reaches(run) && Opening(run[0], n, a, b) && m < |run|
    ensures Playing(run[m], n, a, b)
  {
    if m == 0 {
      StartInv(run[0]);
      OpeningTally(run[0], n, a, b);
    } else {
      hide Playing, Opening, Next;
      RunPlays(run, m - 1, n, a, b);
      NextPlays(run[m - 1], run[m], n, a, b);
    }
  }

  lemma OpeningTally(s: Sys, n: nat, a: nat, b: nat)
    requires Opening(s, n, a, b)
    ensures Tally(s, a, b)
  {
    assert s.procs[0] == Fresh(s.procs[0].script) && s.procs[1] == Fresh(s.procs[1].script);
    assert s.sems[a] == Opened(s.sems[a].initial) && s.sems[b] == Opened(s.sems[b].initial);
  }

  /** A process between its down and its up. */
  function Token(p: Proc): nat { if p.pos % 3 != 0 then 1 else 0 }

  lemma {:induction false} AlternatePrefix(m: nat, n: nat)
    requires m <= n
    ensures Alternate(m) <= Alternate(n)
    decreases n
  {
    if m < n { AlternatePrefix(m, n - 1); }
  }

  lemma OneToken(x: nat, y: nat, n: nat)
    requires InStep(x, y) && x <= 3 * n && y <= 3 * n
    ensures 1 + Ups(y) - Downs(x) + Ups(x) - Downs(y) + (if x % 3 != 0 then 1 else 0) + (if y % 3 != 0 then 1 else 0) == 1
    ensures Lines(x) + Lines(y) <= 2 * n && (x == y == 3 * n ==> Lines(x) + Lines(y) == 2 * n)
  {
  }

  /** In every interleaving: the output is a prefix of (ping pong)^n, and one token goes round. */
  lemma Alternates(run: seq<Sys>, n: nat, a: nat, b: nat)
    requires Reaches(run) && Opening(run[0], n, a, b)
    ensures var s := run[|run| - 1];
            && s.out <= Alternate(2 * n)
            && |s.procs| >= 2 && a < |s.sems| && b < |s.sems|
            && s.sems[a].value + s.sems[b].value + Token(s.procs[0]) + Token(s.procs[1]) == 1
            && s.sems[a].value >= 0 && s.sems[b].value >= 0
            && (Finished(s.procs[0]) && Finished(s.procs[1]) ==> s.out == Alternate(2 * n))
  {
    hide Inv, Alternate, Opening, Rounds, Next;
    var s := run[|run| - 1];
    RunPlays(run, |run| - 1, n, a, b);
    Lockstep(s, n, a, b);
    AlternatePrefix(Lines(s.procs[0].pos) + Lines(s.procs[1].pos), 2 * n);
    OneToken(s.procs[0].pos, s.procs[1].pos, n);
    hide InStep, Downs, Ups, Lines;
  }

  /** A stuck process is between two rounds, at a semaphore that is not up. */
  lemma StuckDown(s: Sys, n: nat, a: nat, b: nat, i: nat)
    requires Playing(s, n, a, b) && Stuck(s) && i < 2
    ensures var p, k := s.procs[i], if i == 0 then a else b;
            if Finished(p) then p.pos == 3 * n else p.pos % 3 == 0 && p.pos < 3 * n && s.sems[k].value <= 0
  {
    hide Inv, Stuck, Tally;
    if !Finished(s.procs[i]) { StuckMeansAsleep(s, i); }
  }

  /** No interleaving gets stuck before both processes have finished. */
  lemma NeverStuck(run: seq<Sys>, n: nat, a: nat, b: nat)
    requires Reaches(run) && Opening(run[0], n, a, b) && Stuck(run[|run| - 1])
    ensures var s := run[|run| - 1];
            |s.procs| >= 2 && Finished(s.procs[0]) && Finished(s.procs[1])
  {
    hide Inv, Alternate, Opening, Stuck, Next;
    var s := run[|run| - 1];
    RunPlays(run, |run| - 1, n, a, b);
    Lockstep(s, n, a, b);
    StuckDown(s, n, a, b, 0);
    StuckDown(s, n, a, b, 1);
    hide Tally, InRange, Rounds;
  }
}
