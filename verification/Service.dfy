/** The laws of dispatch for the kernel and its runs: order of service, whole quanta, and a process that runs alone. */
module Service {
  import opened TaskQueues
  import opened Kernel
  import opened KernelRuns
  import opened KernelTheorems
  import opened ReadyLine
  import opened IdleWrap
  import opened Division
  import RR = RoundRobin
  import BW = BoundedWaiting

  /** Every step of the kernel that makes it choose gives the processor to the foremost task in line, with that task's
      whole quantum, or to idle if nobody is in line; every other step leaves the processor where it is. */
  lemma KernelDispatchLaw(s: State, e: Step)
    requires Inv(s) && Enabled(s, e)
    ensures RR.Enabled(s.sch, s.c.nr, EventOf(s, e))
    ensures var s', ev := Next(s, e).sch, EventOf(s, e);
      var line := s.sch.q[READY] + Joins(s.sch, s.c.nr, ev);
      && |s'.q| == |s.sch.q| && s'.cur < |s'.quantum| == s.c.nr
      && (Chooses(s.sch, ev) && line != [] ==> [s'.cur] + s'.q[READY] == line && s'.cq == s'.quantum[s'.cur])
      && (Chooses(s.sch, ev) && line == [] ==> s'.cur == s.c.nr - 1 && s'.q[READY] == [])
      && (!Chooses(s.sch, ev) ==> s'.cur == s.sch.cur && s'.q[READY] == line)
  {
    StepProjects(s, e);
    DispatchLaw(s.sch, s.c.nr, EventOf(s, e));
  }

  /** First in, first out over every run of the kernel. */
  lemma KernelIsFifo(s: State, es: seq<Step>)
    requires Inv(s) && Runs(s, es)
    ensures BW.Runs(s.sch, s.c.nr, Events(s, es))
    ensures Served(s.sch, s.c.nr, Events(s, es)) + After(s, es).sch.q[READY]
         == s.sch.q[READY] + Joined(s.sch, s.c.nr, Events(s, es))
  {
    RunProjects(s, es);
    FirstInFirstOut(s.sch, s.c.nr, Events(s, es));
  }

  // ---------------------------------------------------------------- quanta

  /** Every process has the quantum `n`. */
  ghost predicate SameQuanta(s: State, n: int)
    requires Inv(s)
  {
    forall t :: IsLive(s, t) ==> 0 <= t < |s.sch.quantum| && s.sch.quantum[t] == n
  }

  lemma QuantaStep(s: State, e: Step, s': State, n: int)
    requires Inv(s) && Enabled(s, e) && s' == Next(s, e) && Inv(s') && SameQuanta(s, n)
    ensures SameQuanta(s', n)
  {
    forall t | IsLive(s', t) ensures t < |s'.sch.quantum| && s'.sch.quantum[t] == n {
      QuantumOf(s, e, s', n, t);
    }
  }

  lemma QuantumOf(s: State, e: Step, s': State, n: int, t: nat)
    requires Inv(s) && Enabled(s, e) && s' == Next(s, e) && Inv(s') && SameQuanta(s, n) && IsLive(s', t)
    ensures t < |s'.sch.quantum| && s'.sch.quantum[t] == n
  {
    var free' := FreeAfter(s, e);
    assert s'.c == s.c by { PidAfter(s, e, 0); }
    StepProjects(s, e);
    Quanta(s.sch, s.c.nr, EventOf(s, e), t);
    FreeListShape(s.sch, s.c.nr);
    if e.Fork? { assert IsLive(s, s.sch.cur); }
  }

  /** Over every run all processes have the quantum that they all had at the start: nobody changes one, and a child gets
      its parent's. */
  lemma {:induction false} QuantaOverRuns(s: State, es: seq<Step>, n: int)
    requires Inv(s) && Runs(s, es) && SameQuanta(s, n)
    ensures SameQuanta(After(s, es), n)
    decreases |es|
  {
    if es != [] {
      RunHead(s, es);
      QuantaStep(s, es[0], Next(s, es[0]), n);
      QuantaOverRuns(Next(s, es[0]), es[1..], n);
    }
  }

  // ---------------------------------------------------------------- alone

  /** A process runs and nobody else is ready. */
  ghost predicate RunsAlone(s: State, p: nat)
  {
    Inv(s) && s.sch.cur == p != s.c.nr - 1 && s.sch.q[READY] == [] && !InClock(s)
  }

  /** The scheduler of a process that runs alone, at a tick. */
  lemma AloneTick(sch: RR.Sched, nr: nat)
    requires RR.Partition(sch, nr) && sch.cur != nr - 1 && sch.q[READY] == [] && sch.cq >= 0
    ensures RR.Next(sch, nr, RR.Tick(true)) == sch.(cq := if sch.cq > 1 then sch.cq - 1 else sch.quantum[sch.cur])
  {
    var s' := RR.Next(sch, nr, RR.Tick(true));
    DispatchLaw(sch, nr, RR.Tick(true));
    assert forall a :: 0 <= a < |sch.q| && a != READY ==> s'.q[a] == sch.q[a];
    if sch.cq <= 1 {
      assert [s'.cur] + s'.q[READY] == [sch.cur];
      assert s'.q == sch.q;
    }
  }

  lemma OneAloneTick(s: State, p: nat, clk: Clock)
    requires RunsAlone(s, p)
    ensures AfterTick(s, clk).sch == s.sch.(cq := if s.sch.cq > 1 then s.sch.cq - 1 else s.sch.quantum[p])
    ensures AfterTick(s, clk).c == s.c && !InClock(AfterTick(s, clk))
  {
    InterruptKeeps(s, clk.entry);
    var s1 := InterruptStep(s, clk.entry);
    RunningPid(s1);
    AloneTick(s1.sch, s1.c.nr);
    TickLeavesClock(s1, clk);
  }

  lemma TickLeavesClock(s: State, clk: Clock)
    requires Inv(s) && InClock(s) && RR.Next(s.sch, s.c.nr, RR.Tick(s.pcb[s.sch.cur].pid != 0)).cur == s.sch.cur
    ensures var r := TickStep(s, clk);
      r.sch.cur < |r.pcb| && !InClock(r) && r.c == s.c
      && r.sch == RR.Next(s.sch, s.c.nr, RR.Tick(s.pcb[s.sch.cur].pid != 0))
  {
  }

  /** n clock interrupts have left the process its processor, and `left` of its quantum. */
  ghost predicate StillAlone(s: State, n: nat, clk: Clock, left: int)
    requires Inv(s)
  {
    && Runs(s, ClockTicks(n, clk))
    && var r := After(s, ClockTicks(n, clk)); r.sch == s.sch.(cq := left) && !InClock(r)
  }

  lemma AloneOnce(s: State, p: nat, n: nat, clk: Clock, left: int)
    requires RunsAlone(s, p) && StillAlone(s, n, clk, left) && left >= 0
    ensures StillAlone(s, n + 1, clk, if left > 1 then left - 1 else s.sch.quantum[p])
  {
    var r := After(s, ClockTicks(n, clk));
    OneTickRuns(r, clk);
    OneAloneTick(r, p, clk);
    RunConcat(s, ClockTicks(n, clk), [Interrupt(clk.entry), Tick(clk)]);
  }

  /** What is left of a quantum of q ticks after n of them, tick by tick. */
  function Remaining(q: nat, n: nat): int
  {
    if n == 0 then q
    else if Remaining(q, n - 1) > 1 then Remaining(q, n - 1) - 1
    else q
  }

  /** ... and at once. */
  lemma {:induction false} RemainingIs(q: nat, n: nat)
    requires q >= 1
    ensures Remaining(q, n) == q - n % q
  {
    if n == 0 {
      DivModUnique(0, q, 0, 0);
    } else {
      RemainingIs(q, n - 1);
      NextRemainder(n - 1, q);
    }
  }

  lemma NextRemainder(n: nat, q: nat)
    requires q >= 1
    ensures (n + 1) % q == (if n % q == q - 1 then 0 else n % q + 1) && 0 <= n % q < q
  {
    DivisionEquation(n, q);
    StepRemainder(n, q, n / q, n % q);
  }

  lemma StepRemainder(n: nat, q: nat, k: nat, r: nat)
    requires q >= 1 && n == k * q + r && r < q
    ensures (n + 1) % q == if r == q - 1 then 0 else r + 1
  {
    if r == q - 1 {
      NextMultiple(n, q, k);
      DivModUnique(n + 1, q, k + 1, 0);
    } else {
      DivModUnique(n + 1, q, k, r + 1);
    }
  }

  lemma NextMultiple(n: nat, q: nat, k: nat)
    requires n == k * q + (q - 1)
    ensures n + 1 == (k + 1) * q
  {
  }

  ghost predicate AloneSince(s: State, n: nat, clk: Clock, q: nat)
    requires Inv(s)
  {
    && Remaining(q, n) >= 0 && Runs(s, ClockTicks(n, clk))
    && var r := After(s, ClockTicks(n, clk)); r.sch == s.sch.(cq := Remaining(q, n)) && !InClock(r)
  }

  lemma AloneNext(s: State, p: nat, n: nat, clk: Clock, q: nat)
    requires RunsAlone(s, p) && q == s.sch.quantum[p] && AloneSince(s, n, clk, q)
    ensures AloneSince(s, n + 1, clk, q)
  {
    AloneOnce(s, p, n, clk, Remaining(q, n));
  }

  lemma AloneAtRest(s: State, p: nat, clk: Clock, q: nat)
    requires RunsAlone(s, p) && q == s.sch.cq
    ensures AloneSince(s, 0, clk, q)
  {
  }

  lemma AloneTicks(s: State, p: nat, n: nat, clk: Clock, q: nat)
    requires RunsAlone(s, p) && q == s.sch.cq == s.sch.quantum[p]
    ensures AloneSince(s, n, clk, q)
  {
    AloneAtRest(s, p, clk, q);
    for i := 0 to n
      invariant AloneSince(s, i, clk, q)
    {
      AloneNext(s, p, i, clk, q);
    }
  }

  /** A process that runs alone with its whole quantum keeps the processor, and has its whole quantum again every time
      that many ticks have gone by. */
  lemma AloneCycles(s: State, p: nat, n: nat, clk: Clock)
    requires RunsAlone(s, p) && s.sch.cq == s.sch.quantum[p] >= 1
    ensures StillAlone(s, n, clk, s.sch.cq - n % s.sch.cq)
  {
    AloneTicks(s, p, n, clk, s.sch.cq);
    RemainingIs(s.sch.cq, n);
  }
}
