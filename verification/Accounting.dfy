/** Where waiting time goes: over every run, the interval a preempted task spends in the ready list, and nothing else,
    is its ready time. */
module Accounting {
  import opened TaskQueues
  import opened Ticks
  import opened Kernel
  import opened KernelRuns
  import RR = RoundRobin
  import BW = BoundedWaiting

  /** The clock of a step that can dispatch. */
  function ClockOf(e: Step): Clock
    requires e.Tick? || e.Exit? || e.Block? || e.Unblock?
  {
    e.clk
  }

  ghost predicate Waits(s: State, t: nat)
    requires Inv(s)
  {
    t in s.sch.q[READY]
  }

  lemma WaiterIsElsewhere(s: State, t: nat)
    requires Inv(s) && Waits(s, t)
    ensures t < s.c.nr && t != s.sch.cur && t !in s.sch.q[FREE]
    ensures forall b :: 2 <= b < |s.sch.q| ==> t !in s.sch.q[b]
  {
    assert In(s.sch.q, t);
    assert Below(s.sch.q[READY], s.c.nr);
    assert t == s.sch.q[READY][IndexIn(s.sch.q[READY], t)];
  }

  ghost function IndexIn(s: seq<nat>, t: nat): (k: nat)
    requires t in s
    ensures k < |s| && s[k] == t
  {
    var k :| 0 <= k < |s| && s[k] == t; k
  }

  /** A ready task that a step does not dispatch keeps its PCB; one that it dispatches is resumed with the step's
      clock. */
  lemma WaiterAfter(s: State, e: Step, t: nat)
    requires Inv(s) && Enabled(s, e) && Waits(s, t)
    ensures var s' := Next(s, e);
      && |s'.pcb| == s.c.nr && t < s.c.nr
      && (s'.sch.cur == t ==> e.Tick? || e.Exit? || e.Block? || e.Unblock?)
      && s'.pcb[t] == if s'.sch.cur == t then Resumed(s.pcb[t], t == s.c.nr - 1, ClockOf(e)) else s.pcb[t]
  {
    WaiterIsElsewhere(s, t);
    match e
    case Fork(clk) => ForkStart(s); ForkWaiter(s, clk, t);
    case Exit(clk) => ExitWaiter(s, clk, t);
    case Tick(clk) => TickWaiter(s, clk, t);
    case Block(b, clk) => BlockWaiter(s, b, clk, t);
    case Unblock(b, i, clk) => UnblockWaiter(s, b, i, clk, t);
    case _ =>
  }

  ghost predicate Went(s: State, s': State, t: nat, clk: Clock)
    requires t < |s.pcb|
  {
    && |s'.pcb| == |s.pcb|
    && s'.pcb[t] == if s'.sch.cur == t then Resumed(s.pcb[t], t == s.c.nr - 1, clk) else s.pcb[t]
  }

  lemma ForkWaiter(s: State, clk: Clock, t: nat)
    requires SizedMm(s) && t < s.c.nr && t != s.sch.cur && (s.sch.q[FREE] != [] ==> s.sch.q[FREE][0] != t)
    ensures var s' := ForkStep(s, clk).0; |s'.pcb| == s.c.nr && s'.sch.cur == s.sch.cur && s'.pcb[t] == s.pcb[t]
  {
  }

  lemma ExitWaiter(s: State, clk: Clock, t: nat)
    requires Inv(s) && s.sch.cur != s.c.nr - 1 && t < s.c.nr && t != s.sch.cur
    ensures Went(s, ExitStep(s, clk), t, clk)
  {
    RR.NextKeepsPartition(s.sch, s.c.nr, RR.Exit);
  }

  lemma TickWaiter(s: State, clk: Clock, t: nat)
    requires Inv(s) && t < s.c.nr && t != s.sch.cur
    ensures Went(s, TickStep(s, clk), t, clk)
  {
    RunningPid(s);
    RR.NextKeepsPartition(s.sch, s.c.nr, RR.Tick(s.pcb[s.sch.cur].pid != 0));
  }

  lemma BlockWaiter(s: State, b: nat, clk: Clock, t: nat)
    requires Inv(s) && s.sch.cur != s.c.nr - 1 && 2 <= b < |s.sch.q| && t < s.c.nr && t != s.sch.cur
    ensures Went(s, BlockStep(s, b, clk), t, clk)
  {
    RR.NextKeepsPartition(s.sch, s.c.nr, RR.Block(b));
  }

  lemma UnblockWaiter(s: State, b: nat, i: nat, clk: Clock, t: nat)
    requires Inv(s) && 2 <= b < |s.sch.q| && i < |s.sch.q[b]| && t < s.c.nr && t != s.sch.cur && t != s.sch.q[b][i]
    ensures Went(s, UnblockStep(s, b, i, clk), t, clk)
  {
    RR.NextKeepsPartition(s.sch, s.c.nr, RR.Unblock(b, i));
  }

  /** ... and stays ready. */
  lemma StaysReady(s: State, e: Step, t: nat)
    requires Inv(s) && Enabled(s, e) && Waits(s, t) && Next(s, e).sch.cur != t
    ensures Inv(Next(s, e)) && Waits(Next(s, e), t)
  {
    NextKeepsInv(s, e);
    assert t in Next(s, e).sch.q[READY] by {
      StepProjects(s, e);
      ReadyStays(s.sch, s.c.nr, EventOf(s, e), t);
    }
  }

  lemma ReadyStays(sch: RR.Sched, nr: nat, e: RR.Event, t: nat)
    requires RR.Partition(sch, nr) && RR.QuantumOk(sch, nr) && RR.Enabled(sch, nr, e) && t in sch.q[READY]
    requires RR.Next(sch, nr, e).cur != t
    ensures |RR.Next(sch, nr, e).q| >= 2 && t in RR.Next(sch, nr, e).q[READY]
  {
    var k' := BW.StepRank(sch, nr, e, IndexIn(sch.q[READY], t));
  }

  /** Over every run: a ready task that does not get the processor stays ready, and nobody touches its PCB. */
  lemma {:induction false} WaitingIsUntouched(s: State, es: seq<Step>, t: nat)
    requires Inv(s) && Runs(s, es) && Waits(s, t) && !GetsCpu(s, es, t)
    ensures Waits(After(s, es), t) && t < s.c.nr && After(s, es).pcb[t] == s.pcb[t]
    decreases |es|
  {
    WaiterIsElsewhere(s, t);
    if es != [] {
      UnfoldRun(s, es);
      WaiterAfter(s, es[0], t);
      StaysReady(s, es[0], t);
      WaitingIsUntouched(Next(s, es[0]), es[1..], t);
    }
  }

  /** The step -- the end of a quantum, or a wake-up that finds the quantum used up -- takes the processor from `t` and
      puts it back in the ready list. Idle is not put back by a tick. */
  ghost predicate Preempts(s: State, e: Step, t: nat)
    requires Inv(s) && Enabled(s, e)
  {
    s.sch.cur == t && Next(s, e).sch.cur != t && (e.Unblock? || (e.Tick? && t != s.c.nr - 1))
  }

  /** How a PCB is left by a task that is preempted. */
  ghost predicate Left(before: Pcb, after: Pcb, tick: bool, clk: Clock)
  {
    && !after.resume.FromFork? && (after.resume.FromClock? <==> tick) && after.state == StReady
    && after.account == KernelToUser(before.account, clk.leave)
  }

  lemma TickPreempts(s: State, clk: Clock)
    requires Inv(s) && InClock(s) && s.sch.cur != s.c.nr - 1 && TickStep(s, clk).sch.cur != s.sch.cur
    ensures var s' := TickStep(s, clk);
      |s'.pcb| == s.c.nr && Left(s.pcb[s.sch.cur], s'.pcb[s.sch.cur], true, clk) && |s'.sch.q| >= 2
          && s.sch.cur in s'.sch.q[READY]
  {
    RunningPid(s);
    RR.NextKeepsPartition(s.sch, s.c.nr, RR.Tick(true));
    var ready := TickStep(s, clk).sch.q[READY];
    assert ready != [] && ready[|ready| - 1] == s.sch.cur;
  }

  lemma UnblockPreempts(s: State, b: nat, i: nat, clk: Clock)
    requires Inv(s) && Enabled(s, Unblock(b, i, clk)) && UnblockStep(s, b, i, clk).sch.cur != s.sch.cur
    ensures var s' := UnblockStep(s, b, i, clk);
      |s'.pcb| == s.c.nr && Left(s.pcb[s.sch.cur], s'.pcb[s.sch.cur], false, clk) && |s'.sch.q| >= 2
          && s.sch.cur in s'.sch.q[READY]
  {
    var sch := RR.Next(s.sch, s.c.nr, RR.Unblock(b, i));
    RR.NextKeepsPartition(s.sch, s.c.nr, RR.Unblock(b, i));
    assert s.sch.q[b][i] in s.sch.q[b];
    assert sch.q[READY] != [] && sch.q[READY][|sch.q[READY]| - 1] == s.sch.cur;
  }

  lemma PreemptedAccount(s: State, e: Step, t: nat)
    requires Inv(s) && Enabled(s, e) && Preempts(s, e, t)
    ensures var s' := Next(s, e);
      |s'.pcb| == s.c.nr && Left(s.pcb[t], s'.pcb[t], e.Tick?, ClockOf(e)) && |s'.sch.q| >= 2 && t in s'.sch.q[READY]
  {
    match e
    case Tick(clk) => TickPreempts(s, clk);
    case Unblock(b, i, clk) => UnblockPreempts(s, b, i, clk);
    case _ =>
  }

  /** Waiting, then running. */
  lemma WaitThenRun(s: State, es: seq<Step>, e: Step, t: nat)
    requires Inv(s) && Runs(s, es) && Waits(s, t) && !GetsCpu(s, es, t)
    requires Enabled(After(s, es), e) && Next(After(s, es), e).sch.cur == t
    ensures e.Tick? || e.Exit? || e.Block? || e.Unblock?
    ensures var after := Next(After(s, es), e).pcb;
      t < |after| == s.c.nr == |s.pcb| && after[t] == Resumed(s.pcb[t], t == s.c.nr - 1, ClockOf(e))
  {
    WaitingIsUntouched(s, es, t);
    WaiterAfter(After(s, es), e, t);
  }

  /** What the PCB of a task holds when it runs again, given the account it had before it was preempted; one that a tick
      preempted still has the end of the clock routine to go through. */
  ghost predicate WaitCharged(before: Stats, after: Pcb, tick: bool, clk: Clock, later: Clock)
  {
    var a := after.account.st;
    && after.state == StRun
    && Is(a.ready, before.ready + later.arrive.first - clk.leave.second)
    && Is(a.system, before.system + clk.leave.first - before.elapsed
                    + if tick then later.back.first - later.arrive.second else 0)
    && a.user == before.user && a.blocked == before.blocked && a.remaining == before.remaining
    && Is(a.trans, before.trans + 1) && a.elapsed == if tick then later.back.second else later.arrive.second
  }

  lemma WaitAccount(p: Pcb, leaving: Pcb, isIdle: bool, tick: bool, clk: Clock, later: Clock)
    requires Left(p, leaving, tick, clk)
    ensures WaitCharged(p.account.st, Resumed(leaving, isIdle, later), tick, clk, later)
  {
    var a := ReadyToKernel(leaving.account, later.arrive);
    OneBucket(p.account, Entry(System, clk.leave));
    OneBucket(leaving.account, Entry(Ready, later.arrive));
    if tick { OneBucket(a, Entry(System, later.back)); }
    Chain(leaving.account.st.system, p.account.st.system + clk.leave.first - p.account.st.elapsed, a.st.system,
          KernelToUser(a, later.back).st.system, later.back.first - a.st.elapsed);
  }

  /** Two charges in a row. */
  lemma Chain(x: word, n: int, x': word, x'': word, d: int)
    requires Is(x, n)
    ensures Is(x'', x' + d) && x' == x ==> Is(x'', n + d)
  {
  }

  /** From preemption to the next dispatch, whatever runs in between: the ready time grows by exactly the wait, no user
      or blocked time is charged, and the switch is counted once. */
  lemma ReadyTimeIsTheWait(s: State, e0: Step, s1: State, es: seq<Step>, e: Step, t: nat)
    requires Inv(s) && Enabled(s, e0) && Preempts(s, e0, t)
    requires s1 == Next(s, e0) && Inv(s1) && Runs(s1, es) && !GetsCpu(s1, es, t)
    requires Enabled(After(s1, es), e) && Next(After(s1, es), e).sch.cur == t
    ensures e.Tick? || e.Exit? || e.Block? || e.Unblock?
    ensures var after := Next(After(s1, es), e).pcb;
      |after| == s.c.nr && WaitCharged(s.pcb[t].account.st, after[t], e0.Tick?, ClockOf(e0), ClockOf(e))
  {
    PreemptedAccount(s, e0, t);
    WaitThenRun(s1, es, e, t);
    assert |s1.pcb| == s.c.nr == s1.c.nr;
    WaitAccount(s.pcb[t], s1.pcb[t], t == s.c.nr - 1, e0.Tick?, ClockOf(e0), ClockOf(e));
  }

  ghost predicate FirstWaitCharged(before: Pcb, after: Pcb, later: Clock)
  {
    var b, a := before.account.st, after.account.st;
    && a.system == Add(b.system, later.arrive.first - b.elapsed)
    && a.ready == b.ready && a.trans == b.trans && after.state == before.state
  }

  lemma FirstWaitAccount(p: Pcb, later: Clock)
    requires p.resume == FromFork
    ensures FirstWaitCharged(p, Resumed(p, false, later), later)
  {
  }

  /** The first wait of a new process is charged to its system time instead, is not counted as a switch, and leaves the
      task state alone. */
  lemma FirstWaitIsSystemTime(s: State, es: seq<Step>, e: Step, t: nat)
    requires Inv(s) && Runs(s, es) && Waits(s, t) && !GetsCpu(s, es, t)
    requires t < s.c.nr - 1 && s.pcb[t].resume == FromFork
    requires Enabled(After(s, es), e) && Next(After(s, es), e).sch.cur == t
    ensures e.Tick? || e.Exit? || e.Block? || e.Unblock?
    ensures var after := Next(After(s, es), e).pcb;
      |after| == s.c.nr && FirstWaitCharged(s.pcb[t], after[t], ClockOf(e))
  {
    WaitThenRun(s, es, e, t);
    FirstWaitAccount(s.pcb[t], ClockOf(e));
  }
}
