/** An idle machine decrements CPU_QUANTUM on every tick and never reloads it, until it wraps; a process that becomes
    ready after that waits for 2^31 - 1 ticks. */
module IdleWrap {
  import opened Params
  import opened TaskQueues
  import opened Ticks
  import opened Kernel
  import opened KernelRuns
  import opened ReadyLine

  /** Idle runs, nobody is ready and the quantum is used up. */
  ghost predicate Idling(s: State)
  {
    Inv(s) && s.sch.cur == s.c.nr - 1 && s.sch.q[READY] == [] && s.sch.cq <= 0 && !InClock(s)
  }

  /** n clock interrupts, in which the console wakes nobody. */
  function ClockTicks(n: nat, clk: Clock): seq<Step>
  {
    if n == 0 then [] else ClockTicks(n - 1, clk) + [Interrupt(clk.entry), Tick(clk)]
  }

  /** The state after one of them. */
  ghost function AfterTick(s: State, clk: Clock): State
    requires Inv(s)
  {
    InterruptKeeps(s, clk.entry);
    TickStep(InterruptStep(s, clk.entry), clk)
  }

  lemma OneTickRuns(s: State, clk: Clock)
    requires Inv(s) && !InClock(s)
    ensures Runs(s, [Interrupt(clk.entry), Tick(clk)])
    ensures After(s, [Interrupt(clk.entry), Tick(clk)]) == AfterTick(s, clk)
  {
    assert [Interrupt(clk.entry)] + [Tick(clk)] == [Interrupt(clk.entry), Tick(clk)];
    EntersClock(s, clk.entry);
    RunOne(s, Interrupt(clk.entry));
    FinishesClock(After(s, [Interrupt(clk.entry)]), clk);
    RunConcat(s, [Interrupt(clk.entry)], [Tick(clk)]);
  }

  lemma EntersClock(s: State, at: Reads)
    requires Inv(s)
    ensures Inv(InterruptStep(s, at)) && InClock(InterruptStep(s, at))
  {
    InterruptKeeps(s, at);
  }

  lemma FinishesClock(s: State, clk: Clock)
    requires Inv(s) && InClock(s)
    ensures Runs(s, [Tick(clk)]) && After(s, [Tick(clk)]) == TickStep(s, clk)
  {
    RunOne(s, Tick(clk));
  }

  /** A tick of the idle machine changes CPU_QUANTUM and nothing else of the scheduler. */
  lemma OneTick(s: State, clk: Clock)
    requires Idling(s)
    ensures Inv(AfterTick(s, clk)) && AfterTick(s, clk).sch == s.sch.(cq := Dec32(s.sch.cq))
    ensures AfterTick(s, clk).c == s.c && !InClock(AfterTick(s, clk))
  {
    InterruptKeeps(s, clk.entry);
    TickKeeps(InterruptStep(s, clk.entry), clk);
    RunningPid(s);
  }

  lemma OneMoreTick(s: State, n: nat, clk: Clock)
    requires Inv(s) && Runs(s, ClockTicks(n, clk)) && Idling(After(s, ClockTicks(n, clk)))
    ensures Runs(s, ClockTicks(n + 1, clk))
    ensures After(s, ClockTicks(n + 1, clk)) == AfterTick(After(s, ClockTicks(n, clk)), clk)
  {
    OneTickRuns(After(s, ClockTicks(n, clk)), clk);
    RunConcat(s, ClockTicks(n, clk), [Interrupt(clk.entry), Tick(clk)]);
  }

  /** n ticks have lowered CPU_QUANTUM by n and changed nothing else of the scheduler. */
  ghost predicate Lowered(s: State, n: nat, clk: Clock)
    requires Inv(s)
  {
    && Runs(s, ClockTicks(n, clk))
    && var r := After(s, ClockTicks(n, clk)); r.sch == s.sch.(cq := s.sch.cq - n) && !InClock(r)
  }

  lemma LowerOnce(s: State, n: nat, clk: Clock)
    requires Idling(s) && Lowered(s, n, clk) && s.sch.cq - n > INT_MIN
    ensures Lowered(s, n + 1, clk)
  {
    OneMoreTick(s, n, clk);
    OneTick(After(s, ClockTicks(n, clk)), clk);
  }

  lemma IdleTicks(s: State, n: nat, clk: Clock)
    requires Idling(s) && s.sch.cq - n >= INT_MIN
    ensures Lowered(s, n, clk)
  {
    NotLowered(s, clk);
    for i := 0 to n
      invariant Lowered(s, i, clk)
    {
      LowerOnce(s, i, clk);
    }
  }

  lemma NotLowered(s: State, clk: Clock)
    requires Idling(s)
    ensures Lowered(s, 0, clk)
  {
  }

  /** ... until the tick that wraps it. */
  ghost predicate Wrapped(s: State, n: nat, clk: Clock)
    requires Inv(s)
  {
    Runs(s, ClockTicks(n, clk)) && After(s, ClockTicks(n, clk)).sch == s.sch.(cq := INT_MAX)
  }

  lemma WrapOnce(s: State, n: nat, clk: Clock)
    requires Idling(s) && Lowered(s, n, clk) && s.sch.cq - n == INT_MIN
    ensures Wrapped(s, n + 1, clk)
  {
    OneMoreTick(s, n, clk);
    OneTick(After(s, ClockTicks(n, clk)), clk);
  }

  lemma Wraps(s: State, clk: Clock) returns (n: nat)
    requires Idling(s)
    ensures n == s.sch.cq - INT_MIN + 1 && Wrapped(s, n, clk)
  {
    n := s.sch.cq - INT_MIN;
    IdleTicks(s, n, clk);
    WrapOnce(s, n, clk);
    n := n + 1;
  }

  /** The process at the head of blocking queue `b` is woken after the wrap. */
  function WakeAfterWrap(n: nat, b: nat, clk: Clock): seq<Step>
  {
    ClockTicks(n, clk) + [Unblock(b, 0, clk)]
  }

  lemma WokenAfterWrap(s: State, b: nat, clk: Clock) returns (n: nat)
    requires Idling(s) && 2 <= b < |s.sch.q| && s.sch.q[b] != []
    ensures n == s.sch.cq - INT_MIN + 1 && Runs(s, WakeAfterWrap(n, b, clk))
    ensures var r := After(s, WakeAfterWrap(n, b, clk)); r.sch.q[READY] == [s.sch.q[b][0]] && r.sch.cq == INT_MAX
  {
    n := Wraps(s, clk);
    Wake(After(s, ClockTicks(n, clk)), b, clk);
    RunConcat(s, ClockTicks(n, clk), [Unblock(b, 0, clk)]);
  }

  lemma Wake(s: State, b: nat, clk: Clock)
    requires Inv(s) && s.sch.q[READY] == [] && s.sch.cq == INT_MAX && 2 <= b < |s.sch.q| && s.sch.q[b] != []
    ensures Runs(s, [Unblock(b, 0, clk)])
    ensures var sch := After(s, [Unblock(b, 0, clk)]).sch; sch.q[READY] == [s.sch.q[b][0]] && sch.cq == INT_MAX
  {
    RunOne(s, Unblock(b, 0, clk));
    WakeLaw(s.sch, s.c.nr, b, 0);
    StepProjects(s, Unblock(b, 0, clk));
  }

  /** In the run `later`, if only the clock schedules, `t` gets the processor at its n-th tick and not before. */
  ghost predicate OnlyAtTick(r: State, later: seq<Step>, t: nat, n: nat)
    requires Inv(r)
  {
    Runs(r, later) && OnlyClock(later) && TickCount(later) <= n ==> (GetsCpu(r, later, t) <==> TickCount(later) == n)
  }

  /** From any idling state with somebody blocked: after the wrap and the wake-up, in every run where only the clock
      schedules, the woken process gets the processor at tick 2^31 - 1 and not before. */
  lemma IdleWrapStarves(s: State, b: nat, clk: Clock, later: seq<Step>) returns (n: nat)
    requires Idling(s) && 2 <= b < |s.sch.q| && s.sch.q[b] != []
    ensures n == s.sch.cq - INT_MIN + 1 && Runs(s, WakeAfterWrap(n, b, clk))
    ensures OnlyAtTick(After(s, WakeAfterWrap(n, b, clk)), later, s.sch.q[b][0], INT_MAX)
  {
    n := WokenAfterWrap(s, b, clk);
    var r := After(s, WakeAfterWrap(n, b, clk));
    if Runs(r, later) && OnlyClock(later) && TickCount(later) <= INT_MAX {
      ClockAloneIsExact(r, later, 0);
    }
  }
}
