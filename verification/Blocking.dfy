/** Blocking, waiting in a blocking queue, and being woken: what it does to a process's times, over every run. */
module Blocking {
  import opened TaskQueues
  import opened Ticks
  import opened Kernel
  import opened KernelRuns
  import opened Accounting
  import RR = RoundRobin
  import ReadyLine

  // ---------------------------------------------------------------- going to sleep

  /** The statistics of a task that has blocked: its system time is the time from its last reading to the switch, and
      what there was before is gone. */
  ghost predicate BlockCharged(before: Stats, after: Stats, clk: Clock)
  {
    && Is(after.system, (clk.event.first - before.elapsed) + (clk.leave.first - clk.event.second))
    && after.user == before.user && after.ready == before.ready && after.blocked == before.blocked
    && after.trans == before.trans && after.remaining == before.remaining && after.elapsed == clk.leave.second
  }

  lemma BlockAccount(a: Account, clk: Clock)
    ensures BlockCharged(a.st, KernelToUser(EnterBlocked(a, clk.event), clk.leave).st, clk)
  {
    var b := EnterBlocked(a, clk.event);
    OneBucket(a, Entry(Blocking, clk.event));
    OneBucket(b, Entry(System, clk.leave));
    Chain(b.st.system, clk.event.first - a.st.elapsed, b.st.system, KernelToUser(b, clk.leave).st.system,
          clk.leave.first - b.st.elapsed);
  }

  /** Blocking: the task stands last in the queue, in state ready -- the switch overwrites the other -- with these
      times. */
  lemma BlockCharges(s: State, b: nat, clk: Clock)
    requires Inv(s) && Enabled(s, Block(b, clk))
    ensures var s', t := BlockStep(s, b, clk), s.sch.cur;
      && |s'.pcb| == |s.pcb| && |s'.sch.q| == |s.sch.q|
      && s'.sch.q[b] == s.sch.q[b] + [t] && s'.sch.cur != t
      && BlockCharged(s.pcb[t].account.st, s'.pcb[t].account.st, clk)
      && s'.pcb[t].state == StReady && s'.pcb[t].pid == s.pcb[t].pid
  {
    var t := s.sch.cur;
    RR.NextKeepsPartition(s.sch, s.c.nr, RR.Block(b));
    ReadyLine.OtherLists(s.sch, s.c.nr, RR.Block(b), b);
    NotRunning(RR.Next(s.sch, s.c.nr, RR.Block(b)), s.c.nr, b, s.sch.q[b], t);
    BlockedPcb(s, b, clk);
    BlockAccount(s.pcb[t].account, clk);
  }

  lemma NotRunning(sch: RR.Sched, nr: nat, b: nat, before: seq<nat>, t: nat)
    requires RR.Partition(sch, nr) && b < |sch.q| && sch.q[b] == before + [t]
    ensures sch.cur != t
  {
    assert sch.q[b][|before|] == t;
  }

  lemma BlockedPcb(s: State, b: nat, clk: Clock)
    requires Sized(s) && b < |s.sch.q|
    requires var sch := RR.Next(s.sch, s.c.nr, RR.Block(b)); sch.cur < s.c.nr && sch.cur != s.sch.cur
    ensures var s', t := BlockStep(s, b, clk), s.sch.cur;
      && |s'.pcb| == |s.pcb| && s'.sch == RR.Next(s.sch, s.c.nr, RR.Block(b))
      && s'.pcb[t].account == KernelToUser(EnterBlocked(s.pcb[t].account, clk.event), clk.leave)
      && s'.pcb[t].state == StReady && s'.pcb[t].pid == s.pcb[t].pid
  {
  }

  // ---------------------------------------------------------------- asleep

  /** The step wakes `t`. */
  ghost predicate Wakes(s: State, e: Step, t: nat)
    requires Inv(s) && Enabled(s, e)
  {
    e.Unblock? && s.sch.q[e.queue][e.index] == t
  }

  ghost predicate Sleeps(s: State, b: int, t: int)
    requires Inv(s)
  {
    2 <= b < |s.sch.q| && t in s.sch.q[b]
  }

  lemma SleeperIsElsewhere(s: State, b: nat, t: nat)
    requires Inv(s) && Sleeps(s, b, t)
    ensures t < s.c.nr && t != s.sch.cur && t !in s.sch.q[FREE]
  {
    assert In(s.sch.q, t);
    assert Below(s.sch.q[b], s.c.nr);
    assert t == s.sch.q[b][IndexIn(s.sch.q[b], t)];
  }

  lemma SleepsOn(sch: RR.Sched, nr: nat, e: RR.Event, b: nat, t: nat)
    requires RR.Partition(sch, nr) && RR.Enabled(sch, nr, e) && 2 <= b < |sch.q| && t in sch.q[b]
    requires !(e.Unblock? && sch.q[e.queue][e.index] == t)
    ensures var sch' := RR.Next(sch, nr, e); |sch'.q| == |sch.q| && t in sch'.q[b] && sch'.cur != t
  {
    RR.NextKeepsPartition(sch, nr, e);
    ReadyLine.OtherLists(sch, nr, e, b);
    var k := IndexIn(sch.q[b], t);
    if e.Unblock? && e.queue == b {
      assert sch.q[b][..e.index] + sch.q[b][e.index + 1..] == RR.Next(sch, nr, e).q[b];
      assert if k < e.index then sch.q[b][..e.index][k] == t else sch.q[b][e.index + 1..][k - e.index - 1] == t;
    }
    assert In(RR.Next(sch, nr, e).q, t);
  }

  /** Nobody touches the PCB of a task in a blocking queue, and it stays there until it is woken. */
  lemma SleeperAfter(s: State, e: Step, s': State, b: nat, t: nat)
    requires Inv(s) && Enabled(s, e) && s' == Next(s, e) && Inv(s') && Sleeps(s, b, t) && !Wakes(s, e, t)
    ensures Sleeps(s', b, t) && t < s.c.nr == |s'.pcb| && s'.pcb[t] == s.pcb[t]
  {
    SleeperIsElsewhere(s, b, t);
    assert Sleeps(s', b, t) && s'.sch.cur != t by {
      StepProjects(s, e);
      SleepsOn(s.sch, s.c.nr, EventOf(s, e), b, t);
    }
    BystanderAfter(s, e, t);
  }

  /** A task that neither runs nor is woken nor forked: a step that does not dispatch it leaves its PCB alone. */
  lemma BystanderAfter(s: State, e: Step, t: nat)
    requires Inv(s) && Enabled(s, e) && t < s.c.nr && t != s.sch.cur && t !in s.sch.q[FREE] && !Wakes(s, e, t)
    requires Next(s, e).sch.cur != t
    ensures |Next(s, e).pcb| == s.c.nr && Next(s, e).pcb[t] == s.pcb[t]
  {
    match e
    case Fork(clk) => ForkStart(s); ForkWaiter(s, clk, t);
    case Exit(clk) => ExitWaiter(s, clk, t);
    case Tick(clk) => TickWaiter(s, clk, t);
    case Block(b, clk) => BlockWaiter(s, b, clk, t);
    case Unblock(b, i, clk) => UnblockWaiter(s, b, i, clk, t);
    case _ =>
  }

  ghost predicate NeverWoken(s: State, es: seq<Step>, t: nat)
    requires Inv(s) && Runs(s, es)
    decreases |es|
  {
    es == [] || (RunHead(s, es); !Wakes(s, es[0], t) && NeverWoken(Next(s, es[0]), es[1..], t))
  }

  /** Over every run: a task in a blocking queue stays there, untouched, until it is woken. */
  lemma {:induction false} BlockedIsUntouched(s: State, es: seq<Step>, b: nat, t: nat)
    requires Inv(s) && Runs(s, es) && Sleeps(s, b, t) && NeverWoken(s, es, t)
    ensures Sleeps(After(s, es), b, t) && t < s.c.nr && After(s, es).pcb[t] == s.pcb[t]
    decreases |es|
  {
    SleeperIsElsewhere(s, b, t);
    if es != [] {
      RunHead(s, es);
      SleeperAfter(s, es[0], Next(s, es[0]), b, t);
      BlockedIsUntouched(Next(s, es[0]), es[1..], b, t);
    }
  }

  // ---------------------------------------------------------------- waking up

  /** Waking: the sleep goes to the blocked time, and no user time is charged; a task that is dispatched at once has
      waited since. */
  lemma UnblockCharges(s: State, b: nat, i: nat, clk: Clock)
    requires Inv(s) && Enabled(s, Unblock(b, i, clk)) && s.pcb[s.sch.q[b][i]].resume.FromCall?
    ensures var s', t := UnblockStep(s, b, i, clk), s.sch.q[b][i];
      && t < |s'.pcb| == |s.pcb|
      && WakeCharged(s.pcb[t].account.st, s'.pcb[t], s'.sch.cur == t, clk)
  {
    var t, sch := s.sch.q[b][i], RR.Next(s.sch, s.c.nr, RR.Unblock(b, i));
    assert t in s.sch.q[b];
    SleeperIsElsewhere(s, b, t);
    RR.NextKeepsPartition(s.sch, s.c.nr, RR.Unblock(b, i));
    WokenPcb(s, b, i, clk);
    WakeAccount(s.pcb[t], UnblockStep(s, b, i, clk).pcb[t], sch.cur == t, clk);
  }

  lemma WakeAccount(p: Pcb, p': Pcb, runs: bool, clk: Clock)
    requires var woken := LeaveBlocked(p.account, clk.event);
      p'.account == (if runs then ReadyToKernel(woken, clk.arrive) else woken)
          && p'.state == if runs then StRun else StReady
    ensures WakeCharged(p.account.st, p', runs, clk)
  {
    OneBucket(p.account, Entry(Blocked, clk.event));
    OneBucket(LeaveBlocked(p.account, clk.event), Entry(Ready, clk.arrive));
  }

  ghost predicate WakeCharged(before: Stats, after: Pcb, runs: bool, clk: Clock)
  {
    var a := after.account.st;
    && Is(a.blocked, before.blocked + clk.event.first - before.elapsed)
    && a.user == before.user && a.system == before.system && a.remaining == before.remaining
    && Is(a.ready, before.ready + if runs then clk.arrive.first - clk.event.second else 0)
    && Is(a.trans, before.trans + if runs then 1 else 0)
    && a.elapsed == (if runs then clk.arrive.second else clk.event.second)
    && after.state == if runs then StRun else StReady
  }

  lemma WokenPcb(s: State, b: nat, i: nat, clk: Clock)
    requires Sized(s) && b < |s.sch.q| && i < |s.sch.q[b]| && s.sch.q[b][i] < s.c.nr && s.sch.q[b][i] != s.sch.cur
    requires RR.Next(s.sch, s.c.nr, RR.Unblock(b, i)).cur < s.c.nr && s.pcb[s.sch.q[b][i]].resume.FromCall?
    ensures var s', t := UnblockStep(s, b, i, clk), s.sch.q[b][i];
      && |s'.pcb| == |s.pcb| && s'.sch == RR.Next(s.sch, s.c.nr, RR.Unblock(b, i))
      && var woken := LeaveBlocked(s.pcb[t].account, clk.event);
         && s'.pcb[t].account == (if s'.sch.cur == t then ReadyToKernel(woken, clk.arrive) else woken)
         && s'.pcb[t].state == if s'.sch.cur == t then StRun else StReady
  {
  }

  /** The times of a task that has slept and was woken. */
  ghost predicate SleepCharged(before: Stats, after: Stats, clk: Clock, wake: Clock)
  {
    && Is(after.blocked, before.blocked + wake.event.first - clk.leave.second) && after.user == before.user
    && Is(after.system, (clk.event.first - before.elapsed) + (clk.leave.first - clk.event.second))
  }

  lemma SleepAccount(before: Stats, asleep: Stats, after: Pcb, runs: bool, clk: Clock, wake: Clock)
    requires BlockCharged(before, asleep, clk) && WakeCharged(asleep, after, runs, wake)
    ensures SleepCharged(before, after.account.st, clk, wake)
  {
  }

  /** From going to sleep to being woken, whatever runs in between: the blocked time grows by exactly the sleep, the
      user time not at all, and the system time is what BlockCharged says. */
  lemma BlockedTimeIsTheSleep(s: State, b: nat, clk: Clock, s1: State, es: seq<Step>, s2: State, i: nat, wake: Clock)
    requires Inv(s) && Enabled(s, Block(b, clk)) && s1 == BlockStep(s, b, clk) && Inv(s1) && Runs(s1, es)
    requires NeverWoken(s1, es, s.sch.cur) && s2 == After(s1, es) && Enabled(s2, Unblock(b, i, wake))
    requires s2.sch.q[b][i] == s.sch.cur
    ensures var after := UnblockStep(s2, b, i, wake).pcb;
      s.sch.cur < |after| && SleepCharged(s.pcb[s.sch.cur].account.st, after[s.sch.cur].account.st, clk, wake)
  {
    var t := s.sch.cur;
    FallsAsleep(s, b, clk, s1);
    BlockedIsUntouched(s1, es, b, t);
    UnblockCharges(s2, b, i, wake);
    var s3 := UnblockStep(s2, b, i, wake);
    SleepAccount(s.pcb[t].account.st, s1.pcb[t].account.st, s3.pcb[t], s3.sch.cur == t, clk, wake);
  }

  lemma FallsAsleep(s: State, b: nat, clk: Clock, s1: State)
    requires Inv(s) && Enabled(s, Block(b, clk)) && s1 == BlockStep(s, b, clk) && Inv(s1)
    ensures s.sch.cur < |s1.pcb| && Sleeps(s1, b, s.sch.cur) && s1.pcb[s.sch.cur].resume == FromCall
    ensures BlockCharged(s.pcb[s.sch.cur].account.st, s1.pcb[s.sch.cur].account.st, clk)
  {
    BlockCharges(s, b, clk);
    BlockResumes(s, b, clk);
    assert s1.sch.q[b][|s.sch.q[b]|] == s.sch.cur;
  }

  lemma BlockResumes(s: State, b: nat, clk: Clock)
    requires Inv(s) && Enabled(s, Block(b, clk))
    ensures s.sch.cur < |BlockStep(s, b, clk).pcb| == s.c.nr && BlockStep(s, b, clk).c == s.c
    ensures BlockStep(s, b, clk).pcb[s.sch.cur].resume == FromCall
  {
    RR.NextKeepsPartition(s.sch, s.c.nr, RR.Block(b));
  }

  /** Every task in a blocking queue is in the middle of a call, in state ready. */
  ghost predicate SleepersAreReady(s: State)
    requires Inv(s)
  {
    forall b, t :: Sleeps(s, b, t) ==> InACall(s, t)
  }

  ghost predicate InACall(s: State, t: int)
  {
    0 <= t < |s.pcb| && s.pcb[t].resume == FromCall && s.pcb[t].state == StReady
  }

  lemma WhoSleeps(sch: RR.Sched, nr: nat, e: RR.Event, b: nat, t: nat)
    requires RR.Partition(sch, nr) && RR.Enabled(sch, nr, e) && 2 <= b < |sch.q| && |RR.Next(sch, nr, e).q| == |sch.q|
    requires t in RR.Next(sch, nr, e).q[b]
    ensures (e == RR.Block(b) && t == sch.cur) || (t in sch.q[b] && !(e.Unblock? && sch.q[e.queue][e.index] == t))
  {
    RR.NextKeepsPartition(sch, nr, e);
    ReadyLine.OtherLists(sch, nr, e, b);
    if e.Unblock? && sch.q[e.queue][e.index] == t {
      Gone(sch.q, e.queue, e.index, b);
    }
  }

  lemma Gone(q: Queues, a: nat, i: nat, b: nat)
    requires Disjoint(q) && a < |q| && b < |q| && i < |q[a]|
    ensures q[a][i] !in (if a == b then q[a][..i] + q[a][i + 1..] else q[b])
  {
    assert q[a][i] in q[a];
  }

  lemma SleepersStep(s: State, e: Step, s': State)
    requires Inv(s) && Enabled(s, e) && s' == Next(s, e) && Inv(s') && SleepersAreReady(s)
    ensures SleepersAreReady(s')
  {
    forall b, t | Sleeps(s', b, t) ensures InACall(s', t) {
      SleeperOf(s, e, s', b, t);
    }
  }

  lemma WhereFrom(s: State, e: Step, b: nat, t: nat)
    requires Inv(s) && Enabled(s, e) && 2 <= b < |Next(s, e).sch.q| && t in Next(s, e).sch.q[b]
    ensures b < |s.sch.q| && ((e.Block? && e.queue == b && t == s.sch.cur) || (t in s.sch.q[b] && !Wakes(s, e, t)))
  {
    StepProjects(s, e);
    FreeListAfter(s.sch, s.c.nr, EventOf(s, e));
    WhoSleeps(s.sch, s.c.nr, EventOf(s, e), b, t);
  }

  lemma SleeperOf(s: State, e: Step, s': State, b: nat, t: nat)
    requires Inv(s) && Enabled(s, e) && s' == Next(s, e) && Inv(s') && SleepersAreReady(s) && Sleeps(s', b, t)
    ensures InACall(s', t)
  {
    WhereFrom(s, e, b, t);
    if t in s.sch.q[b] && !Wakes(s, e, t) {
      assert Sleeps(s, b, t);
      SleeperAfter(s, e, s', b, t);
    } else {
      BlockResumes(s, b, e.clk);
      BlockCharges(s, b, e.clk);
    }
  }

  /** Over every run; after boot nobody sleeps. */
  lemma {:induction false} SleepersOverRuns(s: State, es: seq<Step>)
    requires Inv(s) && Runs(s, es) && SleepersAreReady(s)
    ensures SleepersAreReady(After(s, es))
    decreases |es|
  {
    if es != [] {
      RunHead(s, es);
      SleepersStep(s, es[0], Next(s, es[0]));
      SleepersOverRuns(Next(s, es[0]), es[1..]);
    }
  }

  /** A wake-up on an idle machine: the quantum is used up and nobody else is ready, so the woken task runs at once,
      with its own quantum, and idle lines up. */
  lemma WokenRunsAtOnce(s: State, b: nat, i: nat, clk: Clock)
    requires Inv(s) && Enabled(s, Unblock(b, i, clk)) && s.sch.cq <= 0 && s.sch.q[READY] == []
    ensures var s' := Next(s, Unblock(b, i, clk));
      s'.sch.cur == s.sch.q[b][i] && s'.sch.q[READY] == [s.sch.cur] && s'.sch.cq == s.sch.quantum[s'.sch.cur]
  {
    StepProjects(s, Unblock(b, i, clk));
    ReadyLine.WokenRunsAtOnce(s.sch, s.c.nr, b, i);
  }
}
