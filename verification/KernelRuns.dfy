/** What holds in every state the kernel can reach from boot. */
module KernelRuns {
  import opened Params
  import opened TaskQueues
  import opened Ticks
  import opened Kernel
  import opened Frames
  import Mem = Memory
  import RR = RoundRobin
  import BW = BoundedWaiting

  // ---------------------------------------------------------------- boot

  /** init_sched pushes PCB 0, 1, ...; init_idle and init_task1 pop the two last ones. */
  function BootFree(c: Config): (free: seq<nat>)
    requires c.Valid()
    ensures |free| == c.nr - 2
  {
    seq<nat>(c.nr - 2, i requires 0 <= i < c.nr - 2 => c.nr - 3 - i)
  }

  function BootPcb(c: Config, t: nat, idleBirth: word, initBirth: word): Pcb
    requires c.Valid()
  {
    if t == c.Idle() then Pcb(0, t, Birth(NEW_ACCOUNT.st, idleBirth, c.quantum), StReady, FromFork)
    else if t == c.Init() then
      Pcb(1, t, Account(Stats(0, 0, 0, 0, initBirth, 0, 0), Ledger(initBirth, 0, 0, 0)), StRun, FromCall)
    else Pcb(-1, 0, NEW_ACCOUNT, StRun, FromCall)
  }

  /** The state in which the kernel enters user mode, with `queues` blocking queues and whatever memory held. */
  function Boot(c: Config, mem: seq<seq<Mem.Byte>>, queues: nat, idleBirth: word, initBirth: word): State
    requires c.Valid() && |AllocFrames(c, InitialFrames(c), c.code + c.data).frames| == c.code + c.data
  {
    State(c, Mem.Boot(c, mem),
          RR.Sched([BootFree(c), []] + seq(queues, _ => []), c.Init(), 0,
              seq(c.nr, t => if t == c.Init() then c.quantum else 0)),
          seq(c.nr, t requires 0 <= t => BootPcb(c, t, idleBirth, initBirth)),
          1)
  }

  lemma BootFreeSpec(c: Config)
    requires c.Valid()
    ensures NoDup(BootFree(c)) && forall t :: 0 <= t < c.nr - 2 <==> t in BootFree(c)
  {
    forall t | 0 <= t < c.nr - 2 ensures t in BootFree(c) {
      assert BootFree(c)[c.nr - 3 - t] == t;
    }
  }

  lemma BootInv(c: Config, mem: seq<seq<Mem.Byte>>, queues: nat, idleBirth: word, initBirth: word)
    requires c.Valid() && |mem| == c.total && forall f :: 0 <= f < c.total ==> |mem[f]| == PAGE_SIZE
    ensures |AllocFrames(c, InitialFrames(c), c.code + c.data).frames| == c.code + c.data
    ensures Inv(Boot(c, mem, queues, idleBirth, initBirth))
    ensures FreePidsClean(Boot(c, mem, queues, idleBirth, initBirth))
    ensures !InClock(Boot(c, mem, queues, idleBirth, initBirth))
  {
    BootFreeSpec(c);
    Mem.BootOk(c, mem, BootFree(c));
    var s := Boot(c, mem, queues, idleBirth, initBirth);
    BootPartition(c, s.sch, queues);
    BootPcbs(c, s, idleBirth, initBirth);
  }

  lemma BootPcbs(c: Config, s: State, idleBirth: word, initBirth: word)
    requires c.Valid() && s.c == c && |s.sch.q| >= 2 && s.sch.q[FREE] == BootFree(c) && s.pidMax == 1 && |s.pcb| == c.nr
    requires forall t :: 0 <= t < c.nr ==> s.pcb[t] == BootPcb(c, t, idleBirth, initBirth)
    ensures PidsOk(s) && PcbsOk(s) && FreePidsClean(s)
  {
    BootFreeSpec(c);
    assert forall t :: Mem.Live(c, s.sch.q[FREE], t) <==> t == c.Init();
  }

  lemma BootPartition(c: Config, sch: RR.Sched, queues: nat)
    requires c.Valid() && sch.q == [BootFree(c), []] + seq(queues, _ => []) && sch.cur == c.Init() && sch.cq == 0
    requires |sch.quantum| == c.nr && forall t :: 0 <= t < c.nr ==> 0 <= sch.quantum[t] <= INT_MAX
    ensures RR.Partition(sch, c.nr) && RR.QuantumOk(sch, c.nr)
  {
    BootFreeSpec(c);
    assert forall a :: 0 < a < |sch.q| ==> sch.q[a] == [];
    forall t | 0 <= t < c.nr && t != sch.cur && t != c.nr - 1 ensures In(sch.q, t) {
      assert t in sch.q[FREE];
    }
  }

  // ---------------------------------------------------------------- runs

  /** `t` is a process: neither idle nor free. */
  ghost predicate IsLive(s: State, t: int)
    requires Inv(s)
  {
    Mem.Live(s.c, s.sch.q[FREE], t)
  }

  /** Every step of `es` is enabled when its turn comes. */
  ghost predicate Runs(s: State, es: seq<Step>)
    requires Inv(s)
    decreases |es|
  {
    es == [] || (Enabled(s, es[0]) && (NextKeepsInv(s, es[0]); Runs(Next(s, es[0]), es[1..])))
  }

  /** The invariant holds after every run. */
  ghost function After(s: State, es: seq<Step>): (r: State)
    requires Inv(s) && Runs(s, es)
    ensures Inv(r) && r.c == s.c
    decreases |es|
  {
    if es == [] then s else (NextKeepsInv(s, es[0]); After(Next(s, es[0]), es[1..]))
  }

  /** A run one step longer at the front. */
  lemma RunCons(s: State, e: Step, es: seq<Step>)
    requires Inv(s) && Enabled(s, e) && Inv(Next(s, e)) && Runs(Next(s, e), es)
    ensures Runs(s, [e] + es) && After(s, [e] + es) == After(Next(s, e), es)
  {
    assert ([e] + es)[1..] == es;
  }

  lemma RunHead(s: State, es: seq<Step>)
    requires Inv(s) && Runs(s, es) && es != []
    ensures Enabled(s, es[0]) && Inv(Next(s, es[0])) && Runs(Next(s, es[0]), es[1..])
    ensures After(s, es) == After(Next(s, es[0]), es[1..])
  {
    NextKeepsInv(s, es[0]);
  }

  lemma HeadFirst(a: seq<Step>, b: seq<Step>)
    requires a != []
    ensures a + b == [a[0]] + (a[1..] + b)
  {
  }

  /** One run after another. */
  lemma {:induction false} RunConcat(s: State, a: seq<Step>, b: seq<Step>)
    requires Inv(s) && Runs(s, a) && Runs(After(s, a), b)
    ensures Runs(s, a + b) && After(s, a + b) == After(After(s, a), b)
    decreases |a|
  {
    if a == [] {
      assert a + b == b;
    } else {
      HeadFirst(a, b);
      RunHead(s, a);
      RunConcat(Next(s, a[0]), a[1..], b);
      RunCons(s, a[0], a[1..] + b);
    }
  }

  lemma RunOne(s: State, e: Step)
    requires Inv(s) && Enabled(s, e)
    ensures Runs(s, [e]) && After(s, [e]) == Next(s, e)
  {
    NextKeepsInv(s, e);
    RunCons(s, e, []);
    assert [e] + [] == [e];
  }

  // ---------------------------------------------------------------- one kernel run is one scheduler run

  ghost function Events(s: State, es: seq<Step>): seq<RR.Event>
    requires Inv(s) && Runs(s, es)
    decreases |es|
  {
    if es == [] then [] else (NextKeepsInv(s, es[0]); [EventOf(s, es[0])] + Events(Next(s, es[0]), es[1..]))
  }

  lemma EventEnabled(s: State, e: Step)
    requires Inv(s) && Enabled(s, e)
    ensures RR.Enabled(s.sch, s.c.nr, EventOf(s, e)) && (e.Tick? <==> EventOf(s, e).Tick?)
  {
  }

  lemma StepProjects(s: State, e: Step)
    requires Inv(s) && Enabled(s, e)
    ensures RR.Enabled(s.sch, s.c.nr, EventOf(s, e)) && (e.Tick? <==> EventOf(s, e).Tick?)
    ensures Next(s, e).sch == RR.Next(s.sch, s.c.nr, EventOf(s, e))
  {
    EventEnabled(s, e);
    RunningPid(s);
  }

  lemma UnfoldRun(s: State, es: seq<Step>)
    requires Inv(s) && Runs(s, es) && es != []
    ensures Enabled(s, es[0]) && Inv(Next(s, es[0])) && Runs(Next(s, es[0]), es[1..])
    ensures After(s, es) == After(Next(s, es[0]), es[1..])
    ensures Events(s, es) == [EventOf(s, es[0])] + Events(Next(s, es[0]), es[1..])
  {
    NextKeepsInv(s, es[0]);
  }

  lemma {:induction false} RunProjects(s: State, es: seq<Step>)
    requires Inv(s) && Runs(s, es)
    ensures BW.Runs(s.sch, s.c.nr, Events(s, es))
    ensures BW.After(s.sch, s.c.nr, Events(s, es)) == After(s, es).sch
    decreases |es|
  {
    if es != [] {
      UnfoldRun(s, es);
      var s1, e, rest := Next(s, es[0]), EventOf(s, es[0]), Events(Next(s, es[0]), es[1..]);
      assert RR.Enabled(s.sch, s.c.nr, e) && s1.sch == RR.Next(s.sch, s.c.nr, e) && s1.c == s.c
          by { StepProjects(s, es[0]); }
      RunProjects(s1, es[1..]);
      BW.RunsCons(s.sch, s.c.nr, e, rest, 0);
    }
  }

  function TickCount(es: seq<Step>): nat
  {
    if es == [] then 0 else (if es[0].Tick? then 1 else 0) + TickCount(es[1..])
  }

  /** `p` holds the processor right after some step of the run. */
  ghost predicate GetsCpu(s: State, es: seq<Step>, p: nat)
    requires Inv(s) && Runs(s, es)
    decreases |es|
  {
    es != [] && (NextKeepsInv(s, es[0]); Next(s, es[0]).sch.cur == p || GetsCpu(Next(s, es[0]), es[1..], p))
  }

  lemma {:induction false} DispatchProjects(s: State, es: seq<Step>, p: nat)
    requires Inv(s) && Runs(s, es)
    ensures BW.Runs(s.sch, s.c.nr, Events(s, es))
    ensures GetsCpu(s, es, p) <==> BW.Dispatched(s.sch, s.c.nr, Events(s, es), p)
    ensures TickCount(es) == BW.Ticks(Events(s, es))
    decreases |es|
  {
    RunProjects(s, es);
    if es != [] {
      StepProjects(s, es[0]);
      NextKeepsInv(s, es[0]);
      DispatchProjects(Next(s, es[0]), es[1..], p);
      BW.RunsCons(s.sch, s.c.nr, EventOf(s, es[0]), Events(Next(s, es[0]), es[1..]), p);
    }
  }

  function Interrupts(es: seq<Step>): nat
  {
    if es == [] then 0 else (if es[0].Interrupt? then 1 else 0) + Interrupts(es[1..])
  }

  /** The clock interrupt that the running task has not finished handling. */
  function Pending(s: State): nat
    requires s.sch.cur < |s.pcb|
  {
    if InClock(s) then 1 else 0
  }

  /** One step: an interrupt becomes pending, and ceases to be only with a beat of the scheduler. */
  lemma PendingStep(s: State, e: Step)
    requires Inv(s) && Enabled(s, e)
    ensures var s' := Next(s, e);
      && s'.sch.cur < |s'.pcb|
      && Pending(s) + (if e.Interrupt? then 1 else 0) <= (if BW.Beat(s.sch, EventOf(s, e)) then 1 else 0) + Pending(s')
  {
    if e.Unblock? {
      PendingUnblock(s, e.queue, e.index, e.clk);
    } else {
      NextKeepsInv(s, e);
    }
  }

  lemma PendingUnblock(s: State, b: nat, i: nat, clk: Clock)
    requires Inv(s) && 2 <= b < |s.sch.q| && i < |s.sch.q[b]|
    ensures var s' := UnblockStep(s, b, i, clk);
      s'.sch.cur < |s'.pcb| && Pending(s) <= (if s.sch.cq <= 0 then 1 else 0) + Pending(s')
  {
    RR.NextKeepsPartition(s.sch, s.c.nr, RR.Unblock(b, i));
    assert s.sch.q[b][i] in s.sch.q[b];
  }

  /** Over every run the clock interrupts are at most the beats of the scheduler, but for the one that is pending. */
  lemma {:induction false} InterruptsAreBeats(s: State, es: seq<Step>)
    requires Inv(s) && Runs(s, es)
    ensures BW.Runs(s.sch, s.c.nr, Events(s, es))
    ensures Pending(s) + Interrupts(es) <= BW.Beats(s.sch, s.c.nr, Events(s, es)) + Pending(After(s, es))
    decreases |es|
  {
    RunProjects(s, es);
    if es != [] {
      UnfoldRun(s, es);
      PendingStep(s, es[0]);
      InterruptsAreBeats(Next(s, es[0]), es[1..]);
      BeatsCons(s, es);
    }
  }

  lemma BeatsCons(s: State, es: seq<Step>)
    requires Inv(s) && Runs(s, es) && es != []
    ensures Enabled(s, es[0]) && Inv(Next(s, es[0])) && Runs(Next(s, es[0]), es[1..]) && Next(s, es[0]).c == s.c
    ensures var s', rest := Next(s, es[0]), Events(Next(s, es[0]), es[1..]);
      && BW.Runs(s.sch, s.c.nr, Events(s, es)) && BW.Runs(s'.sch, s.c.nr, rest)
      && BW.Beats(s.sch, s.c.nr, Events(s, es))
         == (if BW.Beat(s.sch, EventOf(s, es[0])) then 1 else 0) + BW.Beats(s'.sch, s.c.nr, rest)
  {
    UnfoldRun(s, es);
    StepProjects(s, es[0]);
    RunProjects(s, es);
    RunProjects(Next(s, es[0]), es[1..]);
    BW.RunsCons(s.sch, s.c.nr, EventOf(s, es[0]), Events(Next(s, es[0]), es[1..]), 0);
  }

  /** Bounded waiting of the kernel, whatever else it does meanwhile: the task at position `k` of the ready list, whose
      rank is at most `bound * (k + 1)`, gets the processor before that many ticks of CPU_QUANTUM have gone by, and
      before that many clock interrupts have been handled. */
  lemma ReadyTaskRuns(s: State, es: seq<Step>, k: nat, bound: nat)
    requires Inv(s) && Runs(s, es) && k < |s.sch.q[READY]|
    requires 1 <= bound && s.sch.cq <= bound && forall t :: 0 <= t < s.c.nr ==> s.sch.quantum[t] <= bound
    ensures BW.Rank(s.sch, s.c.nr, k) <= bound * (k + 1)
    ensures TickCount(es) >= BW.Rank(s.sch, s.c.nr, k) ==> GetsCpu(s, es, s.sch.q[READY][k])
    ensures Interrupts(es) >= BW.Rank(s.sch, s.c.nr, k) + Pending(After(s, es)) ==> GetsCpu(s, es, s.sch.q[READY][k])
  {
    BW.RankBound(s.sch, s.c.nr, k, bound);
    DispatchProjects(s, es, s.sch.q[READY][k]);
    InterruptsAreBeats(s, es);
    if BW.Beats(s.sch, s.c.nr, Events(s, es)) >= BW.Rank(s.sch, s.c.nr, k) {
      BW.GetsTheProcessor(s.sch, s.c.nr, Events(s, es), k);
    }
  }

  /** Nothing but the clock schedules. */
  ghost predicate OnlyClock(es: seq<Step>)
  {
    forall i :: 0 <= i < |es| ==> !es[i].Fork? && !es[i].Exit? && !es[i].Block? && !es[i].Unblock?
  }

  lemma OnlyClockRest(es: seq<Step>)
    requires OnlyClock(es) && es != []
    ensures OnlyClock(es[1..]) && !es[0].Fork? && !es[0].Exit? && !es[0].Block? && !es[0].Unblock?
  {
  }

  lemma {:induction false} OnlyClockEvents(s: State, es: seq<Step>)
    requires Inv(s) && Runs(s, es) && OnlyClock(es)
    ensures BW.OnlyTicks(Events(s, es))
    decreases |es|
  {
    if es != [] {
      UnfoldRun(s, es);
      OnlyClockRest(es);
      OnlyClockEvents(Next(s, es[0]), es[1..]);
      BW.OnlyTicksCons(EventOf(s, es[0]), Events(Next(s, es[0]), es[1..]));
    }
  }

  /** Then the rank is exact: the task at position `k` gets the processor at that tick and no sooner. */
  lemma ClockAloneIsExact(s: State, es: seq<Step>, k: nat)
    requires Inv(s) && Runs(s, es) && OnlyClock(es) && k < |s.sch.q[READY]|
      && TickCount(es) <= BW.Rank(s.sch, s.c.nr, k)
    ensures GetsCpu(s, es, s.sch.q[READY][k]) <==> TickCount(es) == BW.Rank(s.sch, s.c.nr, k)
  {
    OnlyClockEvents(s, es);
    DispatchProjects(s, es, s.sch.q[READY][k]);
    BW.TicksOnlyIsExact(s.sch, s.c.nr, Events(s, es), k);
  }

  /** First come, first served among ready tasks, over every run of the kernel. */
  lemma ReadyIsFifo(s: State, es: seq<Step>, j: nat, k: nat)
    requires Inv(s) && Runs(s, es) && j < k < |s.sch.q[READY]|
    ensures GetsCpu(s, es, s.sch.q[READY][k]) ==> GetsCpu(s, es, s.sch.q[READY][j])
  {
    DispatchProjects(s, es, s.sch.q[READY][k]);
    DispatchProjects(s, es, s.sch.q[READY][j]);
    if !GetsCpu(s, es, s.sch.q[READY][j]) {
      BW.NoOvertaking(s.sch, s.c.nr, Events(s, es), j, k);
    }
  }
}
