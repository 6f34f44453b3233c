/** The shipped kernel, from its boot: what the general theorems say with the shipped constants. */
module Zeos {
  import opened Params
  import opened TaskQueues
  import opened Ticks
  import opened Kernel
  import opened KernelRuns
  import KernelTheorems
  import opened AddressSpaces
  import opened IdleWrap
  import opened Service
  import Blocking
  import Mem = Memory
  import RR = RoundRobin
  import BW = BoundedWaiting

  /** The contents of a memory of 1024 frames. */
  ghost predicate Ram(mem: seq<seq<Mem.Byte>>)
  {
    |mem| == ZEOS.total && forall f :: 0 <= f < |mem| ==> |mem[f]| == PAGE_SIZE
  }

  /** The state in which the shipped kernel enters user mode. */
  ghost function Booted(mem: seq<seq<Mem.Byte>>, queues: nat, idleBirth: word, initBirth: word): (s: State)
    requires Ram(mem)
    ensures Inv(s) && FreePidsClean(s) && s.c == ZEOS && ZEOS.Capacity()
    ensures s.sch.cq == 0 && !InClock(s) && forall t :: 0 <= t < ZEOS.nr ==> s.sch.quantum[t] <= ZEOS.quantum
    ensures OnlyInitCannotWriteCode(s)
  {
    ZeosIsValid();
    BootInv(ZEOS, mem, queues, idleBirth, initBirth);
    BootCodePages(ZEOS, mem, queues, idleBirth, initBirth);
    Boot(ZEOS, mem, queues, idleBirth, initBirth)
  }

  /** In every run of the shipped kernel fork never reports that memory ran out: it fails exactly when all ten PCBs are
      taken, and the used frames past the kernel are always 8 plus 20 per live process. */
  lemma ForkNeverRunsOut(mem: seq<seq<Mem.Byte>>, queues: nat, idleBirth: word, initBirth: word, es: seq<Step>,
      clk: Clock)
    requires Ram(mem) && Runs(Booted(mem, queues, idleBirth, initBirth), es)
    ensures var s := After(Booted(mem, queues, idleBirth, initBirth), es);
      && (s.sch.cur != 9 ==> ForkStep(s, clk).1 == if s.sch.q[FREE] == [] then -EAGAIN else Inc32(s.pidMax))
      && |set f | 256 <= f < 1024 && s.mm.used[f]| == 8 + 20 * (9 - |s.sch.q[FREE]|)
      && FreePidsClean(s)
  {
    var s0 := Booted(mem, queues, idleBirth, initBirth);
    var s := After(s0, es);
    KernelTheorems.FreePidsCleanOverRuns(s0, es);
    if s.sch.cur != 9 { KernelTheorems.NoMemoryFailure(s, clk); }
    FramesUsed(s);
  }

  lemma FramesUsed(s: State)
    requires Inv(s) && s.c == ZEOS
    ensures |set f | 256 <= f < 1024 && s.mm.used[f]| == 8 + 20 * (9 - |s.sch.q[FREE]|)
  {
    KernelTheorems.FramesInUse(s);
    KernelTheorems.LiveCount(s);
    assert (set f | 256 <= f < 1024 && s.mm.used[f]) == set f | s.c.kernel <= f < s.c.total && s.mm.used[f];
  }

  // ---------------------------------------------------------------- quanta over runs

  ghost predicate Bounded(sch: RR.Sched, bound: int)
  {
    sch.cq <= bound && forall t :: 0 <= t < |sch.quantum| ==> sch.quantum[t] <= bound
  }

  /** A step keeps the bound unless it is the tick that wraps CPU_QUANTUM, and only ticks lower a negative
      CPU_QUANTUM. */
  lemma StepBounded(sch: RR.Sched, nr: nat, e: RR.Event, bound: nat)
    requires RR.Partition(sch, nr) && RR.QuantumOk(sch, nr) && RR.Enabled(sch, nr, e)
    requires Bounded(sch, bound) && bound < INT_MAX && !(e.Tick? && sch.cq == INT_MIN)
    ensures var sch' := RR.Next(sch, nr, e);
      Bounded(sch', bound) && (sch'.cq >= 0 || sch'.cq >= sch.cq - if e.Tick? then 1 else 0)
  {
    BW.QuantumBoundKept(sch, nr, e, bound);
  }

  lemma KernelStepBounded(s: State, e: Step, bound: nat)
    requires Inv(s) && Enabled(s, e) && Bounded(s.sch, bound) && bound < INT_MAX && !(e.Tick? && s.sch.cq == INT_MIN)
    ensures Bounded(Next(s, e).sch, bound)
    ensures var left := Next(s, e).sch.cq; left >= 0 || left >= s.sch.cq - if e.Tick? then 1 else 0
  {
    StepProjects(s, e);
    StepBounded(s.sch, s.c.nr, EventOf(s, e), bound);
  }

  /** Over every run that is too short to wrap CPU_QUANTUM the bound holds. */
  lemma {:induction false} QuantaStayBounded(s: State, es: seq<Step>, bound: nat)
    requires Inv(s) && Runs(s, es) && Bounded(s.sch, bound) && bound < INT_MAX
    requires s.sch.cq - TickCount(es) >= INT_MIN && 0 - TickCount(es) >= INT_MIN
    ensures Bounded(After(s, es).sch, bound)
    decreases |es|
  {
    if es != [] {
      var e := es[0];
      ShorterThan(es);
      assert !(e.Tick? && s.sch.cq == INT_MIN);
      UnfoldRun(s, es);
      var s1 := Next(s, e);
      assert Bounded(s1.sch, bound) && (s1.sch.cq >= 0 || s1.sch.cq >= s.sch.cq - if e.Tick? then 1 else 0) by {
        KernelStepBounded(s, e, bound);
      }
      QuantaStayBounded(s1, es[1..], bound);
    }
  }

  lemma {:induction false} ShorterThan(es: seq<Step>)
    requires es != []
    ensures TickCount(es) == TickCount(es[1..]) + if es[0].Tick? then 1 else 0
  {
  }

  /** Bounded waiting of the shipped kernel: during the first 2^31 ticks after boot, a process at position k of the
      ready list runs before 18 * (k + 1) clock interrupts have been handled, whatever else happens. */
  lemma EighteenTicksPerPlace(mem: seq<seq<Mem.Byte>>, queues: nat, idleBirth: word, initBirth: word,
                              past: seq<Step>, es: seq<Step>, k: nat)
    requires Ram(mem) && Runs(Booted(mem, queues, idleBirth, initBirth), past) && TickCount(past) <= INT_MAX + 1
    requires Runs(After(Booted(mem, queues, idleBirth, initBirth), past), es)
    requires k < |After(Booted(mem, queues, idleBirth, initBirth), past).sch.q[READY]|
    ensures var s := After(Booted(mem, queues, idleBirth, initBirth), past);
      Interrupts(es) >= 18 * (k + 1) + Pending(After(s, es)) || TickCount(es) >= 18 * (k + 1) ==>
        GetsCpu(s, es, s.sch.q[READY][k])
  {
    var s0 := Booted(mem, queues, idleBirth, initBirth);
    var s := After(s0, past);
    QuantaStayBounded(s0, past, 18);
    ReadyTaskRuns(s, es, k, 18);
  }

  // ---------------------------------------------------------------- the wrap

  /** The initial process blocks, the machine idles for n ticks, and the process is unblocked. */
  function BlockIdleWake(n: nat, clk: Clock): seq<Step>
  {
    [Block(2, clk)] + WakeAfterWrap(n, 2, clk)
  }

  /** The initial process runs alone, on a fresh quantum counter. */
  ghost predicate Alone(s: State)
  {
    && Inv(s) && s.c == ZEOS && !InClock(s) && s.sch.cur == 8 && s.sch.q[READY] == [] && s.sch.cq == 0
    && |s.sch.q| >= 3 && s.sch.q[2] == [] && s.pcb[9].resume == FromFork
  }

  lemma BlockedSched(sch: RR.Sched)
    requires RR.Typed(sch, 10) && sch.cur == 8 && sch.q[READY] == [] && |sch.q| >= 3 && sch.q[2] == []
    ensures RR.Next(sch, 10, RR.Block(2)) == sch.(q := sch.q[2 := [8]], cur := 9)
  {
    assert sch.q[2] + [8] == [8];
  }

  /** A task that gets the processor keeps its place in the code. */
  lemma BlockDispatches(s: State, queue: nat, clk: Clock)
    requires Sized(s) && queue < |s.sch.q|
    requires var next := RR.Next(s.sch, s.c.nr, RR.Block(queue)).cur; next < s.c.nr && next != s.sch.cur
    ensures var r := BlockStep(s, queue, clk);
      |r.pcb| == |s.pcb| && r.sch.cur < |r.pcb| && r.pcb[r.sch.cur].resume == s.pcb[r.sch.cur].resume
  {
  }

  lemma InitBlocks(s: State, clk: Clock)
    requires Alone(s)
    ensures Runs(s, [Block(2, clk)])
    ensures var r := After(s, [Block(2, clk)]); r.sch == s.sch.(q := s.sch.q[2 := [8]], cur := 9) && !InClock(r)
  {
    BlockedSched(s.sch);
    BlockDispatches(s, 2, clk);
    RunOne(s, Block(2, clk));
    StepProjects(s, Block(2, clk));
  }

  lemma AloneStarves(s: State, n: nat, clk: Clock, later: seq<Step>)
    requires Alone(s) && n == INT_MAX + 2
    ensures Runs(s, BlockIdleWake(n, clk)) && OnlyAtTick(After(s, BlockIdleWake(n, clk)), later, 8, INT_MAX)
  {
    InitBlocks(s, clk);
    BlockedStarves(s, After(s, [Block(2, clk)]), n, clk, later);
  }

  lemma BlockedStarves(s: State, r: State, n: nat, clk: Clock, later: seq<Step>)
    requires n == INT_MAX + 2 && Inv(s) && Runs(s, [Block(2, clk)]) && r == After(s, [Block(2, clk)]) && r.c.nr == 10
    requires r.sch.cur == 9 && r.sch.q[READY] == [] && r.sch.cq == 0 && |r.sch.q| >= 3 && r.sch.q[2] == [8]
      && !InClock(r)
    ensures Runs(s, BlockIdleWake(n, clk)) && OnlyAtTick(After(s, BlockIdleWake(n, clk)), later, 8, INT_MAX)
  {
    var m := IdleWrapStarves(r, 2, clk, later);
    assert m == n;
    RunConcat(s, [Block(2, clk)], WakeAfterWrap(n, 2, clk));
  }

  lemma BootedAlone(mem: seq<seq<Mem.Byte>>, queues: nat, idleBirth: word, initBirth: word)
    requires Ram(mem) && queues >= 1
    ensures Alone(Booted(mem, queues, idleBirth, initBirth))
  {
  }

  /** The starvation is reachable: after that run with 2^31 + 1 idle ticks the initial process is ready, and in every
      continuation in which only the clock schedules it gets the processor at tick 2^31 - 1 and not before. */
  lemma InitStarves(mem: seq<seq<Mem.Byte>>, queues: nat, idleBirth: word, initBirth: word, n: nat, clk: Clock,
                    later: seq<Step>)
    requires Ram(mem) && queues >= 1 && n == INT_MAX + 2
    ensures var s := Booted(mem, queues, idleBirth, initBirth);
      Runs(s, BlockIdleWake(n, clk)) && OnlyAtTick(After(s, BlockIdleWake(n, clk)), later, 8, INT_MAX)
  {
    BootedAlone(mem, queues, idleBirth, initBirth);
    AloneStarves(Booted(mem, queues, idleBirth, initBirth), n, clk, later);
  }

  // ---------------------------------------------------------------- the first child

  /** The initial process forks and blocks; its child stores to a code page. */
  function ForkBlockStore(va: nat, b: Mem.Byte, clk: Clock): seq<Step>
  {
    [Fork(clk)] + [Block(2, clk)] + [UserWrite(va, b)]
  }

  /** The initial process has not forked yet. */
  ghost predicate Childless(s: State)
  {
    && Inv(s) && s.c == ZEOS && !InClock(s) && s.sch.cur == 8 && s.pidMax == 1 && s.sch.q[READY] == [] && |s.sch.q| >= 3
    && |s.sch.q[FREE]| == 8 && s.sch.q[FREE][0] == 7 && OnlyInitCannotWriteCode(s)
  }

  /** PCB 7 waits for its first turn while the initial process runs, or -- `running` -- has it. */
  ghost predicate WithChild(s: State, running: bool)
    requires Inv(s)
  {
    && s.c == ZEOS && !InClock(s) && |s.sch.q| >= 3
    && (if running then s.sch.cur == 7 else s.sch.cur == 8 && s.sch.q[READY] == [7] && s.pcb[7].resume == FromFork)
    && s.pcb[7].pid == 2 && s.pcb[8].pid == 1 && IsLive(s, 7) && IsLive(s, 8)
  }

  lemma ForkedSched(sch: RR.Sched)
    requires RR.Typed(sch, 10) && sch.q[READY] == [] && sch.q[FREE] != [] && sch.q[FREE][0] == 7
    ensures var r := RR.Next(sch, 10, RR.Fork); r.cur == sch.cur && |r.q| == |sch.q| && r.q[READY] == [7]
  {
  }

  lemma ForkedPcbs(s: State, clk: Clock)
    requires SizedMm(s) && s.c.nr == 10 && s.sch.cur == 8 && s.pidMax == 1 && s.pcb[8].pid == 1 && !InClock(s)
    requires s.sch.q[FREE] != [] && s.sch.q[FREE][0] == 7 && ForkStep(s, clk).1 == 2
    ensures var r := ForkStep(s, clk).0;
      && |r.pcb| == 10 && r.pcb[7].pid == 2 && r.pcb[7].resume == FromFork && r.pcb[8].pid == 1
      && !r.pcb[8].resume.FromConsole? && r.c == s.c && r.sch == RR.Next(s.sch, 10, RR.Fork)
  {
  }

  lemma FirstFork(s: State, clk: Clock)
    requires Childless(s)
    ensures Runs(s, [Fork(clk)]) && WithChild(After(s, [Fork(clk)]), false)
  {
    InitPid(s);
    assert ForkStep(s, clk).1 == 2 by { ZeosIsValid(); KernelTheorems.NoMemoryFailure(s, clk); }
    RunOne(s, Fork(clk));
    ForkedSched(s.sch);
    ForkStart(s);
    ForkedPcbs(s, clk);
    NowLive(Next(s, Fork(clk)));
  }

  lemma InitPid(s: State)
    requires Childless(s)
    ensures s.pcb[8].pid == 1
  {
    FreeListShape(s.sch, s.c.nr);
    assert IsLive(s, 8);
  }

  /** What runs or is ready is live. */
  lemma NowLive(s: State)
    requires Inv(s) && s.c.nr == 10 && s.sch.cur == 8 && s.sch.q[READY] == [7]
    ensures IsLive(s, 7) && IsLive(s, 8)
  {
    FreeListShape(s.sch, s.c.nr);
    assert 7 in s.sch.q[READY];
  }

  lemma ParentLeft(sch: RR.Sched)
    requires RR.Typed(sch, 10) && sch.cur == 8 && |sch.q| >= 3 && sch.q[READY] == [7]
    ensures var r := RR.Next(sch, 10, RR.Block(2)); r.cur == 7 && |r.q| == |sch.q| && r.q[FREE] == sch.q[FREE]
  {
  }

  lemma ParentBlocks(s: State, clk: Clock)
    requires Inv(s) && WithChild(s, false)
    ensures Runs(s, [Block(2, clk)]) && WithChild(After(s, [Block(2, clk)]), true)
  {
    RunOne(s, Block(2, clk));
    StepProjects(s, Block(2, clk));
    ParentLeft(s.sch);
    BlockDispatches(s, 2, clk);
    KernelTheorems.BlockPid(s, 2, clk, 7);
    KernelTheorems.BlockPid(s, 2, clk, 8);
  }

  lemma ChildStores(s: State, va: nat, b: Mem.Byte)
    requires Inv(s) && WithChild(s, true) && OnlyInitCannotWriteCode(s) && 256 <= va / PAGE_SIZE < 264
    ensures Runs(s, [UserWrite(va, b)])
    ensures var r := After(s, [UserWrite(va, b)]);
      r.pcb[8].pid == 1 && IsLive(r, 8) && Mem.View(r.mm, 8, va) == Mem.Some(b)
  {
    CodeStore(s, va, b, 8);
    RunOne(s, UserWrite(va, b));
  }

  lemma ChildlessOverwritten(s: State, clk: Clock, va: nat, b: Mem.Byte)
    requires Childless(s) && 256 <= va / PAGE_SIZE < 264
    ensures Runs(s, ForkBlockStore(va, b, clk))
    ensures var r := After(s, ForkBlockStore(va, b, clk));
      r.pcb[8].pid == 1 && IsLive(r, 8) && Mem.View(r.mm, 8, va) == Mem.Some(b)
  {
    FirstFork(s, clk);
    ParentBlocks(After(s, [Fork(clk)]), clk);
    RunConcat(s, [Fork(clk)], [Block(2, clk)]);
    CodePagesOverRuns(s, [Fork(clk)] + [Block(2, clk)]);
    ChildStores(After(s, [Fork(clk)] + [Block(2, clk)]), va, b);
    RunConcat(s, [Fork(clk)] + [Block(2, clk)], [UserWrite(va, b)]);
  }

  lemma BootedChildless(mem: seq<seq<Mem.Byte>>, queues: nat, idleBirth: word, initBirth: word)
    requires Ram(mem) && queues >= 1
    ensures Childless(Booted(mem, queues, idleBirth, initBirth))
  {
  }

  /** A concrete run of the shipped kernel in which a process overwrites the code of another: the first child, at any
      address of the code pages; the initial process then reads the child's byte there. */
  lemma ChildOverwritesInit(mem: seq<seq<Mem.Byte>>, queues: nat, idleBirth: word, initBirth: word, clk: Clock,
                            va: nat, b: Mem.Byte)
    requires Ram(mem) && queues >= 1 && 256 <= va / PAGE_SIZE < 264
    ensures var s := Booted(mem, queues, idleBirth, initBirth);
      && Runs(s, ForkBlockStore(va, b, clk))
      && var r := After(s, ForkBlockStore(va, b, clk));
         r.pcb[8].pid == 1 && IsLive(r, 8) && Mem.View(r.mm, 8, va) == Mem.Some(b)
  {
    BootedChildless(mem, queues, idleBirth, initBirth);
    ChildlessOverwritten(Booted(mem, queues, idleBirth, initBirth), clk, va, b);
  }

  // ---------------------------------------------------------------- boot, spelled out

  /** The lists in which the shipped kernel enters user mode: PCB 8 runs, nobody is ready, idle is parked, all other
      PCBs are free, lowest number last. */
  lemma BootLists(mem: seq<seq<Mem.Byte>>, queues: nat, idleBirth: word, initBirth: word)
    requires Ram(mem)
    ensures var sch := Booted(mem, queues, idleBirth, initBirth).sch;
      && |sch.q| == queues + 2 && |sch.quantum| == 10 && sch.cur == 8 && sch.cq == 0
      && sch.q[READY] == [] && sch.q[FREE] == [7, 6, 5, 4, 3, 2, 1, 0]
          && (forall a :: 2 <= a < |sch.q| ==> sch.q[a] == [])
      && sch.quantum[8] == 18 && sch.quantum[9] == 0
  {
    BootedFree(mem, queues, idleBirth, initBirth);
    FreeFromBoot(BootFree(ZEOS));
  }

  lemma BootedFree(mem: seq<seq<Mem.Byte>>, queues: nat, idleBirth: word, initBirth: word)
    requires Ram(mem)
    ensures ZEOS.Valid() && Booted(mem, queues, idleBirth, initBirth).sch.q[FREE] == BootFree(ZEOS)
  {
  }

  lemma FreeFromBoot(free: seq<nat>)
    requires |free| == 8 && forall i :: 0 <= i < 8 ==> free[i] == 7 - i
    ensures free == [7, 6, 5, 4, 3, 2, 1, 0]
  {
  }

  /** ... and the PCBs: the initial process has PID 1 and idle PID 0, and no time has been charged to either. */
  lemma BootPcbsAre(mem: seq<seq<Mem.Byte>>, queues: nat, idleBirth: word, initBirth: word)
    requires Ram(mem)
    ensures var s := Booted(mem, queues, idleBirth, initBirth);
      && |s.pcb| == 10 && s.pidMax == 1
      && s.pcb[8].pid == 1 && s.pcb[8].account.st == Stats(0, 0, 0, 0, initBirth, 0, 0) && s.pcb[8].state == StRun
      && s.pcb[9].pid == 0 && s.pcb[9].account.st == Stats(0, 0, 0, 0, idleBirth, 0, 18)
      && forall t :: 0 <= t < 8 ==> s.pcb[t].pid == -1
  {
  }

  // ---------------------------------------------------------------- dispatch

  /** The initial process, alone after boot, keeps the processor, and from its first tick on has its whole quantum of 18
      again at every 18th tick. */
  lemma InitCycles(mem: seq<seq<Mem.Byte>>, queues: nat, idleBirth: word, initBirth: word, n: nat, clk: Clock)
    requires Ram(mem)
    ensures var s, first := Booted(mem, queues, idleBirth, initBirth), [Interrupt(clk.entry), Tick(clk)];
      && Runs(s, first)
      && var s1 := After(s, first);
         && Runs(s1, ClockTicks(n, clk))
         && var r := After(s1, ClockTicks(n, clk)).sch; r.cur == 8 && r.q[READY] == [] && r.cq == 18 - n % 18
  {
    BootedAlone8(mem, queues, idleBirth, initBirth);
    FirstTick(Booted(mem, queues, idleBirth, initBirth), n, clk);
  }

  lemma BootedAlone8(mem: seq<seq<Mem.Byte>>, queues: nat, idleBirth: word, initBirth: word)
    requires Ram(mem)
    ensures var s := Booted(mem, queues, idleBirth, initBirth);
      RunsAlone(s, 8) && s.sch.cq == 0 && |s.sch.quantum| > 8 && s.sch.quantum[8] == 18
  {
  }

  lemma FirstTick(s: State, n: nat, clk: Clock)
    requires RunsAlone(s, 8) && s.sch.cq == 0 && s.sch.quantum[8] == 18
    ensures Runs(s, [Interrupt(clk.entry), Tick(clk)])
    ensures var s1 := After(s, [Interrupt(clk.entry), Tick(clk)]);
      && Runs(s1, ClockTicks(n, clk))
      && var r := After(s1, ClockTicks(n, clk)).sch; r.cur == 8 && r.q[READY] == [] && r.cq == 18 - n % 18
  {
    OneTickRuns(s, clk);
    OneAloneTick(s, 8, clk);
    AloneCycles(After(s, [Interrupt(clk.entry), Tick(clk)]), 8, n, clk);
  }

  /** The initial process blocks and is woken while idle runs: it has the processor at once, with its quantum of 18, and
      idle stands in the ready list. */
  lemma WokenInitRunsAtOnce(mem: seq<seq<Mem.Byte>>, queues: nat, idleBirth: word, initBirth: word, clk: Clock,
      wake: Clock)
    requires Ram(mem) && queues >= 1
    ensures var s, es := Booted(mem, queues, idleBirth, initBirth), [Block(2, clk)] + [Unblock(2, 0, wake)];
      && Runs(s, es)
      && var r := After(s, es).sch; r.cur == 8 && r.cq == 18 && r.q[READY] == [9]
  {
    BootedAlone(mem, queues, idleBirth, initBirth);
    BootLists(mem, queues, idleBirth, initBirth);
    AloneWoken(Booted(mem, queues, idleBirth, initBirth), clk, wake);
  }

  lemma AloneWoken(s: State, clk: Clock, wake: Clock)
    requires Alone(s) && s.sch.quantum[8] == 18
    ensures var es := [Block(2, clk)] + [Unblock(2, 0, wake)];
      && Runs(s, es)
      && var r := After(s, es).sch; r.cur == 8 && r.cq == 18 && r.q[READY] == [9]
  {
    InitBlocks(s, clk);
    var s1 := After(s, [Block(2, clk)]);
    RunOne(s1, Unblock(2, 0, wake));
    Blocking.WokenRunsAtOnce(s1, 2, 0, wake);
    RunConcat(s, [Block(2, clk)], [Unblock(2, 0, wake)]);
  }

  /** In every run of the shipped kernel every process has the quantum 18, and whoever is in a blocking queue is in
      state ready, in the middle of a call. */
  lemma EighteenForEverybody(mem: seq<seq<Mem.Byte>>, queues: nat, idleBirth: word, initBirth: word, es: seq<Step>)
    requires Ram(mem) && Runs(Booted(mem, queues, idleBirth, initBirth), es)
    ensures SameQuanta(After(Booted(mem, queues, idleBirth, initBirth), es), 18)
    ensures Blocking.SleepersAreReady(After(Booted(mem, queues, idleBirth, initBirth), es))
  {
    BootLists(mem, queues, idleBirth, initBirth);
    BootedQuanta(mem, queues, idleBirth, initBirth);
    QuantaOverRuns(Booted(mem, queues, idleBirth, initBirth), es, 18);
    Blocking.SleepersOverRuns(Booted(mem, queues, idleBirth, initBirth), es);
  }

  lemma BootedQuanta(mem: seq<seq<Mem.Byte>>, queues: nat, idleBirth: word, initBirth: word)
    requires Ram(mem)
    ensures SameQuanta(Booted(mem, queues, idleBirth, initBirth), 18)
  {
    BootLists(mem, queues, idleBirth, initBirth);
    BootFreeSpec(ZEOS);
  }
}
